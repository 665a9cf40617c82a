/**
 * The download folder of brtr.py's worker: the files of earlier runs are
 * removed before the browser starts, and after the export the file created
 * last is renamed to data.xls, the input of the conversion.
 */
module DownloadResolver {
  import opened Wrappers
  import opened SpreadsheetTransform

  /** A file of the download folder: its creation time (os.path.getctime) and what it holds. */
  datatype Entry = Entry(ctime: int, content: XmlFile)

  /** The download folder, by file name. */
  type Folder = map<string, Entry>

  /** The name the export is renamed to. */
  const DataXls: string := "data.xls"

  /** `listing` is an order os.listdir may return for the folder: every file exactly once. */
  ghost predicate Lists(listing: seq<string>, folder: Folder)
  {
    && (forall i, j :: 0 <= i < j < |listing| ==> listing[i] != listing[j])
    && (forall n :: n in folder <==> n in listing)
  }

  // ---------------------------------------------------------------------
  // Removing the files of earlier runs
  // ---------------------------------------------------------------------

  /** The folder after the cleanup: the files os.remove could not delete, unchanged. */
  function Cleaned(folder: Folder, undeletable: set<string>): (r: Folder)
    ensures r.Keys == folder.Keys * undeletable
    ensures forall n :: n in r ==> r[n] == folder[n]
  {
    map n | n in folder && n in undeletable :: folder[n]
  }

  /**
   * The cleanup loop: every listed file is removed, and a removal that raises
   * (the file is in `undeletable`) is ignored.
   */
  method Cleanup(folder: Folder, listing: seq<string>, undeletable: set<string>) returns (r: Folder)
    requires Lists(listing, folder)
    ensures r.Keys == folder.Keys * undeletable
    ensures forall n :: n in r ==> r[n] == folder[n]
    ensures r == Cleaned(folder, undeletable)
  {
    r := folder;
    for i := 0 to |listing|
      invariant forall n :: n in r <==> n in folder && (n in undeletable || n !in listing[..i])
      invariant forall n :: n in r ==> r[n] == folder[n]
    {
      var f := listing[i];
      assert forall n :: n in listing[..i + 1] <==> n in listing[..i] || n == f;
      if f !in undeletable {
        r := r - {f};
      }
    }
    assert listing[..|listing|] == listing;
  }

  /** A folder whose files can all be removed is empty after the cleanup. */
  lemma CleanupEmpties(folder: Folder, undeletable: set<string>)
    requires forall n :: n in folder ==> n !in undeletable
    ensures Cleaned(folder, undeletable) == map[]
  {
    assert Cleaned(folder, undeletable).Keys == {};
  }

  // ---------------------------------------------------------------------
  // Finding the newest file and renaming it
  // ---------------------------------------------------------------------

  /**
   * The position in `listing` of what `max(..., key=os.path.getctime)` returns:
   * a file with the latest creation time, the first one of the listing on a tie.
   */
  function Newest(listing: seq<string>, folder: Folder): (i: nat)
    requires |listing| > 0
    requires forall n :: n in listing ==> n in folder
    ensures i < |listing|
    ensures forall j :: 0 <= j < |listing| ==> folder[listing[j]].ctime <= folder[listing[i]].ctime
    ensures forall j :: 0 <= j < i ==> folder[listing[j]].ctime < folder[listing[i]].ctime
    decreases |listing|
  {
    if |listing| == 1 then 0
    else
      var rest := listing[..|listing| - 1];
      assert forall n :: n in rest ==> n in listing;
      var i := Newest(rest, folder);
      if folder[listing[|listing| - 1]].ctime > folder[rest[i]].ctime then |listing| - 1 else i
  }

  /** os.replace: the file `source` now goes by `target`, replacing any file of that name. */
  function Replace(folder: Folder, source: string, target: string): (r: Folder)
    requires source in folder
    ensures target in r && r[target] == folder[source]
    ensures r.Keys == if source == target then folder.Keys else folder.Keys - {source} + {target}
    ensures forall n :: n in r && n != target ==> r[n] == folder[n]
  {
    (folder - {source})[target := folder[source]]
  }

  /** Where the rename block raises, if it does: in os.listdir, os.path.getctime or os.replace. */
  datatype Fault = NoFault | ListFails | StatFails | ReplaceFails

  /**
   * The outcome of the rename block: the folder afterwards, the file the
   * variable `latest` names if it was assigned, and whether a rename error was logged.
   */
  datatype Resolution = Resolution(folder: Folder, latest: Option<string>, renameError: bool)

  /** The rename block: when the folder is not empty, its newest file becomes data.xls. */
  function Resolve(folder: Folder, listing: seq<string>, fault: Fault): (r: Resolution)
    requires Lists(listing, folder)
    ensures r.latest.Some? ==> r.latest.value in folder
    ensures r.folder == folder || (r.latest.Some? && !r.renameError && r.folder == Replace(folder, r.latest.value, DataXls))
    ensures r.renameError ==> r.folder == folder
  {
    if fault == ListFails then Resolution(folder, None, true)
    else if |listing| == 0 then Resolution(folder, None, false)
    else if fault == StatFails then Resolution(folder, None, true)
    else
      var latest := listing[Newest(listing, folder)];
      if fault == ReplaceFails then Resolution(folder, Some(latest), true)
      else Resolution(Replace(folder, latest, DataXls), Some(latest), false)
  }

  /** The listing is empty exactly when the folder is. */
  lemma ListsEmpty(listing: seq<string>, folder: Folder)
    requires Lists(listing, folder)
    ensures |listing| == 0 <==> folder == map[]
  {
    assert |listing| > 0 ==> listing[0] in folder;
    if folder != map[] {
      var n :| n in folder;
      assert n in listing;
    }
  }

  /** `latest` is assigned exactly when the folder could be listed, is not empty, and the creation times could be read. */
  lemma LatestBound(folder: Folder, listing: seq<string>, fault: Fault)
    requires Lists(listing, folder)
    ensures Resolve(folder, listing, fault).latest.Some? <==>
      folder != map[] && fault != ListFails && fault != StatFails
  {
    ListsEmpty(listing, folder);
  }

  /** A rename error is logged exactly when one of the calls of the block raises. */
  lemma RenameErrorWhen(folder: Folder, listing: seq<string>, fault: Fault)
    requires Lists(listing, folder)
    ensures Resolve(folder, listing, fault).renameError <==>
      fault == ListFails || (folder != map[] && fault != NoFault)
  {
    ListsEmpty(listing, folder);
  }

  /** The file picked is the first of the listing with the latest creation time in the folder. */
  lemma LatestIsNewest(folder: Folder, listing: seq<string>, fault: Fault)
    requires Lists(listing, folder)
    requires Resolve(folder, listing, fault).latest.Some?
    ensures |listing| > 0 && Resolve(folder, listing, fault).latest.value == listing[Newest(listing, folder)]
    ensures var latest := Resolve(folder, listing, fault).latest.value;
      latest in folder && forall n :: n in folder ==> folder[n].ctime <= folder[latest].ctime
  {
    var latest := listing[Newest(listing, folder)];
    forall n | n in folder
      ensures folder[n].ctime <= folder[latest].ctime
    {
      var j :| 0 <= j < |listing| && listing[j] == n;
    }
  }

  /** When the block completes on a non-empty folder, the newest file is data.xls and the other files are as they were. */
  lemma RenamedToData(folder: Folder, listing: seq<string>, fault: Fault)
    requires Lists(listing, folder)
    requires folder != map[] && fault == NoFault
    ensures var r := Resolve(folder, listing, fault);
      && r.latest.Some? && !r.renameError
      && DataXls in r.folder && r.folder[DataXls] == folder[r.latest.value]
      && r.folder.Keys == (folder.Keys - {r.latest.value}) + {DataXls}
      && (forall n :: n in r.folder && n != DataXls ==> r.folder[n] == folder[n])
  {
    LatestBound(folder, listing, fault);
  }

  /** Unless the newest file was renamed, the block leaves the folder as it was. */
  lemma UnrenamedUnchanged(folder: Folder, listing: seq<string>, fault: Fault)
    requires Lists(listing, folder)
    requires folder == map[] || fault != NoFault
    ensures Resolve(folder, listing, fault).folder == folder
  {
    ListsEmpty(listing, folder);
  }

  /** The export alone in the folder becomes data.xls. */
  lemma SingleDownload(name: string, e: Entry, listing: seq<string>)
    requires Lists(listing, map[name := e])
    ensures Resolve(map[name := e], listing, NoFault) == Resolution(map[DataXls := e], Some(name), false)
  {
    assert name in listing;
    assert listing[Newest(listing, map[name := e])] in map[name := e];
    assert (map[name := e] - {name})[DataXls := e] == map[DataXls := e];
  }
}
