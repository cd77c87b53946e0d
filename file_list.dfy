/**
 * The list of generated chapter files and the two ways of exporting from
 * it: downloading one file by id, and packing the checked files into one
 * archive. Lookups use `Array.prototype.find`, so when two files share an
 * id (ids are `Date.now()` readings, not guaranteed distinct) the earlier
 * file always wins.
 */
module FileList {
  import opened Wrappers
  import opened DocxLayout

  /** One entry of the list; `doc` stands for the rendered blob. */
  datatype GeneratedFile = GeneratedFile(id: int, name: string, doc: seq<Paragraph>, chapterNum: int)

  /** A file handed to the browser (or put into the archive): its name and content. */
  datatype Download = Download(fileName: string, content: seq<Paragraph>)

  /** What the "download selected" button does. */
  datatype ExportOutcome =
    | NothingChecked                   // no box is checked: a warning toast, nothing else
    | NothingFound                     // boxes are checked but no id matches a file: nothing happens
    | Archive(entries: seq<Download>)  // one archive with these entries; the toast reports |entries|

  predicate UniqueIds(files: seq<GeneratedFile>)
  {
    forall i, j :: 0 <= i < j < |files| ==> files[i].id != files[j].id
  }

  /** The position `files.find(f => f.id === id)` stops at: the first file with that id. */
  function FindIndex(files: seq<GeneratedFile>, id: int): (r: Option<nat>)
    ensures r.Some? ==> r.value < |files| && files[r.value].id == id
    ensures r.Some? ==> forall j :: 0 <= j < r.value ==> files[j].id != id
    ensures r.None? <==> forall j :: 0 <= j < |files| ==> files[j].id != id
  {
    if files == [] then None
    else if files[0].id == id then Some(0)
    else
      match FindIndex(files[1..], id)
      case None => None
      case Some(k) => Some(k + 1)
  }

  /** `files.find(f => f.id === id)`. */
  function Find(files: seq<GeneratedFile>, id: int): (r: Option<GeneratedFile>)
    ensures r.Some? ==> r.value in files && r.value.id == id
    ensures r.None? <==> forall j :: 0 <= j < |files| ==> files[j].id != id
  {
    match FindIndex(files, id)
    case None => None
    case Some(k) => Some(files[k])
  }

  function DownloadOf(f: GeneratedFile): Download
  {
    Download(f.name, f.doc)
  }

  /** `downloadSingle(id)`: save the first file with that id; an unknown id does nothing. */
  function DownloadSingle(files: seq<GeneratedFile>, id: int): (d: Option<Download>)
    ensures d.None? <==> forall j :: 0 <= j < |files| ==> files[j].id != id
    ensures d.Some? ==> exists k :: 0 <= k < |files| && files[k].id == id && d.value == DownloadOf(files[k])
                                     && forall j :: 0 <= j < k ==> files[j].id != id
  {
    match Find(files, id)
    case None => None
    case Some(f) => Some(DownloadOf(f))
  }

  /** When ids are distinct, looking up a file's id finds that very file. */
  lemma FindUniqueId(files: seq<GeneratedFile>, k: nat)
    requires UniqueIds(files) && k < |files|
    ensures FindIndex(files, files[k].id) == Some(k)
  {
  }

  /** A file whose id an earlier file also carries can never be downloaded on its own. */
  lemma ShadowedFileUnreachable(files: seq<GeneratedFile>, i: nat, j: nat)
    requires i < j < |files| && files[i].id == files[j].id
    ensures FindIndex(files, files[j].id) != Some(j)
  {
  }

  /** Appending a file never changes what an id already present finds. */
  lemma FindIndexAppend(files: seq<GeneratedFile>, f: GeneratedFile, id: int)
    requires FindIndex(files, id).Some?
    ensures FindIndex(files + [f], id) == FindIndex(files, id)
  {
    var k := FindIndex(files, id).value;
    assert (files + [f])[k] == files[k];
  }

  /** The archive entry one checked id contributes: none when no file has that id. */
  function EntryFor(files: seq<GeneratedFile>, id: int): seq<Download>
  {
    match Find(files, id)
    case None => []
    case Some(f) => [DownloadOf(f)]
  }

  /** The archive entries for the checked ids, in the order the boxes are visited. */
  function SelectedEntries(files: seq<GeneratedFile>, ids: seq<int>): seq<Download>
  {
    if ids == [] then []
    else SelectedEntries(files, ids[..|ids| - 1]) + EntryFor(files, ids[|ids| - 1])
  }

  /** The number of checked ids that match some file. */
  function MatchCount(files: seq<GeneratedFile>, ids: seq<int>): nat
  {
    if ids == [] then 0
    else MatchCount(files, ids[..|ids| - 1]) + (if Find(files, ids[|ids| - 1]).Some? then 1 else 0)
  }

  /** The archive holds one entry per checked id that matches a file, so never more than there are checked ids. */
  lemma {:induction false} SelectedEntriesLength(files: seq<GeneratedFile>, ids: seq<int>)
    ensures |SelectedEntries(files, ids)| == MatchCount(files, ids) <= |ids|
  {
    if ids != [] {
      SelectedEntriesLength(files, ids[..|ids| - 1]);
    }
  }

  /** Every entry is the download of the first file matching some checked id. */
  lemma {:induction false} SelectedEntriesSound(files: seq<GeneratedFile>, ids: seq<int>, e: Download)
    requires e in SelectedEntries(files, ids)
    ensures exists k :: 0 <= k < |ids| && Find(files, ids[k]).Some? && e == DownloadOf(Find(files, ids[k]).value)
  {
    var init := ids[..|ids| - 1];
    if e in SelectedEntries(files, init) {
      SelectedEntriesSound(files, init, e);
      var k :| 0 <= k < |init| && Find(files, init[k]).Some? && e == DownloadOf(Find(files, init[k]).value);
      assert ids[k] == init[k];
    } else {
      assert e in EntryFor(files, ids[|ids| - 1]);
    }
  }

  /** Every checked id that matches a file puts that file's download into the archive. */
  lemma {:induction false} SelectedEntriesComplete(files: seq<GeneratedFile>, ids: seq<int>, k: nat)
    requires k < |ids| && Find(files, ids[k]).Some?
    ensures DownloadOf(Find(files, ids[k]).value) in SelectedEntries(files, ids)
  {
    var init := ids[..|ids| - 1];
    if k < |init| {
      assert ids[k] == init[k];
      SelectedEntriesComplete(files, init, k);
    }
  }

  /**
   * The `checkboxes.forEach` loop of `downloadSelected`: adds the file found
   * for each checked id to the archive and counts the ids that matched.
   */
  method CollectSelected(files: seq<GeneratedFile>, ids: seq<int>) returns (entries: seq<Download>, count: nat)
    ensures entries == SelectedEntries(files, ids)
    ensures count == MatchCount(files, ids) == |entries|
  {
    entries, count := [], 0;
    var i := 0;
    while i < |ids|
      invariant 0 <= i <= |ids|
      invariant entries == SelectedEntries(files, ids[..i])
      invariant count == MatchCount(files, ids[..i])
      invariant count == |entries|
    {
      assert ids[..i + 1][..i] == ids[..i];
      var file := Find(files, ids[i]);
      if file.Some? {
        entries := entries + [DownloadOf(file.value)];
        count := count + 1;
      }
      i := i + 1;
    }
    assert ids[..i] == ids;
  }

  /**
   * `downloadSelected`: with no box checked it only warns; otherwise it
   * builds an archive of the matching files, and only if at least one
   * matched does it save it.
   */
  method DownloadSelected(files: seq<GeneratedFile>, checkedIds: seq<int>) returns (outcome: ExportOutcome)
    ensures checkedIds == [] <==> outcome == NothingChecked
    ensures checkedIds != [] && MatchCount(files, checkedIds) == 0 <==> outcome == NothingFound
    ensures outcome.Archive? ==> outcome.entries == SelectedEntries(files, checkedIds)
                                 && |outcome.entries| == MatchCount(files, checkedIds) > 0
  {
    if checkedIds == [] {
      return NothingChecked;
    }
    var entries, count := CollectSelected(files, checkedIds);
    if count > 0 {
      outcome := Archive(entries);
    } else {
      outcome := NothingFound;
    }
  }
}
