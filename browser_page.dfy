/**
 * The file browser of app/browser/page.tsx: the case-insensitive search
 * filter, the state of the select-all checkbox, select-all, loading the
 * listing and downloading the selection as one file or as an archive.
 * Each awaited call is a parameter giving how it ended.
 */
module Browser {
  import opened Wrappers
  import opened Sequences
  import opened Text
  import opened Store
  import S3Client

  /** The search test on one file: its lowercased key includes the lowercased term. */
  function MatchesTerm(term: string): S3File -> bool {
    (f: S3File) => Contains(ToLower(f.key), ToLower(term))
  }

  /** `filteredFiles`: the files whose key includes the search term, ignoring ASCII case, in order. */
  function FilteredFiles(files: seq<S3File>, term: string): (r: seq<S3File>)
    ensures forall f :: f in r <==> f in files && Contains(ToLower(f.key), ToLower(term))
    ensures forall f :: multiset(r)[f] == (if MatchesTerm(term)(f) then multiset(files)[f] else 0)
    ensures IsSubsequence(r, files)
  {
    Filter(files, MatchesTerm(term))
  }

  /** An empty search keeps every file. */
  lemma EmptyTermKeepsAll(files: seq<S3File>)
    ensures FilteredFiles(files, "") == files
  {
    forall f | f in files
      ensures MatchesTerm("")(f)
    {
      ContainsEmpty(ToLower(f.key));
    }
    FilterKeepsAll(files, MatchesTerm(""));
  }

  /** Filtering keeps keys distinct. */
  lemma FilteredKeepsDistinct(files: seq<S3File>, term: string)
    requires DistinctKeys(files)
    ensures DistinctKeys(FilteredFiles(files, term))
  {
    SubsequenceDistinct(FilteredFiles(files, term), files);
  }

  /**
   * `allSelected` (`filteredFiles.length > 0 && filteredFiles.every(...)`):
   * the shown keys are non-empty and all of them are selected.
   */
  function AllSelected(filtered: seq<S3File>, selected: set<string>): (all: bool)
    ensures all <==> Keys(filtered) != {} && Keys(filtered) <= selected
  {
    if filtered != [] then
      assert filtered[0].key in Keys(filtered);
      forall f :: f in filtered ==> f.key in selected
    else
      false
  }

  /**
   * `someSelected` (`selectedFiles.size > 0 && !allSelected`). The select-all
   * checkbox is in exactly one of three states: checked (`allSelected`),
   * indeterminate (`someSelected`) or, exactly when the selection is empty,
   * neither.
   */
  function SomeSelected(filtered: seq<S3File>, selected: set<string>): (some: bool)
    ensures !(some && AllSelected(filtered, selected))
    ensures !some && !AllSelected(filtered, selected) <==> selected == {}
  {
    |selected| > 0 && !AllSelected(filtered, selected)
  }

  /**
   * The selection after the select-all loop: each shown file whose key was
   * not selected when the loop began (`snapshot`) is toggled in turn,
   * starting from `current`.
   */
  function SelectMissing(snapshot: set<string>, current: set<string>, files: seq<S3File>): set<string>
    decreases |files|
  {
    if files == [] then current
    else
      var next := if files[0].key in snapshot then current else Toggled(current, files[0].key);
      SelectMissing(snapshot, next, files[1..])
  }

  /** The loop never unselects a key that was selected when it began, and adds only shown keys. */
  lemma {:induction false} SelectMissingKeeps(snapshot: set<string>, current: set<string>, files: seq<S3File>)
    requires snapshot <= current
    ensures snapshot <= SelectMissing(snapshot, current, files)
    ensures SelectMissing(snapshot, current, files) <= current + Keys(files)
    decreases |files|
  {
    if files != [] {
      var next := if files[0].key in snapshot then current else Toggled(current, files[0].key);
      SelectMissingKeeps(snapshot, next, files[1..]);
      assert Keys(files) == {files[0].key} + Keys(files[1..]) by {
        assert files == [files[0]] + files[1..];
      }
    }
  }

  /** With distinct keys the loop adds exactly the shown keys to the selection. */
  lemma {:induction false} SelectMissingDistinct(snapshot: set<string>, current: set<string>, files: seq<S3File>)
    requires DistinctKeys(files)
    requires snapshot <= current
    requires forall f :: f in files && f.key !in snapshot ==> f.key !in current
    ensures SelectMissing(snapshot, current, files) == current + Keys(files)
    decreases |files|
  {
    if files != [] {
      var k := files[0].key;
      var next := if k in snapshot then current else Toggled(current, k);
      assert next == current + {k};
      forall f | f in files[1..] && f.key !in snapshot
        ensures f.key !in next
      {
        var j :| 0 <= j < |files[1..]| && files[1..][j] == f;
        assert files[j + 1] == f;
      }
      SelectMissingDistinct(snapshot, next, files[1..]);
      assert Keys(files) == {k} + Keys(files[1..]) by {
        assert files == [files[0]] + files[1..];
      }
    }
  }

  /**
   * When the shown files have distinct keys, select-all (when not all are
   * selected) leaves the old selection plus every shown key, so afterwards
   * every shown file is selected.
   */
  lemma SelectAllSelectsShown(selected: set<string>, filtered: seq<S3File>)
    requires DistinctKeys(filtered)
    ensures SelectMissing(selected, selected, filtered) == selected + Keys(filtered)
    ensures filtered != [] ==> AllSelected(filtered, SelectMissing(selected, selected, filtered))
  {
    SelectMissingDistinct(selected, selected, filtered);
  }

  /**
   * The loop tests the selection as it was when it began, so a key listed
   * twice is toggled twice and ends up unselected.
   */
  lemma DuplicateKeyToggledTwice(f: S3File)
    ensures SelectMissing({}, {}, [f, f]) == {}
    ensures !AllSelected([f, f], SelectMissing({}, {}, [f, f]))
  {
    assert [f, f][1..] == [f];
    assert [f][1..] == [];
    assert Toggled({}, f.key) == {f.key};
    assert Toggled({f.key}, f.key) == {};
    assert SelectMissing({}, {}, [f, f]) == SelectMissing({}, {f.key}, [f]);
    assert SelectMissing({}, {f.key}, [f]) == SelectMissing({}, {}, []);
  }

  /**
   * The name a single download is saved under: the text after the last `/`
   * of the key, or "download" when that text is empty.
   */
  function DownloadName(key: string): (name: string)
    ensures name != [] && '/' !in name
    ensures |key| == 0 || key[|key| - 1] == '/' ==> name == "download"
    ensures |key| > 0 && key[|key| - 1] != '/' ==>
      && |name| <= |key| && key[|key| - |name|..] == name
      && (|name| == |key| || key[|key| - |name| - 1] == '/')
  {
    var last := LastSegment(key);
    if last != [] then last
    else
      assert |key| > 0 ==> key[|key| - 1] == '/';
      "download"
  }

  /** The download the page asks the client for. */
  datatype DownloadRequest =
    | NoDownload
    | SingleFile(key: string, fileName: string)
    | Archive(keys: seq<string>)

  /** `Array.from(selected)`: the selected keys, each once, in some order. */
  method SelectionToSeq(selected: set<string>) returns (keys: seq<string>)
    ensures |keys| == |selected|
    ensures forall k :: k in keys <==> k in selected
  {
    keys := [];
    var rest := selected;
    while rest != {}
      invariant rest <= selected
      invariant forall k :: k in keys <==> k in selected && k !in rest
      invariant |keys| + |rest| == |selected|
      decreases |rest|
    {
      var k :| k in rest;
      keys := keys + [k];
      rest := rest - {k};
    }
  }

  /** The page's own state beside the shared store. */
  class BrowserPage {
    const store: AppStore
    var searchTerm: string
    var isDownloading: bool

    constructor (store: AppStore)
      ensures this.store == store && searchTerm == "" && !isDownloading
    {
      this.store := store;
      searchTerm := "";
      isDownloading := false;
    }

    method SetSearchTerm(term: string)
      modifies this
      ensures searchTerm == term && isDownloading == old(isDownloading)
    {
      searchTerm := term;
    }

    /**
     * `loadFiles`, given how the awaited listing ended. Without credentials
     * it does nothing. Otherwise the error is cleared and loading is set
     * while the listing is awaited (`pending` is that state); a listing then
     * replaces the files; a failure sets the error and empties the files;
     * loading is off at the end either way. The selection is kept.
     */
    method LoadFiles(listing: Awaited<seq<S3File>>) returns (ghost pending: Option<StoreState>)
      modifies store
      ensures pending.Some? <==> old(store.credentials).Some?
      ensures pending.Some? ==> pending.value == old(store.State()).(isLoading := true, error := None)
      ensures pending.None? ==> store.State() == old(store.State())
      ensures pending.Some? && listing.Resolved? ==>
        store.State() == pending.value.(files := listing.value, isLoading := false)
      ensures pending.Some? && listing.Rejected? ==>
        store.State() == pending.value.(files := [], isLoading := false,
          error := Some(MessageOf(listing.thrown, "Failed to load files")))
    {
      if store.credentials.None? {
        return None;
      }
      store.SetLoading(true);
      store.SetError(None);
      pending := Some(store.State());
      match listing {
        case Resolved(fileList) =>
          store.SetFiles(fileList);
        case Rejected(thrown) =>
          store.SetError(Some(MessageOf(thrown, "Failed to load files")));
          store.SetFiles([]);
      }
      store.SetLoading(false);
    }

    /**
     * The mount effect: without a connection or credentials the page
     * redirects to the connect form; otherwise it loads the listing the mock
     * client returns for the stored credentials.
     */
    method OnMount() returns (redirect: bool)
      modifies store
      ensures redirect <==> !old(store.isConnected) || old(store.credentials).None?
      ensures redirect ==> store.State() == old(store.State())
      ensures !redirect ==> store.State() == old(store.State()).(
        files := S3Client.ListObjects(old(store.credentials).value), error := None, isLoading := false)
    {
      redirect := !store.isConnected || store.credentials.None?;
      if !redirect {
        ghost var pending := LoadFiles(Resolved(S3Client.ListObjects(store.credentials.value)));
      }
    }

    /**
     * `handleSelectAll`: when every shown file is selected the whole
     * selection is emptied, keys outside the filter included; otherwise each
     * shown file not selected when it began is toggled.
     */
    method HandleSelectAll()
      modifies store
      ensures var filtered := FilteredFiles(old(store.files), searchTerm);
        store.State() == old(store.State()).(selectedFiles :=
          if AllSelected(filtered, old(store.selectedFiles)) then {}
          else SelectMissing(old(store.selectedFiles), old(store.selectedFiles), filtered))
    {
      var filtered := FilteredFiles(store.files, searchTerm);
      if AllSelected(filtered, store.selectedFiles) {
        store.DeselectAllFiles();
      } else {
        ToggleMissing(filtered);
      }
    }

    /**
     * The `forEach` of `handleSelectAll`: each file of `filtered` whose key
     * was not selected when the loop began is toggled in the store.
     */
    method ToggleMissing(filtered: seq<S3File>)
      modifies store
      ensures store.State() == old(store.State()).(selectedFiles :=
        SelectMissing(old(store.selectedFiles), old(store.selectedFiles), filtered))
    {
      var snapshot := store.selectedFiles;
      var i := 0;
      while i < |filtered|
        invariant 0 <= i <= |filtered|
        invariant store.State() == old(store.State()).(selectedFiles := store.selectedFiles)
        invariant SelectMissing(snapshot, store.selectedFiles, filtered[i..])
                  == SelectMissing(snapshot, snapshot, filtered)
      {
        assert filtered[i..][1..] == filtered[i + 1..];
        if filtered[i].key !in snapshot {
          store.ToggleFileSelection(filtered[i].key);
        }
        i := i + 1;
      }
      assert filtered[i..] == [];
    }

    /**
     * `handleDownloadSelected`, given how the awaited download ended. With
     * nothing selected or no credentials it does nothing. One selected key
     * is downloaded alone under its file name; several go into one archive.
     * Success empties the selection; failure keeps it and sets the error.
     * `downloadingWhilePending` is the downloading flag while the download
     * is awaited.
     */
    method HandleDownloadSelected(download: Awaited<()>)
      returns (request: DownloadRequest, ghost downloadingWhilePending: bool)
      modifies this, store
      ensures downloadingWhilePending <==> !request.NoDownload?
      ensures request.NoDownload? <==> |old(store.selectedFiles)| == 0 || old(store.credentials).None?
      ensures request.NoDownload? ==> store.State() == old(store.State()) && isDownloading == old(isDownloading)
      ensures request.SingleFile? ==>
        && old(store.selectedFiles) == {request.key}
        && request.fileName == DownloadName(request.key)
      ensures request.Archive? ==>
        && |old(store.selectedFiles)| > 1
        && |request.keys| == |old(store.selectedFiles)|
        && (forall k :: k in request.keys <==> k in old(store.selectedFiles))
      ensures !request.NoDownload? && download.Resolved? ==>
        store.State() == old(store.State()).(selectedFiles := {}) && !isDownloading
      ensures !request.NoDownload? && download.Rejected? ==>
        store.State() == old(store.State()).(error := Some(MessageOf(download.thrown, "Download failed")))
        && !isDownloading
      ensures searchTerm == old(searchTerm)
    {
      if |store.selectedFiles| == 0 || store.credentials.None? {
        return NoDownload, false;
      }
      isDownloading := true;
      downloadingWhilePending := isDownloading;
      var keys := SelectionToSeq(store.selectedFiles);
      if |store.selectedFiles| == 1 {
        assert keys[0] in store.selectedFiles;
        SingletonSet(store.selectedFiles, keys[0]);
        request := SingleFile(keys[0], DownloadName(keys[0]));
      } else {
        request := Archive(keys);
      }
      match download {
        case Resolved(_) =>
          store.DeselectAllFiles();
        case Rejected(thrown) =>
          store.SetError(Some(MessageOf(thrown, "Download failed")));
      }
      isDownloading := false;
    }
  }

  /** A set of one element is the singleton of any of its members. */
  lemma SingletonSet(s: set<string>, k: string)
    requires |s| == 1 && k in s
    ensures s == {k}
  {
    assert |s - {k}| == 0;
    assert s - {k} == {};
  }
}
