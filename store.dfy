/**
 * The application store of lib/store.ts: credentials, the listed files, the
 * selected keys, three flags and the session expiry, with the actions that
 * replace some of those fields.
 */
module Store {
  import opened Wrappers
  import opened Sequences

  /** One listed object. `lastModified` is in milliseconds since the epoch. */
  datatype S3File = S3File(key: string, size: int, lastModified: int, etag: string)

  /** What the connect form produces; `prefix` is absent when the form's field was empty. */
  datatype Credentials = Credentials(
    accessKey: string,
    secretKey: string,
    region: string,
    bucketName: string,
    prefix: Option<string>)

  /** Length of a session: 30 minutes, in milliseconds. */
  const SessionDurationMs: int := 30 * 60 * 1000

  /** The value of every field of the store at one moment. */
  datatype StoreState = StoreState(
    credentials: Option<Credentials>,
    files: seq<S3File>,
    selectedFiles: set<string>,
    isConnected: bool,
    isLoading: bool,
    error: Option<string>,
    sessionExpiry: Option<int>)

  /** The state the store is created in. */
  const InitialState: StoreState := StoreState(None, [], {}, false, false, None, None)

  /** The keys of a file list: `new Set(files.map((f) => f.key))`. */
  function Keys(files: seq<S3File>): (ks: set<string>)
    ensures forall f :: f in files ==> f.key in ks
    ensures forall k :: k in ks ==> exists f :: f in files && f.key == k
  {
    set f | f in files :: f.key
  }

  /** No two entries of `files` share a key. */
  predicate DistinctKeys(files: seq<S3File>) {
    forall i, j :: 0 <= i < j < |files| ==> files[i].key != files[j].key
  }

  /** A subsequence of a list with distinct keys has distinct keys. */
  lemma {:induction false} SubsequenceDistinct(a: seq<S3File>, b: seq<S3File>)
    requires IsSubsequence(a, b) && DistinctKeys(b)
    ensures DistinctKeys(a)
    decreases |b|
  {
    if a != [] && b != [] {
      if a[0] == b[0] && IsSubsequence(a[1..], b[1..]) {
        SubsequenceDistinct(a[1..], b[1..]);
        SubsequenceMembers(a[1..], b[1..]);
        forall j | 0 < j < |a|
          ensures a[0].key != a[j].key
        {
          assert a[j] == a[1..][j - 1];
          assert a[j] in a[1..];
          assert a[j] in b[1..];
          var m :| 0 <= m < |b[1..]| && b[1..][m] == a[j];
          assert b[m + 1] == a[j];
        }
      } else {
        SubsequenceDistinct(a, b[1..]);
      }
    }
  }

  /** The selection after toggling `key`: its membership flips, every other key's stays. */
  function Toggled(selected: set<string>, key: string): (r: set<string>)
    ensures key in r <==> key !in selected
    ensures forall k :: k != key ==> (k in r <==> k in selected)
  {
    if key in selected then selected - {key} else selected + {key}
  }

  /** Toggling the same key twice restores the selection. */
  lemma ToggleTwice(selected: set<string>, key: string)
    ensures Toggled(Toggled(selected, key), key) == selected
  {
  }

  /** The selection after toggling each key of `keys` in turn. */
  function ToggleEach(selected: set<string>, keys: seq<string>): set<string>
    decreases |keys|
  {
    if keys == [] then selected else ToggleEach(Toggled(selected, keys[0]), keys[1..])
  }

  /**
   * After any sequence of toggles, a key is selected exactly when it was
   * selected before XOR it was toggled an odd number of times.
   */
  lemma {:induction false} ToggleEachParity(selected: set<string>, keys: seq<string>, k: string)
    ensures k in ToggleEach(selected, keys) <==> ((k in selected) != (multiset(keys)[k] % 2 == 1))
    decreases |keys|
  {
    if keys != [] {
      ToggleEachParity(Toggled(selected, keys[0]), keys[1..], k);
      assert keys == [keys[0]] + keys[1..];
      assert multiset(keys) == multiset{keys[0]} + multiset(keys[1..]);
    }
  }

  /** The state `clearSession` leaves: everything reset except the loading flag. */
  function Cleared(s: StoreState): (r: StoreState)
    ensures r == InitialState.(isLoading := s.isLoading)
  {
    s.(credentials := None, files := [], selectedFiles := {}, isConnected := false,
       error := None, sessionExpiry := None)
  }

  /** Clearing a cleared session changes nothing. */
  lemma ClearedIdempotent(s: StoreState)
    ensures Cleared(Cleared(s)) == Cleared(s)
  {
  }

  /** The one shared store (zustand's `useAppStore`), its fields updated in place by its actions. */
  class AppStore {
    var credentials: Option<Credentials>
    var files: seq<S3File>
    var selectedFiles: set<string>
    var isConnected: bool
    var isLoading: bool
    var error: Option<string>
    var sessionExpiry: Option<int>

    function State(): StoreState
      reads this
    {
      StoreState(credentials, files, selectedFiles, isConnected, isLoading, error, sessionExpiry)
    }

    constructor ()
      ensures State() == InitialState
    {
      credentials := None;
      files := [];
      selectedFiles := {};
      isConnected := false;
      isLoading := false;
      error := None;
      sessionExpiry := None;
    }

    method SetCredentials(c: Credentials)
      modifies this
      ensures State() == old(State()).(credentials := Some(c))
    {
      credentials := Some(c);
    }

    /** Replaces the file list; the selection is kept as it is, stale keys included. */
    method SetFiles(fs: seq<S3File>)
      modifies this
      ensures State() == old(State()).(files := fs)
    {
      files := fs;
    }

    method ToggleFileSelection(key: string)
      modifies this
      ensures State() == old(State()).(selectedFiles := Toggled(old(selectedFiles), key))
    {
      var newSelected := selectedFiles;
      if key in newSelected {
        newSelected := newSelected - {key};
      } else {
        newSelected := newSelected + {key};
      }
      selectedFiles := newSelected;
    }

    method SelectAllFiles()
      modifies this
      ensures State() == old(State()).(selectedFiles := Keys(old(files)))
    {
      selectedFiles := Keys(files);
    }

    method DeselectAllFiles()
      modifies this
      ensures State() == old(State()).(selectedFiles := {})
    {
      selectedFiles := {};
    }

    method SetLoading(loading: bool)
      modifies this
      ensures State() == old(State()).(isLoading := loading)
    {
      isLoading := loading;
    }

    method SetError(e: Option<string>)
      modifies this
      ensures State() == old(State()).(error := e)
    {
      error := e;
    }

    method SetConnected(connected: bool)
      modifies this
      ensures State() == old(State()).(isConnected := connected)
    {
      isConnected := connected;
    }

    method ClearSession()
      modifies this
      ensures State() == Cleared(old(State()))
    {
      credentials := None;
      files := [];
      selectedFiles := {};
      isConnected := false;
      error := None;
      sessionExpiry := None;
    }

    /** Starts a session at time `now` (milliseconds): it expires 30 minutes later. */
    method InitSession(now: int)
      modifies this
      ensures State() == old(State()).(sessionExpiry := Some(now + SessionDurationMs))
    {
      sessionExpiry := Some(now + SessionDurationMs);
    }
  }

  /** Selecting every file and then deselecting them leaves nothing selected, whatever the list. */
  method SelectAllThenDeselectAll(store: AppStore)
    modifies store
    ensures store.State() == old(store.State()).(selectedFiles := {})
  {
    store.SelectAllFiles();
    store.DeselectAllFiles();
  }
}
