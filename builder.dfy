/**
 * `DatasetBuilder` (tensorflow_datasets/core/dataset_builder.py:121-308):
 * choosing the versioned data directory and the `download_and_prepare`
 * state machine around the subclass hook.
 */
module Builder {
  import opened Wrappers
  import opened PyStrings
  import opened Splits

  /** `DEFAULT_DATA_DIR`; `expanduser` is not modelled, so "~" stays literal. */
  const DEFAULT_DATA_DIR := "~/tensorflow_datasets"

  /** The marker that names a version directory still being generated. */
  const INCOMPLETE := ".incomplete"

  /** `os.path.join(a, b)` for a relative `b`. */
  function Join(a: string, b: string): string
  {
    a + "/" + b
  }

  /** Python truthiness of an optional string: neither `None` nor "". */
  predicate Truthy(s: Option<string>)
  {
    s.Some? && s.value != ""
  }

  /** `m` is the greatest entry of the listing that is not marked incomplete. */
  ghost predicate IsLatest(m: string, entries: seq<string>)
  {
    m in entries && !Contains(m, INCOMPLETE) &&
    forall e :: e in entries && !Contains(e, INCOMPLETE) ==> LexLe(e, m)
  }

  /** `[f for f in entries if ".incomplete" not in f]`, order kept. */
  function CompleteEntries(entries: seq<string>): (r: seq<string>)
    ensures forall e :: e in r <==> e in entries && !Contains(e, INCOMPLETE)
  {
    if entries == [] then []
    else if Contains(entries[0], INCOMPLETE) then CompleteEntries(entries[1..])
    else [entries[0]] + CompleteEntries(entries[1..])
  }

  lemma {:induction false} CompleteEntriesSorted(s: seq<string>)
    requires Sorted(s)
    ensures Sorted(CompleteEntries(s))
  {
    if s != [] {
      var t := CompleteEntries(s[1..]);
      assert Sorted(s[1..]) by {
        forall i, j | 0 <= i < j < |s[1..]|
          ensures LexLe(s[1..][i], s[1..][j])
        {
          assert s[1..][i] == s[i + 1] && s[1..][j] == s[j + 1];
        }
      }
      CompleteEntriesSorted(s[1..]);
      if !Contains(s[0], INCOMPLETE) {
        var r := [s[0]] + t;
        forall i, j | 0 <= i < j < |r|
          ensures LexLe(r[i], r[j])
        {
          if i == 0 {
            assert r[j] in s[1..];
            var k :| 0 <= k < |s[1..]| && s[1..][k] == r[j];
            assert s[k + 1] == r[j];
          } else {
            assert r[i] == t[i - 1] && r[j] == t[j - 1];
          }
        }
      }
    }
  }

  /**
   * The directory name `_get_data_dir()` picks from a listing: sort, drop the
   * entries containing ".incomplete", take the last one.
   */
  function LatestEntry(entries: seq<string>): Option<string>
  {
    var versions := CompleteEntries(Sort(entries));
    if |versions| > 0 then Some(versions[|versions| - 1]) else None
  }

  /**
   * Sorting and taking the last complete entry finds the greatest complete
   * entry; there is one exactly when some entry is complete.
   */
  lemma LatestEntryIsGreatest(entries: seq<string>)
    ensures LatestEntry(entries).Some? <==> exists e :: e in entries && !Contains(e, INCOMPLETE)
    ensures LatestEntry(entries).Some? ==> IsLatest(LatestEntry(entries).value, entries)
  {
    var sorted := Sort(entries);
    SortSorted(entries);
    CompleteEntriesSorted(sorted);
    var versions := CompleteEntries(sorted);
    assert forall e :: e in sorted <==> e in entries by {
      forall e
        ensures e in sorted <==> e in entries
      {
        assert e in sorted <==> e in multiset(sorted);
        assert e in entries <==> e in multiset(entries);
      }
    }
    if |versions| > 0 {
      var m := versions[|versions| - 1];
      assert m in versions;
      forall e | e in entries && !Contains(e, INCOMPLETE)
        ensures LexLe(e, m)
      {
        var k :| 0 <= k < |versions| && versions[k] == e;
        if k < |versions| - 1 {
        } else {
          LexLeReflexive(m);
        }
      }
    } else {
      forall e | e in entries
        ensures Contains(e, INCOMPLETE)
      {
        assert e !in versions;
      }
    }
  }

  /** At most one entry is the greatest complete one. */
  lemma LatestIsUnique(m: string, m': string, entries: seq<string>)
    requires IsLatest(m, entries) && IsLatest(m', entries)
    ensures m == m'
  {
    LexLeAntisymmetric(m, m');
  }

  /**
   * `_get_data_dir(version)`. `listing` is the content of
   * `<root>/<name>`, or `None` when that directory does not exist.
   */
  function GetDataDir(root: string, name: string, version: Option<string>, listing: Option<seq<string>>): Option<string>
  {
    var dataRootDir := Join(root, name);
    if version.Some? then Some(Join(dataRootDir, version.value))
    else if listing.None? then None
    else
      match LatestEntry(listing.value)
      case Some(m) => Some(Join(dataRootDir, m))
      case None => None
  }

  /** With a version, the path is `<root>/<name>/<version>` whatever the listing says. */
  lemma GetDataDirWithVersion(root: string, name: string, version: string, listing: Option<seq<string>>)
    ensures GetDataDir(root, name, Some(version), listing) == Some(root + "/" + name + "/" + version)
    ensures GetDataDir(root, name, Some(version), listing) == GetDataDir(root, name, Some(version), None)
  {
  }

  /**
   * Without a version: `None` when the root is missing or every entry is
   * incomplete, otherwise `<root>/<name>/<m>` for the greatest complete entry `m`.
   */
  lemma GetDataDirLatest(root: string, name: string, listing: Option<seq<string>>)
    ensures listing.None? ==> GetDataDir(root, name, None, listing) == None
    ensures listing.Some? ==>
      (GetDataDir(root, name, None, listing).Some? <==>
       exists e :: e in listing.value && !Contains(e, INCOMPLETE))
    ensures GetDataDir(root, name, None, listing).Some? ==>
      exists m :: IsLatest(m, listing.value) &&
        GetDataDir(root, name, None, listing) == Some(root + "/" + name + "/" + m)
  {
    if listing.Some? {
      LatestEntryIsGreatest(listing.value);
      match LatestEntry(listing.value)
      case Some(m) =>
        assert IsLatest(m, listing.value);
      case None =>
    }
  }

  /**
   * The temporary directory `incomplete_dir(data_dir)` yields: the final
   * directory with the marker appended (the helper is not part of this model).
   */
  function IncompleteDir(dataDir: string): string
  {
    dataDir + INCOMPLETE
  }

  /** The temporary directory is never picked by `_get_data_dir()`: it carries the marker. */
  lemma IncompleteDirIsSkipped(dataDir: string)
    ensures Contains(IncompleteDir(dataDir), INCOMPLETE)
  {
    ContainsSuffix(dataDir, INCOMPLETE);
  }

  /** Download modes; only `REUSE_DATASET_IF_EXISTS` matters to this model. */
  datatype GenerateMode = ReuseDatasetIfExists | OtherMode(name: string)

  /** What this model needs of a `DownloadManager`: its cache directory and mode. */
  datatype DownloadManager = DownloadManager(cacheDir: string, mode: GenerateMode)

  /** The `ValueError` of `download_and_prepare`. */
  datatype ArgumentError = BothCacheDirAndManager

  /**
   * Argument handling of `download_and_prepare`: the conflict check, the
   * default cache directory, and the construction of a manager with
   * `defaultMode` (the mode `DownloadManager(cache_dir=...)` starts in).
   */
  function ResolveManager(root: string, cacheDir: Option<string>, dlManager: Option<DownloadManager>,
                          defaultMode: GenerateMode): (r: Result<DownloadManager, ArgumentError>)
    ensures r.Failure? <==> Truthy(cacheDir) && dlManager.Some?
    ensures !Truthy(cacheDir) && dlManager.None? ==>
      r == Success(DownloadManager(Join(root, "tmp"), defaultMode))
    ensures Truthy(cacheDir) && dlManager.None? ==>
      r == Success(DownloadManager(cacheDir.value, defaultMode))
    ensures !Truthy(cacheDir) && dlManager.Some? ==> r == Success(dlManager.value)
  {
    if Truthy(cacheDir) && dlManager.Some? then Failure(BothCacheDirAndManager)
    else
      var cache := if !Truthy(cacheDir) && dlManager.None? then Some(Join(root, "tmp")) else cacheDir;
      if Truthy(cache) then Success(DownloadManager(cache.value, defaultMode))
      else Success(dlManager.value)
  }

  /** An empty `cache_dir` is treated exactly like an absent one. */
  lemma EmptyCacheDirIsAbsent(root: string, dlManager: Option<DownloadManager>, defaultMode: GenerateMode)
    ensures ResolveManager(root, Some(""), dlManager, defaultMode) == ResolveManager(root, None, dlManager, defaultMode)
  {
  }

  /** One call of the subclass hook: the data directory it saw and the manager it got. */
  datatype HookCall = HookCall(dataDir: Option<string>, manager: DownloadManager)

  /** How a `download_and_prepare` call ends. */
  datatype PrepareOutcome = ValueError | Reused | Generated | HookRaised

  class DatasetBuilder {
    /** The registered dataset name. */
    const name: string
    const dataDirRoot: string
    /** `_data_dir`: the version directory in use, if any. */
    var dataDir: Option<string>
    /** Every call of the `_download_and_prepare` hook, in order. */
    ghost var hookLog: seq<HookCall>

    /** `__init__`; `listing` is the content of `<root>/<name>` at construction, if it exists. */
    constructor (name: string, dataDirArg: Option<string>, listing: Option<seq<string>>)
      ensures this.name == name
      ensures dataDirRoot == if Truthy(dataDirArg) then dataDirArg.value else DEFAULT_DATA_DIR
      ensures dataDir == GetDataDir(dataDirRoot, name, None, listing)
      ensures hookLog == []
    {
      this.name := name;
      dataDirRoot := if Truthy(dataDirArg) then dataDirArg.value else DEFAULT_DATA_DIR;
      new;
      dataDir := GetDataDir(dataDirRoot, name, None, listing);
      hookLog := [];
    }

    /**
     * The abstract hook `_download_and_prepare(dl_manager)`. What a concrete
     * dataset does in it is not part of this model: the call is logged with
     * the data directory current at that moment, and `raises` says whether it
     * ends in an exception.
     */
    method PrepareHook(manager: DownloadManager, raises: bool) returns (raised: bool)
      modifies this`hookLog
      ensures raised == raises
      ensures hookLog == old(hookLog) + [HookCall(dataDir, manager)]
    {
      hookLog := hookLog + [HookCall(dataDir, manager)];
      raised := raises;
    }

    /**
     * `download_and_prepare(cache_dir, dl_manager)` as written. `versionStr`
     * is the token `strftime("v_%Y%m%d_%H%M")` gives for the current time;
     * `hookRaises` says whether the hook ends in an exception.
     */
    method DownloadAndPrepare(cacheDir: Option<string>, dlManager: Option<DownloadManager>,
                              defaultMode: GenerateMode, versionStr: string, hookRaises: bool)
      returns (outcome: PrepareOutcome)
      modifies this`dataDir, this`hookLog
      ensures var resolved := ResolveManager(dataDirRoot, cacheDir, dlManager, defaultMode);
        var target := Join(Join(dataDirRoot, name), versionStr);
        if resolved.Failure? then
          outcome == ValueError && dataDir == old(dataDir) && hookLog == old(hookLog)
        else if Truthy(old(dataDir)) && resolved.value.mode == ReuseDatasetIfExists then
          outcome == Reused && dataDir == old(dataDir) && hookLog == old(hookLog)
        else
          hookLog == old(hookLog) + [HookCall(Some(IncompleteDir(target)), resolved.value)] &&
          (outcome == Generated || outcome == HookRaised) &&
          (outcome == HookRaised <==> hookRaises) &&
          (outcome == Generated ==> dataDir == Some(target)) &&
          (outcome == HookRaised ==> dataDir == Some(IncompleteDir(target)))
    {
      var resolved := ResolveManager(dataDirRoot, cacheDir, dlManager, defaultMode);
      if resolved.Failure? {
        return ValueError;
      }
      var manager := resolved.value;
      if Truthy(dataDir) && manager.mode == ReuseDatasetIfExists {
        return Reused;
      }
      var target := GetDataDir(dataDirRoot, name, Some(versionStr), None).value;
      dataDir := Some(IncompleteDir(target));
      var raised := PrepareHook(manager, hookRaises);
      if raised {
        return HookRaised;
      }
      dataDir := Some(target);
      return Generated;
    }

    /**
     * `download_and_prepare` with the data directory put back when the hook
     * raises, so that a failed generation is never left as `_data_dir`.
     */
    method DownloadAndPrepareRestoring(cacheDir: Option<string>, dlManager: Option<DownloadManager>,
                                       defaultMode: GenerateMode, versionStr: string, hookRaises: bool)
      returns (outcome: PrepareOutcome)
      modifies this`dataDir, this`hookLog
      ensures var resolved := ResolveManager(dataDirRoot, cacheDir, dlManager, defaultMode);
        var target := Join(Join(dataDirRoot, name), versionStr);
        if resolved.Failure? then
          outcome == ValueError && dataDir == old(dataDir) && hookLog == old(hookLog)
        else if Truthy(old(dataDir)) && resolved.value.mode == ReuseDatasetIfExists then
          outcome == Reused && dataDir == old(dataDir) && hookLog == old(hookLog)
        else
          hookLog == old(hookLog) + [HookCall(Some(IncompleteDir(target)), resolved.value)] &&
          (outcome == Generated || outcome == HookRaised) &&
          (outcome == HookRaised <==> hookRaises) &&
          (outcome == Generated ==> dataDir == Some(target)) &&
          (outcome == HookRaised ==> dataDir == old(dataDir))
    {
      var resolved := ResolveManager(dataDirRoot, cacheDir, dlManager, defaultMode);
      if resolved.Failure? {
        return ValueError;
      }
      var manager := resolved.value;
      if Truthy(dataDir) && manager.mode == ReuseDatasetIfExists {
        return Reused;
      }
      var previous := dataDir;
      var target := GetDataDir(dataDirRoot, name, Some(versionStr), None).value;
      dataDir := Some(IncompleteDir(target));
      var raised := PrepareHook(manager, hookRaises);
      if raised {
        dataDir := previous;
        return HookRaised;
      }
      dataDir := Some(target);
      return Generated;
    }
  }

  /**
   * `DatasetBuilder._split_files(**kwargs)`: the builder's name and current
   * data directory are stamped into the descriptor.
   */
  function BuilderSplitFiles(b: DatasetBuilder, split: Split, numShards: Option<nat>,
                             filetypeSuffix: Option<string>): (sf: SplitFiles)
    reads b
    ensures sf.datasetName == b.name && sf.dataDir == b.dataDir
    ensures sf.split == split && sf.numShards == numShards && sf.filetypeSuffix == filetypeSuffix
  {
    SplitFiles(b.name, split, numShards, b.dataDir, filetypeSuffix)
  }
}
