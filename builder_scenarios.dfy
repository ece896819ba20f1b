/** Concrete runs of the `DatasetBuilder` model, stated as contracts. */
module BuilderScenarios {
  import opened Wrappers
  import opened PyStrings
  import opened Versions
  import opened Builder

  /**
   * An older version, a newer one and the newer one's incomplete sibling:
   * `_get_data_dir()` returns the newer one.
   */
  lemma LatestSkipsIncompleteSibling(root: string, name: string, older: string, newer: string)
    requires !Contains(older, INCOMPLETE) && !Contains(newer, INCOMPLETE)
    requires LexLe(older, newer)
    ensures GetDataDir(root, name, None, Some([older, newer, IncompleteDir(newer)]))
      == Some(Join(Join(root, name), newer))
  {
    var listing := [older, newer, IncompleteDir(newer)];
    IncompleteDirIsSkipped(newer);
    LexLeReflexive(newer);
    assert IsLatest(newer, listing);
    GetDataDirLatest(root, name, Some(listing));
    var m :| IsLatest(m, listing) &&
      GetDataDir(root, name, None, Some(listing)) == Some(root + "/" + name + "/" + m);
    LatestIsUnique(m, newer, listing);
  }

  /**
   * Of two versions and the newer one's incomplete sibling, `_get_data_dir()`
   * returns the newer version.
   */
  lemma NewestVersionWins(root: string, name: string, t: Timestamp, u: Timestamp)
    requires ValidTimestamp(t) && ValidTimestamp(u) && AtOrBefore(t, u)
    ensures GetDataDir(root, name, None, Some([Token(t), Token(u), IncompleteDir(Token(u))]))
      == Some(Join(Join(root, name), Token(u)))
  {
    TokenIsComplete(t);
    TokenIsComplete(u);
    TokenOrderIsChronological(t, u);
    LatestSkipsIncompleteSibling(root, name, Token(t), Token(u));
  }

  /**
   * When every complete entry is a version token, the entry `_get_data_dir()`
   * picks is the token of the latest timestamp listed.
   */
  lemma LatestEntryIsNewestTimestamp(entries: seq<string>, t: Timestamp)
    requires ValidTimestamp(t) && LatestEntry(entries) == Some(Token(t))
    ensures forall u :: ValidTimestamp(u) && Token(u) in entries ==> AtOrBefore(u, t)
  {
    LatestEntryIsGreatest(entries);
    forall u | ValidTimestamp(u) && Token(u) in entries
      ensures AtOrBefore(u, t)
    {
      TokenIsComplete(u);
      TokenOrderIsChronological(u, t);
    }
  }

  /** Preparing twice in reuse mode generates once; the second call is a no-op. */
  method PrepareTwice() returns (first: PrepareOutcome, second: PrepareOutcome, dir: Option<string>)
    ensures first == Generated && second == Reused
    ensures dir == Some("/data/mnist/v_20180601_1200")
  {
    var b := new DatasetBuilder("mnist", Some("/data"), None);
    first := b.DownloadAndPrepare(None, None, ReuseDatasetIfExists, "v_20180601_1200", false);
    second := b.DownloadAndPrepare(None, None, ReuseDatasetIfExists, "v_20180601_1300", false);
    dir := b.dataDir;
    assert Join(Join("/data", "mnist"), "v_20180601_1200") == "/data/mnist/v_20180601_1200";
  }

  /**
   * As written: after the hook raises, `_data_dir` still names the incomplete
   * directory, and a retry in reuse mode short-circuits on it.
   */
  method RetryAfterHookFailure() returns (first: PrepareOutcome, second: PrepareOutcome, dir: Option<string>)
    ensures first == HookRaised && second == Reused
    ensures dir == Some("/data/mnist/v_20180601_1200.incomplete")
  {
    var tmp := IncompleteDir(Join(Join("/data", "mnist"), "v_20180601_1200"));
    assert tmp == "/data/mnist/v_20180601_1200.incomplete";
    var b := new DatasetBuilder("mnist", Some("/data"), None);
    first := b.DownloadAndPrepare(None, None, ReuseDatasetIfExists, "v_20180601_1200", true);
    assert b.dataDir == Some(tmp);
    second := b.DownloadAndPrepare(None, None, ReuseDatasetIfExists, "v_20180601_1300", false);
    dir := b.dataDir;
  }

  /** With the data directory restored on failure, the retry generates a new version. */
  method RetryAfterHookFailureRestoring() returns (first: PrepareOutcome, second: PrepareOutcome, dir: Option<string>)
    ensures first == HookRaised && second == Generated
    ensures dir == Some("/data/mnist/v_20180601_1300")
  {
    var b := new DatasetBuilder("mnist", Some("/data"), None);
    first := b.DownloadAndPrepareRestoring(None, None, ReuseDatasetIfExists, "v_20180601_1200", true);
    second := b.DownloadAndPrepareRestoring(None, None, ReuseDatasetIfExists, "v_20180601_1300", false);
    dir := b.dataDir;
    assert Join(Join("/data", "mnist"), "v_20180601_1300") == "/data/mnist/v_20180601_1300";
  }
}
