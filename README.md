# TensorFlow Datasets builder core, modelled in Dafny

This project models two small pieces of TensorFlow Datasets and proves properties about them.

The first is the dataset-builder lifecycle in `tensorflow_datasets/core/dataset_builder.py`. It covers:

- picking the current version directory under `<root>/<name>`;
- the `download_and_prepare` state machine around the subclass hook;
- the split descriptors and split generators;
- the skip-or-write loop of the generator-based builder;
- the arguments of read-back, including the default for shuffling files.

The second is the graph/eager helpers in `tensorflow_datasets/core/utils/tf_utils.py`: the `TFGraphRunner` memo cache and `assert_shape_match`.

Modules (one file each):

- `Wrappers`: `Option` and `Result`.
- `PyStrings`: Python's string order (`sorted`), `sub in s` and `sorted` on a list of strings. All are written out, because Dafny's `<` on sequences means "proper prefix".
- `Versions`: the `v_%Y%m%d_%H%M` version token. It proves that for these fixed-width tokens, string order is time order.
- `Splits`: `Split`, `SplitFiles`, `SplitGenerator` and their properties.
- `Builder`: `_get_data_dir`, argument handling, and the `DatasetBuilder` class. The class has fields `name`, `dataDirRoot`, `dataDir` and a ghost log of hook calls.
- `BuilderScenarios`: version-resolution lemmas over tokens, plus concrete runs of `download_and_prepare`.
- `GeneratorBased`: `_download_and_prepare` of the generator-based builder, `_split_files` and `_as_dataset`.
- `TfUtils`: the `GraphRunner` class, its `GraphRun` entries with a `closed` flag, and `assert_shape_match`.

Inputs the source reads from the outside world are parameters of the model:

- A directory listing is `Option<seq<string>>`. `None` means the directory does not exist.
- The version token is a string argument. The model does not read the clock.
- `tf.executing_eagerly()` is a `bool` argument.
- Whether the subclass hook raises is a `bool` argument.
- The mode a fresh `DownloadManager` starts in is an argument.

Code the model does not define appears as function-valued fields or parameters: `naming.filepaths_for_dataset_split`, `naming.filepattern_for_dataset_split`, and the module-level `file_format_adapter.do_files_exist` that `SplitFiles.exists` calls (dataset_builder.py:115-116). The `incomplete_dir` helper is assumed to yield `<final>.incomplete`; its code is not part of this model.

The code wraps generation in `incomplete_dir` (dataset_builder.py:192-193), and `_get_data_dir` drops every listed entry that contains `.incomplete` (dataset_builder.py:263-266). Together these show that an unfinished directory is not meant to serve as a data directory. The code nonetheless sets `_data_dir` to the temporary directory before the hook (dataset_builder.py:196) and resets it only after a normal return (dataset_builder.py:198). If the hook raises, `_data_dir` keeps pointing at the temporary directory. The model follows the code; see Findings.

## Model

| member | source | states |
|---|---|---|
| PyStrings.LexLeTotal | tensorflow_datasets/core/dataset_builder.py:264 | Python's string order, used by `sorted`, is total |
| PyStrings.LexLeTransitive | tensorflow_datasets/core/dataset_builder.py:264 | Python's string order is transitive |
| PyStrings.LexLeAntisymmetric | tensorflow_datasets/core/dataset_builder.py:264 | two strings ordered both ways are equal |
| PyStrings.LexLeAppend | tensorflow_datasets/core/dataset_builder.py:264 | when two prefixes have the same length, they decide the comparison unless they are equal; then the rest decides |
| PyStrings.ContainsAt | tensorflow_datasets/core/dataset_builder.py:265 | `sub in s` holds exactly when `sub` occurs in `s` at some offset (both directions) |
| PyStrings.ContainsSuffix | tensorflow_datasets/core/dataset_builder.py:265 | a name ending in the marker contains it |
| PyStrings.MissingFirstChar | tensorflow_datasets/core/dataset_builder.py:265 | a name without the marker's first character does not contain the marker |
| PyStrings.Sort | tensorflow_datasets/core/dataset_builder.py:264 | `sorted` returns a permutation (same multiset) of the listing |
| PyStrings.SortSorted | tensorflow_datasets/core/dataset_builder.py:264 | `sorted` returns a list ordered at every pair of positions |
| PyStrings.InsertSorted | tensorflow_datasets/core/dataset_builder.py:264 | inserting into a sorted list keeps it sorted |
| Versions.Pad | tensorflow_datasets/core/dataset_builder.py:188 | a `strftime` numeric field has exactly its width and only digits |
| Versions.PadOrder | tensorflow_datasets/core/dataset_builder.py:188 | zero-padded numbers of one width compare as strings as they do as numbers, and are equal only when the numbers are |
| Versions.Token | tensorflow_datasets/core/dataset_builder.py:188 | a `v_%Y%m%d_%H%M` token is 15 characters long |
| Versions.TokenOrderIsChronological | tensorflow_datasets/core/dataset_builder.py:186-188 | one token sorts at or before another exactly when its timestamp is at or before the other's |
| Versions.TokenInjective | tensorflow_datasets/core/dataset_builder.py:186-188 | two calls get the same token exactly when they fall in the same minute |
| Versions.TokenIsComplete | tensorflow_datasets/core/dataset_builder.py:188 | a version token never contains ".incomplete" |
| Splits.ConcatPathsLength | tensorflow_datasets/core/dataset_builder.py:325-331 | the number of output files is the sum of the descriptors' path counts |
| Splits.ConcatPathsAppend | tensorflow_datasets/core/dataset_builder.py:325-331 | the output files of two descriptor lists are those of each list, in order |
| Splits.ConcatPathsPlacesEach | tensorflow_datasets/core/dataset_builder.py:325-331 | each descriptor's `filepaths` appear unchanged and contiguous, right after those of the descriptors before it |
| Splits.OutputFiles | tensorflow_datasets/core/dataset_builder.py:325-331 | the `extend` loop yields the in-order concatenation of every `filepaths`, with length equal to their total |
| Splits.AllExist | tensorflow_datasets/core/dataset_builder.py:115-116 | holds exactly when `exists()` (`do_files_exist(filepaths)`) holds of every descriptor |
| Splits.OutputFilesExist | tensorflow_datasets/core/dataset_builder.py:321-323 | `output_files_exist` is the conjunction of `exists()` over all descriptors |
| Splits.SplitsOf | tensorflow_datasets/core/dataset_builder.py:333-335 | `splits` has one entry per descriptor, with that descriptor's split, in order |
| Builder.CompleteEntries | tensorflow_datasets/core/dataset_builder.py:263-266 | keeps exactly the listed entries that do not contain ".incomplete" |
| Builder.CompleteEntriesSorted | tensorflow_datasets/core/dataset_builder.py:263-266 | filtering a sorted listing leaves it sorted |
| Builder.LatestEntryIsGreatest | tensorflow_datasets/core/dataset_builder.py:262-268 | the last of the filtered sorted listing is the greatest complete entry; it exists exactly when some entry is complete |
| Builder.LatestIsUnique | tensorflow_datasets/core/dataset_builder.py:267-268 | at most one entry is the greatest complete one, so the choice does not depend on the sort algorithm |
| Builder.GetDataDirWithVersion | tensorflow_datasets/core/dataset_builder.py:257-259 | given a version, the result is `<root>/<name>/<version>`, and the listing is never consulted |
| Builder.GetDataDirLatest | tensorflow_datasets/core/dataset_builder.py:261-271 | without a version: `None` if the root is missing or every entry is incomplete; otherwise `<root>/<name>/<m>` with `m` the greatest complete entry |
| Builder.IncompleteDirIsSkipped | tensorflow_datasets/core/dataset_builder.py:193 | the temporary directory carries the marker, so `_get_data_dir()` never picks it |
| Builder.ResolveManager | tensorflow_datasets/core/dataset_builder.py:168-177 | a non-empty `cache_dir` together with a manager fails; with neither, the cache is `<root>/tmp`; a lone `cache_dir` builds a manager on it; a lone manager is used as given |
| Builder.EmptyCacheDirIsAbsent | tensorflow_datasets/core/dataset_builder.py:169-176 | `cache_dir=""` behaves exactly like `cache_dir=None` |
| Builder.DatasetBuilder.constructor | tensorflow_datasets/core/dataset_builder.py:140-151 | the root is the argument, or the default when the argument is missing or empty; `_data_dir` is `_get_data_dir()` of the listing |
| Builder.DatasetBuilder.PrepareHook | tensorflow_datasets/core/dataset_builder.py:278-290 | the abstract hook logs one call with the data directory current at that moment |
| Builder.DatasetBuilder.DownloadAndPrepare | tensorflow_datasets/core/dataset_builder.py:153-198 | a conflict raises with no state change and no hook call; reuse mode with a data directory set returns with nothing changed; otherwise the hook runs exactly once, while `_data_dir` is `<target>.incomplete`; after a normal return `_data_dir` is `_get_data_dir(version)`, and after a raise it stays the temporary directory |
| Builder.DatasetBuilder.DownloadAndPrepareRestoring | tensorflow_datasets/core/dataset_builder.py:192-198 | the same as `DownloadAndPrepare`, except that a raising hook leaves `_data_dir` at its previous value |
| Builder.BuilderSplitFiles | tensorflow_datasets/core/dataset_builder.py:273-276 | the base `_split_files` stamps in the builder's name and current `_data_dir` and leaves the other fields as given |
| BuilderScenarios.LatestSkipsIncompleteSibling | tensorflow_datasets/core/dataset_builder.py:261-268 | with an older entry, a newer one and the newer one's `.incomplete` sibling, the result is the newer entry's path |
| BuilderScenarios.NewestVersionWins | tensorflow_datasets/core/dataset_builder.py:186-189 | with two version tokens and the newer one's incomplete sibling, the newer version's directory is chosen |
| BuilderScenarios.LatestEntryIsNewestTimestamp | tensorflow_datasets/core/dataset_builder.py:262-268 | the chosen token is chronologically at or after every valid token in the listing |
| BuilderScenarios.PrepareTwice | tensorflow_datasets/core/dataset_builder.py:179-198 | in reuse mode, a first call generates and a second call on the same builder reuses the result without running the hook |
| BuilderScenarios.RetryAfterHookFailure | tensorflow_datasets/core/dataset_builder.py:179-198 | as written: after a raising hook, a reuse-mode retry reuses `<version>.incomplete` |
| BuilderScenarios.RetryAfterHookFailureRestoring | tensorflow_datasets/core/dataset_builder.py:179-198 | with restoring, the same retry generates a new version |
| GeneratorBased.PrepareSplits | tensorflow_datasets/core/dataset_builder.py:445-454 | the loop issues exactly the writes of `PlannedWrites`: one per generator whose files do not all exist, with its own generator function and `output_files` |
| GeneratorBased.PlannedWritesAppend | tensorflow_datasets/core/dataset_builder.py:448-454 | the writes follow list order: the writes for `a + b` are those for `a`, then those for `b` |
| GeneratorBased.PlannedWritesSingle | tensorflow_datasets/core/dataset_builder.py:449-454 | a single generator is written exactly when `output_files_exist()` is false |
| GeneratorBased.AllExistWritesNothing | tensorflow_datasets/core/dataset_builder.py:449-452 | when every generator's files exist, nothing is written |
| GeneratorBased.NoneExistWritesEach | tensorflow_datasets/core/dataset_builder.py:448-454 | when no generator's files exist, generator `i` gets write `i`, so there is exactly one write per generator |
| GeneratorBased.MissingGenerators | tensorflow_datasets/core/dataset_builder.py:448-451 | the generators that the loop does not skip: each is one of the list whose files do not all exist, and every such generator is among them |
| GeneratorBased.WritesAreMissingInOrder | tensorflow_datasets/core/dataset_builder.py:448-454 | there are as many writes as missing generators, and write `k` is the write of the `k`-th missing generator |
| GeneratorBased.WritesComeFromMissing | tensorflow_datasets/core/dataset_builder.py:448-454 | there are at most as many writes as generators, and each belongs to a generator whose files did not all exist |
| GeneratorBased.RerunWritesNothing | tensorflow_datasets/core/dataset_builder.py:448-454 | if the written files now report as existing, a rerun writes nothing |
| GeneratorBased.GeneratorSplitFiles | tensorflow_datasets/core/dataset_builder.py:464-468 | `_split_files` stamps in the builder's name, its current `_data_dir` and the adapter's suffix |
| GeneratorBased.ShuffleFiles | tensorflow_datasets/core/dataset_builder.py:461-462 | an explicit `shuffle_files` is used unchanged; `None` means shuffle exactly when the split is TRAIN |
| GeneratorBased.AsDataset | tensorflow_datasets/core/dataset_builder.py:456-462 | reads the split's glob pattern built with `num_shards=None` from the current data directory, with the shuffle rule above |
| TfUtils.BuildSignature | tensorflow_datasets/core/utils/tf_utils.py:111-113 | the key holds the function's identity, the input's dtype and the input's shape |
| TfUtils.SignatureIdentifiesCall | tensorflow_datasets/core/utils/tf_utils.py:111-113 | two calls share a key exactly when function, dtype and shape all agree |
| TfUtils.GraphRun.constructor | tensorflow_datasets/core/utils/tf_utils.py:93-109 | a new entry's placeholder has the input's dtype and shape, and its session is open |
| TfUtils.GraphRunner.constructor | tensorflow_datasets/core/utils/tf_utils.py:63-67 | the cache starts empty |
| TfUtils.GraphRunner.Run | tensorflow_datasets/core/utils/tf_utils.py:69-91 | eager mode leaves the cache alone; graph mode inserts a fresh entry built for the signature only on a miss, and reuses the stored entry on a hit; existing entries are never replaced or removed; the cache grows by at most one |
| TfUtils.GraphRunner.Close | tensorflow_datasets/core/utils/tf_utils.py:115-118 | every cached entry's session ends up closed; the cache is unchanged |
| TfUtils.CacheGrowth | tensorflow_datasets/core/utils/tf_utils.py:81-85 | in graph mode the same function and shape twice keeps one entry and returns the same one; a new shape makes two |
| TfUtils.DimsMatch | tensorflow_datasets/core/utils/tf_utils.py:143-146 | holds exactly when every position that `shape2` fixes equals `shape1` there |
| TfUtils.AssertShapeMatch | tensorflow_datasets/core/utils/tf_utils.py:130-147 | fails with the two lengths when the lengths differ; with equal lengths, succeeds exactly when the dimensions match with `None` as a wildcard, and otherwise fails naming both shapes |
| TfUtils.ShapeMatchExamples | tensorflow_datasets/core/utils/tf_utils.py:133-134 | `(64,64,3)` matches `(None,None,3)`, and `(64,64,4)` fails as a dimension mismatch |

## Left out

- `numpy_iterator` (dataset_builder.py:220-242): TensorFlow execution-mode plumbing and prefetching.
- Filesystem calls (`tf.gfile.Exists`, `ListDirectory`, `MakeDirs`): these become a listing argument. `MakeDirs` at 446-447 has no counterpart.
- `file_format_adapter` is not part of this model:
  - `write_from_generator` is recorded as a `WriteCall`;
  - `do_files_exist` is a function argument;
  - `dataset_from_filename` is not tracked;
  - `incomplete_dir` is taken to yield `<final>.incomplete`. Promoting or deleting that directory is not modelled.
- Modules not part of this model:
  - `naming` is carried as function fields;
  - `dataset_utils.build_dataset` is represented only by the pattern and shuffle flag it receives;
  - `download.DownloadManager` is represented only by its cache directory and mode.
- Proportional sharding of examples across several `SplitFiles`: the adapter does this.
- `_preprocess` and the record stream that `as_dataset` returns. The public `as_dataset` (202-218) only delegates, so `AsDataset` stands for both. Neither default for `split` is modelled: `AsDataset` always takes `split` explicitly. `_as_dataset` defaults it to TRAIN (456), while the public `as_dataset` has no default (203).
- The registry metaclass, `disallow_positional_args` and logging.
- Full `os.path.join` and `expanduser` semantics: `join` is `a + "/" + b` and "~" stays literal.
- `datetime.now()`: the version token is an argument.
- Versions.ValidTimestamp: years before 1000 are excluded, because the C library's `%Y` does not zero-pad them to four digits.
- Graph, placeholder and session construction in `_build_graph_run`, and the values that `run` computes. `run` returns an `Execution` that records which path computed the result.
- `np.array(input_)` conversion (tf_utils.py:77-78): inputs are taken to be arrays already.
- `is_dytpe` (tf_utils.py:121-127): a wrapper around `tf.as_dtype`.
- GeneratorBased.PrepareSplits: `do_files_exist` is a fixed function during the whole loop. If one write creates files that a later generator checks, the model does not see it.
- Builder.DatasetBuilder.PrepareHook: what a concrete subclass does inside the hook is not modelled. The generator-based hook is modelled separately by `GeneratorBased.PrepareSplits`.
- TfUtils.GraphRunner.Close: which order the sessions are closed in is not modelled.

## Findings

| source | as written | input that shows it | evidently intended | confidence | as-written member | corrected member |
|---|---|---|---|---|---|---|
| tensorflow_datasets/core/dataset_builder.py:193-198 | `_data_dir` is set to the temporary directory before the hook and reset only after a normal return | the hook raises; the caller catches the error and calls `download_and_prepare` again on the same builder in `REUSE_DATASET_IF_EXISTS` mode; the retry returns at once and reuses `<version>.incomplete` | a failed generation never becomes `_data_dir`: the previous value is restored | medium; not executed | BuilderScenarios.RetryAfterHookFailure | Builder.DatasetBuilder.DownloadAndPrepareRestoring |
