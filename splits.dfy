/**
 * Splits, their file descriptors and the generators that write them
 * (tensorflow_datasets/core/dataset_builder.py:49-116, 311-335).
 */
module Splits {
  import opened Wrappers

  /** The closed set of dataset splits. */
  datatype Split = Train | Validation | Test

  /** `SplitFiles`: the fields that determine a split's shard paths and glob pattern. */
  datatype SplitFiles = SplitFiles(
    datasetName: string,
    split: Split,
    numShards: Option<nat>,
    dataDir: Option<string>,
    filetypeSuffix: Option<string>)

  /**
   * `naming.filepaths_for_dataset_split` and `naming.filepattern_for_dataset_split`.
   * Their definitions are not part of this model, so they are carried as
   * functions of the descriptor's fields: equal fields give equal paths.
   */
  datatype Naming = Naming(filepaths: SplitFiles -> seq<string>, filepattern: SplitFiles -> string)

  /** The identity of a split generator's example-producing function. */
  datatype GeneratorFn = GeneratorFn(id: nat)

  /** `SplitGenerator`: a generator and the split descriptors its examples are sharded across. */
  datatype SplitGenerator = SplitGenerator(generatorFn: GeneratorFn, splitFiles: seq<SplitFiles>)

  /**
   * `SplitFiles.exists`: the file-format adapter's `do_files_exist` (not part
   * of this model) applied to the descriptor's shard paths.
   */
  predicate Exists(sf: SplitFiles, naming: Naming, doFilesExist: seq<string> -> bool)
  {
    doFilesExist(naming.filepaths(sf))
  }

  /** The shard paths of each descriptor, concatenated in descriptor order. */
  function ConcatPaths(sfs: seq<SplitFiles>, naming: Naming): seq<string>
  {
    if sfs == [] then [] else naming.filepaths(sfs[0]) + ConcatPaths(sfs[1..], naming)
  }

  /** The number of shard paths of all descriptors together. */
  function TotalPaths(sfs: seq<SplitFiles>, naming: Naming): nat
  {
    if sfs == [] then 0 else |naming.filepaths(sfs[0])| + TotalPaths(sfs[1..], naming)
  }

  lemma {:induction false} ConcatPathsLength(sfs: seq<SplitFiles>, naming: Naming)
    ensures |ConcatPaths(sfs, naming)| == TotalPaths(sfs, naming)
  {
    if sfs != [] {
      ConcatPathsLength(sfs[1..], naming);
    }
  }

  lemma {:induction false} ConcatPathsAppend(a: seq<SplitFiles>, b: seq<SplitFiles>, naming: Naming)
    ensures ConcatPaths(a + b, naming) == ConcatPaths(a, naming) + ConcatPaths(b, naming)
  {
    if a == [] {
      assert a + b == b;
    } else {
      assert (a + b)[0] == a[0] && (a + b)[1..] == a[1..] + b;
      ConcatPathsAppend(a[1..], b, naming);
    }
  }

  /**
   * The paths of descriptor `i` sit, unchanged, right after those of the
   * descriptors before it.
   */
  lemma ConcatPathsPlacesEach(sfs: seq<SplitFiles>, naming: Naming, i: nat)
    requires i < |sfs|
    ensures var start := TotalPaths(sfs[..i], naming);
      var own := naming.filepaths(sfs[i]);
      start + |own| <= |ConcatPaths(sfs, naming)| &&
      ConcatPaths(sfs, naming)[start..start + |own|] == own
  {
    assert sfs == sfs[..i] + sfs[i..];
    ConcatPathsAppend(sfs[..i], sfs[i..], naming);
    ConcatPathsLength(sfs[..i], naming);
    assert sfs[i..][0] == sfs[i];
  }

  /**
   * `SplitGenerator.output_files`: starting from an empty list, extends it with
   * each descriptor's `filepaths` in turn.
   */
  method OutputFiles(g: SplitGenerator, naming: Naming) returns (files: seq<string>)
    ensures files == ConcatPaths(g.splitFiles, naming)
    ensures |files| == TotalPaths(g.splitFiles, naming)
  {
    var sfs := g.splitFiles;
    files := [];
    var i := 0;
    while i < |sfs|
      invariant 0 <= i <= |sfs|
      invariant files + ConcatPaths(sfs[i..], naming) == ConcatPaths(sfs, naming)
    {
      assert sfs[i..][0] == sfs[i] && sfs[i..][1..] == sfs[i + 1..];
      files := files + naming.filepaths(sfs[i]);
      i := i + 1;
    }
    assert sfs[i..] == [];
    ConcatPathsLength(sfs, naming);
  }

  /** Every descriptor in `sfs` reports that its files exist. */
  function AllExist(sfs: seq<SplitFiles>, naming: Naming, doFilesExist: seq<string> -> bool): (b: bool)
    ensures b <==> forall i :: 0 <= i < |sfs| ==> Exists(sfs[i], naming, doFilesExist)
  {
    if sfs == [] then true
    else
      Exists(sfs[0], naming, doFilesExist) && AllExist(sfs[1..], naming, doFilesExist)
  }

  /** `SplitGenerator.output_files_exist`: `exists()` holds of every descriptor. */
  function OutputFilesExist(g: SplitGenerator, naming: Naming, doFilesExist: seq<string> -> bool): (b: bool)
    ensures b <==> forall sf :: sf in g.splitFiles ==> Exists(sf, naming, doFilesExist)
  {
    AllExist(g.splitFiles, naming, doFilesExist)
  }

  /** `SplitGenerator.splits`: the split of each descriptor, in descriptor order. */
  function SplitsOf(sfs: seq<SplitFiles>): (r: seq<Split>)
    ensures |r| == |sfs|
    ensures forall i :: 0 <= i < |sfs| ==> r[i] == sfs[i].split
  {
    if sfs == [] then [] else [sfs[0].split] + SplitsOf(sfs[1..])
  }

}
