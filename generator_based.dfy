/**
 * `GeneratorBasedDatasetBuilder` (tensorflow_datasets/core/dataset_builder.py:338-468):
 * the skip-or-write loop over split generators and the read-back arguments.
 */
module GeneratorBased {
  import opened Wrappers
  import opened Splits
  import opened Builder

  /** What this model needs of the builder's `_file_format_adapter`: its file-type suffix. */
  datatype FormatAdapter = FormatAdapter(filetypeSuffix: string)

  /** One call `write_from_generator(generator_fn, output_files)`. */
  datatype WriteCall = WriteCall(generatorFn: GeneratorFn, outputFiles: seq<string>)

  /** The write a generator gets when its files are missing. */
  function WriteFor(g: SplitGenerator, naming: Naming): WriteCall
  {
    WriteCall(g.generatorFn, ConcatPaths(g.splitFiles, naming))
  }

  /** The writes the loop issues, generator by generator. */
  function PlannedWrites(gens: seq<SplitGenerator>, naming: Naming, doFilesExist: seq<string> -> bool): seq<WriteCall>
  {
    if gens == [] then []
    else
      (if OutputFilesExist(gens[0], naming, doFilesExist) then [] else [WriteFor(gens[0], naming)])
      + PlannedWrites(gens[1..], naming, doFilesExist)
  }

  /**
   * `_download_and_prepare(dl_manager)`: `gens` is what `_dataset_split_generators`
   * returned; a generator whose files all exist is skipped, every other one is
   * written with its own output files. `doFilesExist` is the module-level
   * `file_format_adapter.do_files_exist` that `SplitFiles.exists` calls.
   */
  method PrepareSplits(gens: seq<SplitGenerator>, naming: Naming, doFilesExist: seq<string> -> bool)
    returns (writes: seq<WriteCall>)
    ensures writes == PlannedWrites(gens, naming, doFilesExist)
  {
    writes := [];
    var i := 0;
    while i < |gens|
      invariant 0 <= i <= |gens|
      invariant writes + PlannedWrites(gens[i..], naming, doFilesExist)
        == PlannedWrites(gens, naming, doFilesExist)
    {
      PlannedWritesStep(gens, i, naming, doFilesExist);
      var g := gens[i];
      i := i + 1;
      if OutputFilesExist(g, naming, doFilesExist) {
        continue;
      }
      var files := OutputFiles(g, naming);
      assert WriteCall(g.generatorFn, files) == WriteFor(g, naming);
      writes := writes + [WriteCall(g.generatorFn, files)];
    }
    assert gens[i..] == [];
  }

  /** The writes from position `i` on: those of generator `i`, then the rest. */
  lemma PlannedWritesStep(gens: seq<SplitGenerator>, i: nat, naming: Naming, doFilesExist: seq<string> -> bool)
    requires i < |gens|
    ensures PlannedWrites(gens[i..], naming, doFilesExist)
      == (if OutputFilesExist(gens[i], naming, doFilesExist) then [] else [WriteFor(gens[i], naming)])
        + PlannedWrites(gens[i + 1..], naming, doFilesExist)
  {
    assert gens[i..][0] == gens[i] && gens[i..][1..] == gens[i + 1..];
  }

  /** The writes for two lists of generators are those of each, in list order. */
  lemma {:induction false} PlannedWritesAppend(a: seq<SplitGenerator>, b: seq<SplitGenerator>,
                                               naming: Naming, doFilesExist: seq<string> -> bool)
    ensures PlannedWrites(a + b, naming, doFilesExist)
      == PlannedWrites(a, naming, doFilesExist) + PlannedWrites(b, naming, doFilesExist)
  {
    if a == [] {
      assert a + b == b;
    } else {
      assert (a + b)[0] == a[0] && (a + b)[1..] == a[1..] + b;
      PlannedWritesAppend(a[1..], b, naming, doFilesExist);
    }
  }

  /** A single generator is written exactly when its files do not all exist. */
  lemma PlannedWritesSingle(g: SplitGenerator, naming: Naming, doFilesExist: seq<string> -> bool)
    ensures PlannedWrites([g], naming, doFilesExist)
      == if OutputFilesExist(g, naming, doFilesExist) then [] else [WriteFor(g, naming)]
  {
  }

  /** The generators whose files do not all exist, in list order. */
  function MissingGenerators(gens: seq<SplitGenerator>, naming: Naming,
                             doFilesExist: seq<string> -> bool): (m: seq<SplitGenerator>)
    ensures |m| <= |gens|
    ensures forall g :: g in m ==> g in gens && !OutputFilesExist(g, naming, doFilesExist)
    ensures forall i :: 0 <= i < |gens| && !OutputFilesExist(gens[i], naming, doFilesExist) ==> gens[i] in m
  {
    if gens == [] then []
    else
      (if OutputFilesExist(gens[0], naming, doFilesExist) then [] else [gens[0]])
      + MissingGenerators(gens[1..], naming, doFilesExist)
  }

  /** The loop writes exactly the missing generators: write `k` is that of the `k`-th missing one. */
  lemma {:induction false} WritesAreMissingInOrder(gens: seq<SplitGenerator>, naming: Naming,
                                                   doFilesExist: seq<string> -> bool)
    ensures var w := PlannedWrites(gens, naming, doFilesExist);
      var m := MissingGenerators(gens, naming, doFilesExist);
      |w| == |m| && forall k :: 0 <= k < |w| ==> w[k] == WriteFor(m[k], naming)
  {
    if gens != [] {
      WritesAreMissingInOrder(gens[1..], naming, doFilesExist);
    }
  }

  /** When every generator's files exist, nothing is written (an idempotent rerun). */
  lemma {:induction false} AllExistWritesNothing(gens: seq<SplitGenerator>, naming: Naming,
                                                 doFilesExist: seq<string> -> bool)
    requires forall i :: 0 <= i < |gens| ==> OutputFilesExist(gens[i], naming, doFilesExist)
    ensures PlannedWrites(gens, naming, doFilesExist) == []
  {
    if gens != [] {
      AllExistWritesNothing(gens[1..], naming, doFilesExist);
    }
  }

  /** When no generator's files exist, each one is written once, in list order. */
  lemma {:induction false} NoneExistWritesEach(gens: seq<SplitGenerator>, naming: Naming,
                                               doFilesExist: seq<string> -> bool)
    requires forall i :: 0 <= i < |gens| ==> !OutputFilesExist(gens[i], naming, doFilesExist)
    ensures var w := PlannedWrites(gens, naming, doFilesExist);
      |w| == |gens| && forall i :: 0 <= i < |gens| ==> w[i] == WriteFor(gens[i], naming)
  {
    if gens != [] {
      NoneExistWritesEach(gens[1..], naming, doFilesExist);
    }
  }

  /** `w` is the write of some generator of `gens` whose files do not all exist. */
  ghost predicate WrittenFromMissing(w: WriteCall, gens: seq<SplitGenerator>, naming: Naming,
                                     doFilesExist: seq<string> -> bool)
  {
    exists i :: 0 <= i < |gens| && !OutputFilesExist(gens[i], naming, doFilesExist) && w == WriteFor(gens[i], naming)
  }

  /** Every write belongs to a generator of the list whose files did not all exist. */
  lemma {:induction false} WritesComeFromMissing(gens: seq<SplitGenerator>, naming: Naming,
                                                 doFilesExist: seq<string> -> bool)
    ensures var w := PlannedWrites(gens, naming, doFilesExist);
      |w| <= |gens| &&
      forall k :: 0 <= k < |w| ==> WrittenFromMissing(w[k], gens, naming, doFilesExist)
  {
    if gens != [] {
      WritesComeFromMissing(gens[1..], naming, doFilesExist);
      var w := PlannedWrites(gens, naming, doFilesExist);
      var rest := PlannedWrites(gens[1..], naming, doFilesExist);
      var head := if OutputFilesExist(gens[0], naming, doFilesExist) then [] else [WriteFor(gens[0], naming)];
      assert w == head + rest;
      forall k | 0 <= k < |w|
        ensures WrittenFromMissing(w[k], gens, naming, doFilesExist)
      {
        if k < |head| {
          assert w[k] == WriteFor(gens[0], naming);
        } else {
          assert w[k] == rest[k - |head|];
          var i :| 0 <= i < |gens[1..]| && !OutputFilesExist(gens[1..][i], naming, doFilesExist)
            && rest[k - |head|] == WriteFor(gens[1..][i], naming);
          assert gens[1..][i] == gens[i + 1];
          assert 0 <= i + 1 < |gens|;
        }
      }
    }
  }

  /**
   * A second run finds nothing to write, provided the files that existed
   * still exist and every descriptor of a generator that was written now
   * reports its files as existing.
   */
  lemma {:induction false} RerunWritesNothing(gens: seq<SplitGenerator>, naming: Naming,
                                              before: seq<string> -> bool, after: seq<string> -> bool)
    requires forall i :: 0 <= i < |gens| && OutputFilesExist(gens[i], naming, before) ==>
      OutputFilesExist(gens[i], naming, after)
    requires forall i, sf ::
      (0 <= i < |gens| && !OutputFilesExist(gens[i], naming, before) && sf in gens[i].splitFiles)
      ==> Exists(sf, naming, after)
    ensures PlannedWrites(gens, naming, after) == []
  {
    forall i | 0 <= i < |gens|
      ensures OutputFilesExist(gens[i], naming, after)
    {
    }
    AllExistWritesNothing(gens, naming, after);
  }

  /**
   * `GeneratorBasedDatasetBuilder._split_files(**kwargs)`: stamps in the
   * builder's name, its current data directory and the adapter's suffix.
   */
  function GeneratorSplitFiles(b: DatasetBuilder, adapter: FormatAdapter, split: Split,
                               numShards: Option<nat>): (sf: SplitFiles)
    reads b
    ensures sf.datasetName == b.name && sf.dataDir == b.dataDir
    ensures sf.filetypeSuffix == Some(adapter.filetypeSuffix)
    ensures sf.split == split && sf.numShards == numShards
  {
    SplitFiles(b.name, split, numShards, b.dataDir, Some(adapter.filetypeSuffix))
  }

  /** The `shuffle_files` rule: an explicit value wins, otherwise shuffle exactly the TRAIN split. */
  function ShuffleFiles(split: Split, shuffleFiles: Option<bool>): (r: bool)
    ensures shuffleFiles.None? ==> (r <==> split == Train)
    ensures shuffleFiles.Some? ==> r == shuffleFiles.value
  {
    if shuffleFiles.None? then split == Train else shuffleFiles.value
  }

  /** The arguments `_as_dataset` hands to `dataset_utils.build_dataset` that this model tracks. */
  datatype BuildDatasetArgs = BuildDatasetArgs(filepattern: string, shuffleFiles: bool)

  /**
   * `_as_dataset(split, shuffle_files)`: reads the split's glob pattern, built
   * with no shard count, from the builder's current data directory.
   */
  function AsDataset(b: DatasetBuilder, adapter: FormatAdapter, naming: Naming, split: Split,
                     shuffleFiles: Option<bool>): (r: BuildDatasetArgs)
    reads b
    ensures r.filepattern == naming.filepattern(
      SplitFiles(b.name, split, None, b.dataDir, Some(adapter.filetypeSuffix)))
    ensures r.shuffleFiles == (shuffleFiles == Some(true) || (shuffleFiles.None? && split == Train))
  {
    BuildDatasetArgs(naming.filepattern(GeneratorSplitFiles(b, adapter, split, None)),
                     ShuffleFiles(split, shuffleFiles))
  }
}
