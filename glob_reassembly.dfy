/**
 * What the glob payloads do when the shell runs them: the files staged by the
 * print lines hold exactly the sections under their index names, the `cat`
 * reads them back in index order, and once the files and directories are
 * removed the shell has printed the command and its directories are as they
 * were.
 *
 * The reassembly rests on three assumptions about the shell, all explicit:
 * unquoting undoes `escapeQuotes` (`unquote(escape(s)) == s`), the collation
 * ranks `?` below the newline, and the staging directories do not exist yet.
 */
module GlobReassembly {
  import opened Chunking
  import opened IndexPattern
  import opened Staging
  import opened Glob

  /** The names that the indices `lo` up to `hi` get at width `w`. */
  function NameRange(lo: nat, hi: nat, w: nat): set<string>
    requires hi <= Pow2(w)
  {
    set i: nat | lo <= i < hi :: IndexName(i, w)
  }

  /** The names that the indices listed in `perm` get at width `w`. */
  function NamesOf(perm: seq<nat>, w: nat): set<string>
    requires forall j :: 0 <= j < |perm| ==> perm[j] < Pow2(w)
  {
    set j | 0 <= j < |perm| :: IndexName(perm[j], w)
  }

  /** The files after printing the sections `perm` lists, in that order, into `files`. */
  function Written(files: Files, chunks: seq<string>, perm: seq<nat>, w: nat): Files
    requires forall j :: 0 <= j < |perm| ==> perm[j] < |chunks| && perm[j] < Pow2(w)
    decreases |perm|
  {
    if perm == [] then files
    else Written(files[IndexName(perm[0], w) := chunks[perm[0]]], chunks, perm[1..], w)
  }

  lemma NamesOfCons(perm: seq<nat>, w: nat)
    requires |perm| > 0
    requires forall j :: 0 <= j < |perm| ==> perm[j] < Pow2(w)
    ensures NamesOf(perm, w) == {IndexName(perm[0], w)} + NamesOf(perm[1..], w)
  {
    var rest := perm[1..];
    forall name | name in NamesOf(perm, w)
      ensures name in {IndexName(perm[0], w)} + NamesOf(rest, w)
    {
      var j :| 0 <= j < |perm| && name == IndexName(perm[j], w);
      if j > 0 {
        assert name == IndexName(rest[j - 1], w);
      }
    }
    forall name | name in NamesOf(rest, w)
      ensures name in NamesOf(perm, w)
    {
      var j :| 0 <= j < |rest| && name == IndexName(rest[j], w);
      assert name == IndexName(perm[j + 1], w);
    }
  }

  /**
   * Printing adds one file per listed section, under the section's name and
   * holding the section, and leaves every other file as it was.
   */
  lemma WrittenFacts(files: Files, chunks: seq<string>, perm: seq<nat>, w: nat)
    requires forall j :: 0 <= j < |perm| ==> perm[j] < |chunks| && perm[j] < Pow2(w)
    ensures Written(files, chunks, perm, w).Keys == files.Keys + NamesOf(perm, w)
    ensures forall j :: 0 <= j < |perm| ==> Written(files, chunks, perm, w)[IndexName(perm[j], w)] == chunks[perm[j]]
    ensures forall name :: name in files && name !in NamesOf(perm, w) ==> Written(files, chunks, perm, w)[name] == files[name]
  {
    WrittenKeys(files, chunks, perm, w);
    WrittenKeeps(files, chunks, perm, w);
    WrittenValues(files, chunks, perm, w);
  }

  lemma {:induction false} WrittenKeys(files: Files, chunks: seq<string>, perm: seq<nat>, w: nat)
    requires forall j :: 0 <= j < |perm| ==> perm[j] < |chunks| && perm[j] < Pow2(w)
    ensures Written(files, chunks, perm, w).Keys == files.Keys + NamesOf(perm, w)
    decreases |perm|
  {
    if perm != [] {
      var files1 := files[IndexName(perm[0], w) := chunks[perm[0]]];
      WrittenKeys(files1, chunks, perm[1..], w);
      NamesOfCons(perm, w);
    }
  }

  lemma {:induction false} WrittenKeeps(files: Files, chunks: seq<string>, perm: seq<nat>, w: nat)
    requires forall j :: 0 <= j < |perm| ==> perm[j] < |chunks| && perm[j] < Pow2(w)
    ensures forall name :: name in files && name !in NamesOf(perm, w) ==>
              name in Written(files, chunks, perm, w) && Written(files, chunks, perm, w)[name] == files[name]
    decreases |perm|
  {
    if perm != [] {
      var files1 := files[IndexName(perm[0], w) := chunks[perm[0]]];
      WrittenKeeps(files1, chunks, perm[1..], w);
      NamesOfCons(perm, w);
    }
  }

  lemma {:induction false} WrittenValues(files: Files, chunks: seq<string>, perm: seq<nat>, w: nat)
    requires forall j :: 0 <= j < |perm| ==> perm[j] < |chunks| && perm[j] < Pow2(w)
    ensures forall j :: 0 <= j < |perm| ==>
              IndexName(perm[j], w) in Written(files, chunks, perm, w)
              && Written(files, chunks, perm, w)[IndexName(perm[j], w)] == chunks[perm[j]]
    decreases |perm|
  {
    if perm != [] {
      var name0 := IndexName(perm[0], w);
      var files1 := files[name0 := chunks[perm[0]]];
      var rest := perm[1..];
      WrittenValues(files1, chunks, rest, w);
      WrittenKeeps(files1, chunks, rest, w);
      var result := Written(files, chunks, perm, w);
      assert result == Written(files1, chunks, rest, w);
      forall j | 0 <= j < |perm|
        ensures IndexName(perm[j], w) in result && result[IndexName(perm[j], w)] == chunks[perm[j]]
      {
        if j > 0 {
          assert perm[j] == rest[j - 1];
        } else if name0 in NamesOf(rest, w) {
          var t :| 0 <= t < |rest| && name0 == IndexName(rest[t], w);
          IndexNameInjective(perm[0], rest[t], w);
        }
      }
    }
  }

  /** The print lines of `perm`, run in a directory that exists, write the sections into it and change nothing else. */
  lemma {:induction false} RunPrints(m: Machine, chunks: seq<string>, perm: seq<nat>, w: nat, dir: string,
                                     escape: string -> string, unquote: string -> string, rank: char -> int)
    requires forall j :: 0 <= j < |perm| ==> perm[j] < |chunks| && perm[j] < Pow2(w)
    requires dir in m.dirs
    requires forall s :: unquote(escape(s)) == s
    ensures Run(m, PrintLines(chunks, perm, w, dir, escape), unquote, rank)
         == m.(dirs := m.dirs[dir := Written(m.dirs[dir], chunks, perm, w)])
    decreases |perm|
  {
    if perm != [] {
      var lines := PrintLines(chunks, perm, w, dir, escape);
      assert lines[1..] == PrintLines(chunks, perm[1..], w, dir, escape);
      var files1 := m.dirs[dir][IndexName(perm[0], w) := chunks[perm[0]]];
      var m1 := Step(m, lines[0], unquote, rank);
      assert m1 == m.(dirs := m.dirs[dir := files1]);
      RunPrints(m1, chunks, perm[1..], w, dir, escape, unquote, rank);
      Overwrite(m.dirs, dir, files1, Written(files1, chunks, perm[1..], w));
    }
  }

  /** Of the names of `lo` up to `hi`, the one that sorts first is that of `lo`. */
  lemma LeastName(lo: nat, hi: nat, w: nat, rank: char -> int)
    requires lo < hi <= Pow2(w)
    requires rank(Zero) < rank(One)
    ensures IndexName(lo, w) in NameRange(lo, hi, w)
    ensures Least(NameRange(lo, hi, w), rank) == IndexName(lo, w)
    ensures NameRange(lo, hi, w) - {IndexName(lo, w)} == NameRange(lo + 1, hi, w)
  {
    var names := NameRange(lo, hi, w);
    assert IndexName(lo, w) in names;
    var m := Least(names, rank);
    var i: nat :| lo <= i < hi && m == IndexName(i, w);
    if i != lo {
      IndexOrder(lo, i, w, rank);
      assert false;
    }
    forall name | name in names - {IndexName(lo, w)}
      ensures name in NameRange(lo + 1, hi, w)
    {
      var t: nat :| lo <= t < hi && name == IndexName(t, w);
      assert t != lo;
    }
    forall name | name in NameRange(lo + 1, hi, w)
      ensures name in names - {IndexName(lo, w)}
    {
      var t: nat :| lo + 1 <= t < hi && name == IndexName(t, w);
      IndexNameInjective(t, lo, w);
    }
  }

  /** The files of the names `lo` up to `hi` are all there when every section's file is. */
  lemma NamesPresent(files: Files, chunks: seq<string>, lo: nat, w: nat)
    requires lo <= |chunks| <= Pow2(w)
    requires forall i :: 0 <= i < |chunks| ==> IndexName(i, w) in files
    ensures forall name :: name in NameRange(lo, |chunks|, w) ==> name in files
  {
    forall name | name in NameRange(lo, |chunks|, w)
      ensures name in files
    {
      var t: nat :| lo <= t < |chunks| && name == IndexName(t, w);
    }
  }

  /**
   * Reading the staged files through the glob gives the sections from `lo`
   * on, concatenated in index order.
   */
  lemma {:induction false} ReadRange(files: Files, chunks: seq<string>, lo: nat, w: nat, rank: char -> int)
    requires lo <= |chunks| <= Pow2(w)
    requires rank(Zero) < rank(One)
    requires forall i :: 0 <= i < |chunks| ==> IndexName(i, w) in files && files[IndexName(i, w)] == chunks[i]
    ensures forall name :: name in NameRange(lo, |chunks|, w) ==> name in files
    ensures ReadAll(files, Listing(NameRange(lo, |chunks|, w), rank)) == Concat(chunks[lo..])
    decreases |chunks| - lo
  {
    NamesPresent(files, chunks, lo, w);
    var names := NameRange(lo, |chunks|, w);
    if lo == |chunks| {
      assert names == {};
    } else {
      LeastName(lo, |chunks|, w, rank);
      ReadRange(files, chunks, lo + 1, w, rank);
      var rest := Listing(NameRange(lo + 1, |chunks|, w), rank);
      assert Listing(names, rank) == [IndexName(lo, w)] + rest;
      assert ([IndexName(lo, w)] + rest)[1..] == rest;
      assert chunks[lo..][1..] == chunks[lo + 1..];
    }
  }

  /** Writing a directory twice keeps the second write. */
  lemma Overwrite(dirs: map<string, Files>, dir: string, first: Files, second: Files)
    ensures dirs[dir := first][dir := second] == dirs[dir := second]
  {
  }

  /** A single line runs as one step. */
  lemma RunOne(m: Machine, line: Line, unquote: string -> string, rank: char -> int)
    ensures Run(m, [line], unquote, rank) == Step(m, line, unquote, rank)
  {
    assert [line][1..] == [];
  }

  /** A permutation of the indices names every index, and only those. */
  lemma NamesOfOrdering(perm: seq<nat>, n: nat, w: nat)
    requires IsOrdering(perm, n) && n <= Pow2(w)
    ensures NamesOf(perm, w) == NameRange(0, n, w)
  {
    forall name | name in NameRange(0, n, w)
      ensures name in NamesOf(perm, w)
    {
      var i: nat :| 0 <= i < n && name == IndexName(i, w);
      assert i in perm;
      var j :| 0 <= j < |perm| && perm[j] == i;
    }
  }

  /** The files the print lines leave behind: one per section, under its name, holding it, and no other. */
  lemma StagedFiles(chunks: seq<string>, perm: seq<nat>, w: nat)
    requires IsOrdering(perm, |chunks|) && |chunks| <= Pow2(w)
    ensures Written(map[], chunks, perm, w).Keys == NameRange(0, |chunks|, w)
    ensures forall i :: 0 <= i < |chunks| ==> Written(map[], chunks, perm, w)[IndexName(i, w)] == chunks[i]
  {
    WrittenFacts(map[], chunks, perm, w);
    NamesOfOrdering(perm, |chunks|, w);
    forall i | 0 <= i < |chunks|
      ensures Written(map[], chunks, perm, w)[IndexName(i, w)] == chunks[i]
    {
      assert i in perm;
      var j :| 0 <= j < |perm| && perm[j] == i;
    }
  }

  /** Every staged name has `w` characters, so the `w` wildcards match exactly the staged files. */
  lemma MatchingStaged(files: Files, chunks: seq<string>, w: nat)
    requires |chunks| <= Pow2(w)
    requires files.Keys == NameRange(0, |chunks|, w)
    ensures Matching(files, w) == files.Keys
  {
    forall name | name in files
      ensures |name| == w
    {
      var t: nat :| 0 <= t < |chunks| && name == IndexName(t, w);
    }
  }

  /** The `cat` over the staged files prints the sections in index order. */
  lemma CatStep(m: Machine, dir: string, chunks: seq<string>, w: nat, unquote: string -> string, rank: char -> int)
    requires |chunks| <= Pow2(w)
    requires rank(Zero) < rank(One)
    requires dir in m.dirs && m.dirs[dir].Keys == NameRange(0, |chunks|, w)
    requires forall i :: 0 <= i < |chunks| ==> m.dirs[dir][IndexName(i, w)] == chunks[i]
    ensures Step(m, Cat(dir, w), unquote, rank) == m.(out := m.out + Concat(chunks))
  {
    var files := m.dirs[dir];
    MatchingStaged(files, chunks, w);
    ReadRange(files, chunks, 0, w, rank);
    assert chunks[0..] == chunks;
  }

  /** The `rm` over the staged files empties the directory. */
  lemma RmStep(m: Machine, dir: string, chunks: seq<string>, w: nat, unquote: string -> string, rank: char -> int)
    requires |chunks| <= Pow2(w)
    requires dir in m.dirs && m.dirs[dir].Keys == NameRange(0, |chunks|, w)
    ensures Step(m, Rm(dir, w), unquote, rank) == m.(dirs := m.dirs[dir := map[]])
  {
    var files := m.dirs[dir];
    MatchingStaged(files, chunks, w);
    assert files - files.Keys == map[];
  }

  /** Two lines run as two steps. */
  lemma RunTwo(m: Machine, first: Line, second: Line, unquote: string -> string, rank: char -> int)
    ensures Run(m, [first, second], unquote, rank) == Step(Step(m, first, unquote, rank), second, unquote, rank)
  {
    assert [first, second][1..] == [second];
    assert Run(m, [first, second], unquote, rank) == Run(Step(m, first, unquote, rank), [second], unquote, rank);
    RunOne(Step(m, first, unquote, rank), second, unquote, rank);
  }

  /** The `cat` and the `rm` over the staged files print the sections in order and empty the directory. */
  lemma CatRm(m: Machine, dir: string, chunks: seq<string>, w: nat, unquote: string -> string, rank: char -> int)
    requires 0 < |chunks| <= Pow2(w)
    requires rank(Zero) < rank(One)
    requires dir in m.dirs && m.dirs[dir].Keys == NameRange(0, |chunks|, w)
    requires forall i :: 0 <= i < |chunks| ==> m.dirs[dir][IndexName(i, w)] == chunks[i]
    ensures Run(m, [Cat(dir, w), Rm(dir, w)], unquote, rank) == Machine(m.dirs[dir := map[]], m.out + Concat(chunks))
  {
    RunTwo(m, Cat(dir, w), Rm(dir, w), unquote, rank);
    CatStep(m, dir, chunks, w, unquote, rank);
    var m1 := m.(out := m.out + Concat(chunks));
    RmStep(m1, dir, chunks, w, unquote, rank);
  }

  /** The mkdir and the print lines, run where the directory does not exist yet, leave it holding the staged files. */
  lemma MkdirPrints(m: Machine, chunks: seq<string>, perm: seq<nat>, w: nat, dir: string,
                    escape: string -> string, unquote: string -> string, rank: char -> int)
    requires forall j :: 0 <= j < |perm| ==> perm[j] < |chunks| && perm[j] < Pow2(w)
    requires forall s :: unquote(escape(s)) == s
    requires dir !in m.dirs
    ensures Run(m, [Mkdir(dir)] + PrintLines(chunks, perm, w, dir, escape), unquote, rank)
         == m.(dirs := m.dirs[dir := Written(map[], chunks, perm, w)])
  {
    var prints := PrintLines(chunks, perm, w, dir, escape);
    RunAppend(m, [Mkdir(dir)], prints, unquote, rank);
    RunOne(m, Mkdir(dir), unquote, rank);
    var m1 := m.(dirs := m.dirs[dir := map[]]);
    RunPrints(m1, chunks, perm, w, dir, escape, unquote, rank);
    Overwrite(m.dirs, dir, map[], Written(map[], chunks, perm, w));
  }

  /**
   * `generate` round trip: run in a directory that does not exist yet, the
   * staging lines print the command and leave the (empty) working directory
   * behind.
   */
  lemma StagingRoundTrip(m: Machine, cmd: string, size: nat, dir: string, escape: string -> string, perm: seq<nat>,
                         unquote: string -> string, rank: char -> int)
    requires size >= 1 && |cmd| > 0
    requires IsOrdering(perm, |Chunks(cmd, size)|)
    requires forall s :: unquote(escape(s)) == s
    requires rank(Zero) < rank(One)
    requires dir !in m.dirs
    ensures Run(m, StagingLines(cmd, size, dir, escape, perm), unquote, rank)
         == Machine(m.dirs[dir := map[]], m.out + cmd)
  {
    var chunks := Chunks(cmd, size);
    var w := IndexWidth(|chunks|);
    var prints := PrintLines(chunks, perm, w, dir, escape);
    var tail := [Cat(dir, w), Rm(dir, w)];
    RunAppend(m, [Mkdir(dir)] + prints, tail, unquote, rank);
    MkdirPrints(m, chunks, perm, w, dir, escape, unquote, rank);
    var files := Written(map[], chunks, perm, w);
    StagedFiles(chunks, perm, w);
    var m2 := m.(dirs := m.dirs[dir := files]);
    CatRm(m2, dir, chunks, w, unquote, rank);
    ChunksConcat(cmd, size);
    Overwrite(m.dirs, dir, files, map[]);
  }

  /** `FileGlob` round trip: the shell prints the command, and its directories are as before. */
  lemma FileGlobRoundTrip(m: Machine, cmd: string, size: nat, dir: string, escape: string -> string, perm: seq<nat>,
                          unquote: string -> string, rank: char -> int)
    requires size >= 1 && |cmd| > 0
    requires IsOrdering(perm, |Chunks(cmd, size)|)
    requires forall s :: unquote(escape(s)) == s
    requires rank(Zero) < rank(One)
    requires dir !in m.dirs
    ensures Run(m, FileGlobLines(cmd, size, dir, escape, perm), unquote, rank) == m.(out := m.out + cmd)
  {
    var staging := StagingLines(cmd, size, dir, escape, perm);
    RunAppend(m, staging, [Rmdir(dir)], unquote, rank);
    StagingRoundTrip(m, cmd, size, dir, escape, perm, unquote, rank);
    RunOne(Machine(m.dirs[dir := map[]], m.out + cmd), Rmdir(dir), unquote, rank);
    assert m.dirs[dir := map[]] - {dir} == m.dirs;
  }

  /** One outer section of `FolderGlob`, staged in a sub-directory that does not exist yet, prints that section. */
  lemma ChunkStageRoundTrip(m: Machine, chunk: string, dir: string, escape: string -> string,
                            unquote: string -> string, rank: char -> int)
    requires |chunk| > 0
    requires forall s :: unquote(escape(s)) == s
    requires rank(Zero) < rank(One)
    requires dir !in m.dirs
    ensures Run(m, ChunkStage(chunk, dir, escape), unquote, rank) == m.(out := m.out + chunk)
  {
    ChunksOfShort(chunk, |chunk|);
    ChunkStageShape(chunk, |chunk|, dir, escape);
    FileGlobRoundTrip(m, chunk, |chunk|, dir, escape, [0], unquote, rank);
  }

  /** Printing the sections one after another prints their concatenation. */
  lemma PrintedAppend(out: string, parts: seq<string>, part: string)
    ensures out + Concat(parts) + part == out + Concat(parts + [part])
  {
    ConcatSnoc(parts, part);
  }

  /** The first `k` outer sections of `FolderGlob` print those sections and restore the directories. */
  lemma {:induction false} FolderStagesRoundTrip(m: Machine, chunks: seq<string>, startingDir: string,
                                                 escape: string -> string, unique: nat -> string, k: nat,
                                                 unquote: string -> string, rank: char -> int)
    requires k <= |chunks|
    requires forall j :: 0 <= j < |chunks| ==> |chunks[j]| > 0
    requires forall s :: unquote(escape(s)) == s
    requires rank(Zero) < rank(One)
    requires forall j: nat :: j < k ==> SubDir(startingDir, escape, unique, j) !in m.dirs
    ensures Run(m, FolderStages(chunks, startingDir, escape, unique, k), unquote, rank)
         == m.(out := m.out + Concat(chunks[..k]))
  {
    if k == 0 {
      assert chunks[..0] == [];
    } else {
      FolderStagesRoundTrip(m, chunks, startingDir, escape, unique, k - 1, unquote, rank);
      FolderStep(m, chunks, startingDir, escape, unique, k, unquote, rank);
    }
  }

  /** One more outer section, after the sections that printed the first `k - 1` pieces, prints piece `k - 1` too. */
  lemma FolderStep(m: Machine, chunks: seq<string>, startingDir: string, escape: string -> string,
                   unique: nat -> string, k: nat, unquote: string -> string, rank: char -> int)
    requires 0 < k <= |chunks|
    requires |chunks[k - 1]| > 0
    requires forall s :: unquote(escape(s)) == s
    requires rank(Zero) < rank(One)
    requires SubDir(startingDir, escape, unique, k - 1) !in m.dirs
    requires Run(m, FolderStages(chunks, startingDir, escape, unique, k - 1), unquote, rank)
          == m.(out := m.out + Concat(chunks[..k - 1]))
    ensures Run(m, FolderStages(chunks, startingDir, escape, unique, k), unquote, rank)
         == m.(out := m.out + Concat(chunks[..k]))
  {
    var before := FolderStages(chunks, startingDir, escape, unique, k - 1);
    var dir := SubDir(startingDir, escape, unique, k - 1);
    var chunk := chunks[k - 1];
    var stage := ChunkStage(chunk, dir, escape);
    assert FolderStages(chunks, startingDir, escape, unique, k) == before + stage;
    RunAppend(m, before, stage, unquote, rank);
    var m1 := m.(out := m.out + Concat(chunks[..k - 1]));
    ChunkStageRoundTrip(m1, chunk, dir, escape, unquote, rank);
    PrintedAppend(m.out, chunks[..k - 1], chunk);
    assert chunks[..k] == chunks[..k - 1] + [chunk];
  }

  /**
   * `FolderGlob` round trip: with its sub-directories and its starting
   * directory not there yet, the shell prints the command, and its
   * directories are as before.
   */
  lemma FolderGlobRoundTrip(m: Machine, cmd: string, size: nat, startingDir: string, escape: string -> string,
                            unique: nat -> string, unquote: string -> string, rank: char -> int)
    requires size >= 1
    requires forall s :: unquote(escape(s)) == s
    requires rank(Zero) < rank(One)
    requires startingDir !in m.dirs
    requires forall j: nat :: j < |Chunks(cmd, size)| ==> SubDir(startingDir, escape, unique, j) !in m.dirs
    ensures Run(m, FolderGlobLines(cmd, size, startingDir, escape, unique), unquote, rank) == m.(out := m.out + cmd)
  {
    var chunks := Chunks(cmd, size);
    var stages := FolderStages(chunks, startingDir, escape, unique, |chunks|);
    RunAppend(m, stages, [Rmdir(startingDir)], unquote, rank);
    FolderStagesRoundTrip(m, chunks, startingDir, escape, unique, |chunks|, unquote, rank);
    assert chunks[..|chunks|] == chunks;
    ChunksConcat(cmd, size);
    RunOne(m.(out := m.out + cmd), Rmdir(startingDir), unquote, rank);
  }
}
