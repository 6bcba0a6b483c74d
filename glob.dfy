/**
 * The glob obfuscators, `FileGlob` and `FolderGlob`, and their shared base
 * `GlobObfuscator`. The command is cut into sections; each section is printed
 * into a file of a staging directory whose name spells the section's index
 * (see IndexPattern); one `cat` over the wildcard pattern of that width reads
 * them back in the shell's collation order; the files and the directory are
 * removed again.
 *
 * Collaborators are parameters: `escape` is the quote-escaping helper
 * `escapeQuotes`, the order in which the mangler emits the print lines is a
 * permutation `perm` of the section indices, and the random unique strings are
 * given as `unique`.
 */
module Glob {
  import opened Wrappers
  import opened Chunking
  import opened IndexPattern
  import opened Staging

  /** `perm` lists the indices below `n`, each of them once: the order in which the print lines come out. */
  predicate IsOrdering(perm: seq<nat>, n: nat)
  {
    && |perm| == n
    && (forall j :: 0 <= j < |perm| ==> perm[j] < n)
    && (forall i :: 0 <= i < n ==> i in perm)
  }

  /**
   * The directory `generate` stages into: `startingDir` exactly when no
   * writeable directory is named, otherwise a path strictly below it.
   */
  function WorkingDir(startingDir: string, writeableDir: string, escape: string -> string): (dir: string)
    ensures dir == startingDir <==> |writeableDir| == 0
    ensures |writeableDir| > 0 ==> |dir| >= |startingDir| + 1 && dir[..|startingDir| + 1] == startingDir + "/"
  {
    if |writeableDir| > 0 then startingDir + "/" + escape(writeableDir) else startingDir
  }

  /** Below one starting directory, two named sub-directories coincide exactly when their escaped names do. */
  lemma WorkingDirInjective(startingDir: string, a: string, b: string, escape: string -> string)
    requires |a| > 0 && |b| > 0
    ensures WorkingDir(startingDir, a, escape) == WorkingDir(startingDir, b, escape) <==> escape(a) == escape(b)
  {
  }

  /** The line that writes section `i` into the file named by its index. */
  function PrintLine(chunks: seq<string>, i: nat, w: nat, dir: string, escape: string -> string): Line
    requires i < |chunks| && i < Pow2(w)
  {
    Print(escape(chunks[i]), dir, IndexName(i, w))
  }

  /** The print lines, in the order `perm`. */
  function PrintLines(chunks: seq<string>, perm: seq<nat>, w: nat, dir: string, escape: string -> string): (lines: seq<Line>)
    requires forall j :: 0 <= j < |perm| ==> perm[j] < |chunks| && perm[j] < Pow2(w)
    ensures |lines| == |perm|
    ensures forall j :: 0 <= j < |perm| ==> lines[j] == PrintLine(chunks, perm[j], w, dir, escape)
  {
    if perm == [] then [] else [PrintLine(chunks, perm[0], w, dir, escape)] + PrintLines(chunks, perm[1..], w, dir, escape)
  }

  /** What `generate` hands the mangler for `cmd`: mkdir, the print lines, cat and rm. */
  function StagingLines(cmd: string, size: nat, dir: string, escape: string -> string, perm: seq<nat>): seq<Line>
    requires size >= 1 && |cmd| > 0
    requires IsOrdering(perm, |Chunks(cmd, size)|)
  {
    var chunks := Chunks(cmd, size);
    var w := IndexWidth(|chunks|);
    [Mkdir(dir)] + PrintLines(chunks, perm, w, dir, escape) + [Cat(dir, w), Rm(dir, w)]
  }

  /** Any lines that agree with the print lines at every position are the print lines. */
  lemma PrintLinesAre(chunks: seq<string>, perm: seq<nat>, w: nat, dir: string, escape: string -> string, lines: seq<Line>)
    requires forall j :: 0 <= j < |perm| ==> perm[j] < |chunks| && perm[j] < Pow2(w)
    requires |lines| == |perm|
    requires forall j :: 0 <= j < |perm| ==> lines[j] == PrintLine(chunks, perm[j], w, dir, escape)
    ensures lines == PrintLines(chunks, perm, w, dir, escape)
  {
  }

  /** The staging lines, appended one after another. */
  lemma StagingLinesAre(cmd: string, size: nat, dir: string, escape: string -> string, perm: seq<nat>, prints: seq<Line>)
    requires size >= 1 && |cmd| > 0
    requires IsOrdering(perm, |Chunks(cmd, size)|)
    requires prints == PrintLines(Chunks(cmd, size), perm, IndexWidth(|Chunks(cmd, size)|), dir, escape)
    ensures forall before: seq<Line> {:trigger before + StagingLines(cmd, size, dir, escape, perm)} ::
      before + [Mkdir(dir)] + prints + [Cat(dir, IndexWidth(|Chunks(cmd, size)|))] + [Rm(dir, IndexWidth(|Chunks(cmd, size)|))]
        == before + StagingLines(cmd, size, dir, escape, perm)
  {
  }

  /** What `FileGlob.mutate` emits: the staging lines and the removal of the directory. */
  function FileGlobLines(cmd: string, size: nat, dir: string, escape: string -> string, perm: seq<nat>): seq<Line>
    requires size >= 1 && |cmd| > 0
    requires IsOrdering(perm, |Chunks(cmd, size)|)
  {
    StagingLines(cmd, size, dir, escape, perm) + [Rmdir(dir)]
  }

  /**
   * The lines `FolderGlob.mutate` emits for one outer section staged in `dir`:
   * `generate` on a command of a single section, which gets the one-character
   * name `Zero` and an index width of 1, then the removal of `dir`.
   */
  function ChunkStage(chunk: string, dir: string, escape: string -> string): seq<Line>
  {
    [Mkdir(dir), Print(escape(chunk), dir, [Zero]), Cat(dir, 1), Rm(dir, 1), Rmdir(dir)]
  }

  /** The directory of outer section `k`: the first unique string went to the starting directory. */
  function SubDir(startingDir: string, escape: string -> string, unique: nat -> string, k: nat): string
  {
    WorkingDir(startingDir, unique(k + 1), escape)
  }

  /** The lines for the first `k` outer sections. */
  function FolderStages(chunks: seq<string>, startingDir: string, escape: string -> string, unique: nat -> string, k: nat): seq<Line>
    requires k <= |chunks|
  {
    if k == 0 then []
    else
      FolderStages(chunks, startingDir, escape, unique, k - 1)
        + ChunkStage(chunks[k - 1], SubDir(startingDir, escape, unique, k - 1), escape)
  }

  /** What `FolderGlob.mutate` emits: one staged sub-directory per section, then the removal of the starting directory. */
  function FolderGlobLines(cmd: string, size: nat, startingDir: string, escape: string -> string, unique: nat -> string): seq<Line>
    requires size >= 1
  {
    var chunks := Chunks(cmd, size);
    FolderStages(chunks, startingDir, escape, unique, |chunks|) + [Rmdir(startingDir)]
  }

  /** Appending the `k`-th outer section's lines to the first `k` gives the first `k + 1`. */
  lemma NextStage(prefix: seq<Line>, chunks: seq<string>, startingDir: string, escape: string -> string,
                  unique: nat -> string, k: nat, lines: seq<Line>)
    requires k < |chunks|
    requires lines == prefix + FolderStages(chunks, startingDir, escape, unique, k)
                      + ChunkStage(chunks[k], SubDir(startingDir, escape, unique, k), escape)
    ensures lines == prefix + FolderStages(chunks, startingDir, escape, unique, k + 1)
  {
  }

  // ----- Shape of the emitted lines -----

  /** The directories the lines create, in order. */
  function Created(lines: seq<Line>): (dirs: seq<string>)
    ensures |dirs| <= |lines|
  {
    if lines == [] then []
    else (if lines[0].Mkdir? then [lines[0].dir] else []) + Created(lines[1..])
  }

  /** The directories the lines remove, in order. */
  function Removed(lines: seq<Line>): (dirs: seq<string>)
    ensures |dirs| <= |lines|
  {
    if lines == [] then []
    else (if lines[0].Rmdir? then [lines[0].dir] else []) + Removed(lines[1..])
  }

  lemma CreatedAppend(a: seq<Line>, b: seq<Line>)
    ensures Created(a + b) == Created(a) + Created(b)
    ensures Removed(a + b) == Removed(a) + Removed(b)
  {
    CreatedOfAppend(a, b);
    RemovedOfAppend(a, b);
  }

  lemma {:induction false} CreatedOfAppend(a: seq<Line>, b: seq<Line>)
    ensures Created(a + b) == Created(a) + Created(b)
    decreases |a|
  {
    if a == [] {
      assert a + b == b;
    } else {
      var head := if a[0].Mkdir? then [a[0].dir] else [];
      assert (a + b)[0] == a[0] && (a + b)[1..] == a[1..] + b;
      CreatedOfAppend(a[1..], b);
      assert Created(a + b) == head + (Created(a[1..]) + Created(b));
      assert head + (Created(a[1..]) + Created(b)) == (head + Created(a[1..])) + Created(b);
    }
  }

  lemma {:induction false} RemovedOfAppend(a: seq<Line>, b: seq<Line>)
    ensures Removed(a + b) == Removed(a) + Removed(b)
    decreases |a|
  {
    if a == [] {
      assert a + b == b;
    } else {
      var head := if a[0].Rmdir? then [a[0].dir] else [];
      assert (a + b)[0] == a[0] && (a + b)[1..] == a[1..] + b;
      RemovedOfAppend(a[1..], b);
      assert Removed(a + b) == head + (Removed(a[1..]) + Removed(b));
      assert head + (Removed(a[1..]) + Removed(b)) == (head + Removed(a[1..])) + Removed(b);
    }
  }

  lemma {:induction false} PrintLinesMakeNoDirs(chunks: seq<string>, perm: seq<nat>, w: nat, dir: string, escape: string -> string)
    requires forall j :: 0 <= j < |perm| ==> perm[j] < |chunks| && perm[j] < Pow2(w)
    ensures Created(PrintLines(chunks, perm, w, dir, escape)) == []
    ensures Removed(PrintLines(chunks, perm, w, dir, escape)) == []
  {
    if perm != [] {
      PrintLinesMakeNoDirs(chunks, perm[1..], w, dir, escape);
    }
  }

  /**
   * `generate` emits the mkdir of the working directory first, then one print
   * line per section, each naming a file by its section's index, and last a
   * `cat` and an `rm` over the same pattern of `w` wildcards, `w` the index
   * width of the section count.
   */
  lemma StagingShape(cmd: string, size: nat, dir: string, escape: string -> string, perm: seq<nat>)
    requires size >= 1 && |cmd| > 0
    requires IsOrdering(perm, |Chunks(cmd, size)|)
    ensures var lines := StagingLines(cmd, size, dir, escape, perm);
            var n := |Chunks(cmd, size)|;
            var w := IndexWidth(n);
            && |lines| == n + 3
            && lines[0] == Mkdir(dir)
            && (forall j :: 1 <= j <= n ==> lines[j] == Print(escape(Chunks(cmd, size)[perm[j - 1]]), dir, IndexName(perm[j - 1], w)))
            && lines[n + 1] == Cat(dir, w)
            && lines[n + 2] == Rm(dir, w)
  {
  }

  /** `FileGlob` creates and removes exactly one directory, the one it stages into. */
  lemma FileGlobDirs(cmd: string, size: nat, dir: string, escape: string -> string, perm: seq<nat>)
    requires size >= 1 && |cmd| > 0
    requires IsOrdering(perm, |Chunks(cmd, size)|)
    ensures Created(FileGlobLines(cmd, size, dir, escape, perm)) == [dir]
    ensures Removed(FileGlobLines(cmd, size, dir, escape, perm)) == [dir]
  {
    var chunks := Chunks(cmd, size);
    var w := IndexWidth(|chunks|);
    var prints := PrintLines(chunks, perm, w, dir, escape);
    PrintLinesMakeNoDirs(chunks, perm, w, dir, escape);
    CreatedAppend([Mkdir(dir)], prints);
    CreatedAppend([Mkdir(dir)] + prints, [Cat(dir, w), Rm(dir, w)]);
    CreatedAppend([Mkdir(dir)] + prints + [Cat(dir, w), Rm(dir, w)], [Rmdir(dir)]);
  }

  /**
   * Each outer section of `FolderGlob` fits in one section, so its inner
   * `generate` stages exactly one file, named `?` (width 1), and the
   * sub-directory is removed right after.
   */
  lemma ChunkStageShape(chunk: string, size: nat, dir: string, escape: string -> string)
    requires 0 < |chunk| <= size
    ensures StagingLines(chunk, size, dir, escape, [0]) + [Rmdir(dir)] == ChunkStage(chunk, dir, escape)
  {
    assert Chunks(chunk, size) == [chunk];
    assert IndexWidth(1) == 1;
    assert IndexName(0, 1) == [Zero];
  }

  lemma ChunkStageDirs(chunk: string, dir: string, escape: string -> string)
    ensures Created(ChunkStage(chunk, dir, escape)) == [dir]
    ensures Removed(ChunkStage(chunk, dir, escape)) == [dir]
  {
    var lines := [Mkdir(dir), Print(escape(chunk), dir, [Zero]), Cat(dir, 1), Rm(dir, 1), Rmdir(dir)];
    assert lines[4..][1..] == [] && lines[3..][1..] == lines[4..] && lines[2..][1..] == lines[3..] && lines[1..][1..] == lines[2..];
    assert Created(lines[4..]) == [] && Removed(lines[4..]) == [dir];
    assert Created(lines[3..]) == [] && Removed(lines[3..]) == [dir];
    assert Created(lines[2..]) == [] && Removed(lines[2..]) == [dir];
    assert Created(lines[1..]) == [] && Removed(lines[1..]) == [dir];
  }

  lemma SubDirsSnoc(startingDir: string, escape: string -> string, unique: nat -> string, k: nat)
    requires k > 0
    ensures seq(k, j requires 0 <= j => SubDir(startingDir, escape, unique, j))
         == seq(k - 1, j requires 0 <= j => SubDir(startingDir, escape, unique, j)) + [SubDir(startingDir, escape, unique, k - 1)]
  {
    var longer := seq(k, j requires 0 <= j => SubDir(startingDir, escape, unique, j));
    var shorter := seq(k - 1, j requires 0 <= j => SubDir(startingDir, escape, unique, j));
    forall j | 0 <= j < k
      ensures longer[j] == (shorter + [SubDir(startingDir, escape, unique, k - 1)])[j]
    {
      if j < k - 1 {
        assert longer[j] == shorter[j];
      }
    }
  }

  /**
   * `FolderGlob` creates one sub-directory per outer section and removes each
   * of them, then removes the starting directory: one directory more than
   * there are sections.
   */
  lemma {:induction false} FolderStagesDirs(chunks: seq<string>, startingDir: string, escape: string -> string, unique: nat -> string, k: nat)
    requires k <= |chunks|
    ensures Created(FolderStages(chunks, startingDir, escape, unique, k))
         == seq(k, j requires 0 <= j => SubDir(startingDir, escape, unique, j))
    ensures Removed(FolderStages(chunks, startingDir, escape, unique, k))
         == seq(k, j requires 0 <= j => SubDir(startingDir, escape, unique, j))
  {
    if k > 0 {
      var dir := SubDir(startingDir, escape, unique, k - 1);
      FolderStagesDirs(chunks, startingDir, escape, unique, k - 1);
      ChunkStageDirs(chunks[k - 1], dir, escape);
      CreatedAppend(FolderStages(chunks, startingDir, escape, unique, k - 1), ChunkStage(chunks[k - 1], dir, escape));
      SubDirsSnoc(startingDir, escape, unique, k);
    }
  }

  lemma FolderGlobDirs(cmd: string, size: nat, startingDir: string, escape: string -> string, unique: nat -> string)
    requires size >= 1
    ensures var n := |Chunks(cmd, size)|;
            var subDirs := seq(n, j requires 0 <= j => SubDir(startingDir, escape, unique, j));
            && Created(FolderGlobLines(cmd, size, startingDir, escape, unique)) == subDirs
            && Removed(FolderGlobLines(cmd, size, startingDir, escape, unique)) == subDirs + [startingDir]
            && |Removed(FolderGlobLines(cmd, size, startingDir, escape, unique))| == n + 1
  {
    var chunks := Chunks(cmd, size);
    FolderStagesDirs(chunks, startingDir, escape, unique, |chunks|);
    CreatedAppend(FolderStages(chunks, startingDir, escape, unique, |chunks|), [Rmdir(startingDir)]);
  }

  // ----- The obfuscators -----

  /**
   * The state `GlobObfuscator` keeps between `setSizes`, `generate` and
   * `mutate`. `payload` is the mangler's list of payload lines so far, which
   * the mangler's final payload renders.
   */
  class GlobObfuscator {
    const sizePref: int
    const writeDir: string
    const escape: string -> string
    var sectionSize: nat
    var startingDir: string
    var workingDir: string
    var payload: seq<Line>

    constructor (sizePref: int, writeDir: string, escape: string -> string)
      ensures this.sizePref == sizePref && this.writeDir == writeDir && this.escape == escape
      ensures sectionSize == 0 && startingDir == [] && workingDir == [] && payload == []
    {
      this.sizePref := sizePref;
      this.writeDir := writeDir;
      this.escape := escape;
      sectionSize := 0;
      startingDir := [];
      workingDir := [];
      payload := [];
    }

    /**
     * Chooses the section size from the size preference (a preference other
     * than 1, 2 or 3 leaves it as it was) and names the starting directory
     * after the writable directory and a fresh unique string.
     */
    method SetSizes(userCmd: string, unique: string)
      modifies this`sectionSize, this`startingDir
      ensures sectionSize == if 1 <= sizePref <= 3 then SectionSize(sizePref, |userCmd|) else old(sectionSize)
      ensures startingDir == escape(writeDir + unique)
    {
      if sizePref == 1 {
        sectionSize := |userCmd| / 10 + 1;
      } else if sizePref == 2 {
        sectionSize := |userCmd| / 100 + 1;
      } else if sizePref == 3 {
        sectionSize := 1;
      }
      startingDir := escape(writeDir + unique);
    }

    /**
     * Stages `userCmd` in the working directory: the mkdir, one print line per
     * section in the mangler's order `perm`, the cat and the rm. An empty
     * command has no sections and the logarithm of 0 fails (`ok` is false):
     * the working directory is set, but nothing reaches the mangler.
     */
    method Generate(userCmd: string, writeableDir: string, perm: seq<nat>) returns (ok: bool)
      requires sectionSize >= 1
      requires |userCmd| > 0 ==> IsOrdering(perm, |Chunks(userCmd, sectionSize)|)
      modifies this`workingDir, this`payload
      ensures workingDir == WorkingDir(startingDir, writeableDir, escape)
      ensures ok <==> |userCmd| > 0
      ensures ok ==> payload == old(payload) + StagingLines(userCmd, sectionSize, workingDir, escape, perm)
      ensures !ok ==> payload == old(payload)
    {
      if |writeableDir| > 0 {
        workingDir := startingDir + "/" + escape(writeableDir);
      } else {
        workingDir := startingDir;
      }

      var cmdChars := Chunks(userCmd, sectionSize);
      var cmdLen := |cmdChars|;
      if cmdLen == 0 {
        return false;
      }
      var cmdLogLen := CeilLog2(cmdLen);
      if cmdLogLen <= 0 {
        cmdLogLen := 1;
      }
      assert cmdLogLen == IndexWidth(cmdLen);

      var printLines := CollectPrintLines(cmdChars, cmdLogLen, escape);

      var dir := workingDir;
      payload := payload + [Mkdir(dir)];
      var prints := PrintsInOrder(printLines, cmdChars, perm, cmdLogLen, dir, escape);
      payload := payload + prints;
      payload := payload + [Cat(dir, cmdLogLen)];
      payload := payload + [Rm(dir, cmdLogLen)];
      StagingLinesAre(userCmd, sectionSize, dir, escape, perm, prints);
      ok := true;
    }
  }

  /** Adding section `i` under its own name keeps the entries of the sections before it. */
  lemma InsertKeeps(before: map<string, string>, cmdChars: seq<string>, w: nat, i: nat, escape: string -> string)
    requires i < |cmdChars| <= Pow2(w)
    requires forall k :: 0 <= k < i ==> IndexName(k, w) in before && before[IndexName(k, w)] == escape(cmdChars[k])
    ensures var after := before[IndexName(i, w) := escape(cmdChars[i])];
      forall k :: 0 <= k < i + 1 ==> IndexName(k, w) in after && after[IndexName(k, w)] == escape(cmdChars[k])
  {
    forall k | 0 <= k < i
      ensures IndexName(k, w) != IndexName(i, w)
    {
      IndexNameInjective(k, i, w);
    }
  }

  /**
   * The dictionary `generate` fills before handing it to the mangler: for each
   * section, its index name maps to the escaped section. Names never collide,
   * so it ends up with exactly one entry per section.
   */
  method CollectPrintLines(cmdChars: seq<string>, w: nat, escape: string -> string) returns (printLines: map<string, string>)
    requires |cmdChars| <= Pow2(w)
    ensures |printLines| == |cmdChars|
    ensures forall k :: 0 <= k < |cmdChars| ==> IndexName(k, w) in printLines && printLines[IndexName(k, w)] == escape(cmdChars[k])
  {
    printLines := map[];
    for i := 0 to |cmdChars|
      invariant |printLines| == i
      invariant forall name :: name in printLines ==> NameValue(name) < i
      invariant forall k :: 0 <= k < i ==> IndexName(k, w) in printLines && printLines[IndexName(k, w)] == escape(cmdChars[k])
    {
      var cmdCharsSection := escape(cmdChars[i]);
      var name := IndexName(i, w);
      NameValueOfIndexName(i, w);
      assert name !in printLines;
      ghost var before := printLines;
      printLines := printLines[name := cmdCharsSection];
      InsertKeeps(before, cmdChars, w, i, escape);
      assert |printLines| == |before| + 1;
      forall n | n in printLines
        ensures NameValue(n) < i + 1
      {
        if n != name {
          assert n in before;
        }
      }
    }
  }

  /** The print lines in the order `perm`, each looked up by its section's index name. */
  method PrintsInOrder(printLines: map<string, string>, cmdChars: seq<string>, perm: seq<nat>, w: nat, dir: string,
                       escape: string -> string)
    returns (prints: seq<Line>)
    requires |cmdChars| <= Pow2(w)
    requires forall j :: 0 <= j < |perm| ==> perm[j] < |cmdChars|
    requires forall k :: 0 <= k < |cmdChars| ==> IndexName(k, w) in printLines && printLines[IndexName(k, w)] == escape(cmdChars[k])
    ensures prints == PrintLines(cmdChars, perm, w, dir, escape)
  {
    prints := seq(|perm|, j requires 0 <= j < |perm| =>
      Print(printLines[IndexName(perm[j], w)], dir, IndexName(perm[j], w)));
    forall j | 0 <= j < |perm|
      ensures prints[j] == PrintLine(cmdChars, perm[j], w, dir, escape)
    {
      assert printLines[IndexName(perm[j], w)] == escape(cmdChars[perm[j]]);
    }
    PrintLinesAre(cmdChars, perm, w, dir, escape, prints);
  }

  /** `FileGlob`: one staging directory for the whole command. */
  class FileGlob {
    const glob: GlobObfuscator

    constructor (sizePref: int, writeDir: string, escape: string -> string)
      ensures fresh(glob)
      ensures glob.sizePref == sizePref && glob.writeDir == writeDir && glob.escape == escape
      ensures glob.payload == []
    {
      glob := new GlobObfuscator(sizePref, writeDir, escape);
    }

    /**
     * Stages the command, then removes the directory, and returns the payload.
     * An empty command fails in `generate` and returns nothing.
     */
    method Mutate(userCmd: string, unique: string, perm: seq<nat>) returns (result: Option<seq<Line>>)
      requires 1 <= glob.sizePref <= 3
      requires |userCmd| > 0 ==> IsOrdering(perm, |Chunks(userCmd, SectionSize(glob.sizePref, |userCmd|))|)
      modifies glob
      ensures glob.sectionSize == SectionSize(glob.sizePref, |userCmd|)
      ensures glob.startingDir == glob.escape(glob.writeDir + unique) && glob.workingDir == glob.startingDir
      ensures |userCmd| == 0 ==> result == None && glob.payload == old(glob.payload)
      ensures |userCmd| > 0 ==>
        && glob.payload == old(glob.payload) + FileGlobLines(userCmd, glob.sectionSize, glob.startingDir, glob.escape, perm)
        && result == Some(glob.payload)
    {
      glob.SetSizes(userCmd, unique);
      var ok := glob.Generate(userCmd, [], perm);
      if !ok {
        return None;
      }
      glob.payload := glob.payload + [Rmdir(glob.workingDir)];
      result := Some(glob.payload);
    }
  }

  /** `FolderGlob`: a sub-directory, staged by `generate` on its own, for every section. */
  class FolderGlob {
    const glob: GlobObfuscator

    constructor (sizePref: int, writeDir: string, escape: string -> string)
      ensures fresh(glob)
      ensures glob.sizePref == sizePref && glob.writeDir == writeDir && glob.escape == escape
      ensures glob.payload == []
    {
      glob := new GlobObfuscator(sizePref, writeDir, escape);
    }

    /**
     * One section of the loop: `generate` stages it in the sub-directory
     * `writeableDir` under the starting directory, which is then removed.
     */
    method StageSection(chunk: string, writeableDir: string)
      requires glob.sectionSize >= 1 && 0 < |chunk| <= glob.sectionSize
      modifies glob`workingDir, glob`payload
      ensures glob.workingDir == WorkingDir(glob.startingDir, writeableDir, glob.escape)
      ensures glob.payload == old(glob.payload) + ChunkStage(chunk, glob.workingDir, glob.escape)
    {
      ChunksOfShort(chunk, glob.sectionSize);
      assert IsOrdering([0], |Chunks(chunk, glob.sectionSize)|);
      var ok := glob.Generate(chunk, writeableDir, [0]);
      ChunkStageShape(chunk, glob.sectionSize, glob.workingDir, glob.escape);
      glob.payload := glob.payload + [Rmdir(glob.workingDir)];
    }

    /**
     * Cuts the command into sections, stages each in a sub-directory named by
     * a fresh unique string (`unique(k + 1)` for section `k`, `unique(0)`
     * having named the starting directory), removes each sub-directory and
     * then the starting directory, and returns the payload.
     */
    method Mutate(userCmd: string, unique: nat -> string) returns (result: seq<Line>)
      requires 1 <= glob.sizePref <= 3
      modifies glob
      ensures glob.sectionSize == SectionSize(glob.sizePref, |userCmd|)
      ensures glob.startingDir == glob.escape(glob.writeDir + unique(0))
      ensures glob.payload == old(glob.payload) + FolderGlobLines(userCmd, glob.sectionSize, glob.startingDir, glob.escape, unique)
      ensures |Chunks(userCmd, glob.sectionSize)| == 0 ==> glob.workingDir == old(glob.workingDir)
      ensures |Chunks(userCmd, glob.sectionSize)| > 0 ==>
        glob.workingDir == SubDir(glob.startingDir, glob.escape, unique, |Chunks(userCmd, glob.sectionSize)| - 1)
      ensures result == glob.payload
    {
      glob.SetSizes(userCmd, unique(0));
      var size, start, escape := glob.sectionSize, glob.startingDir, glob.escape;
      var cmdChunks := Chunks(userCmd, size);
      for k := 0 to |cmdChunks|
        invariant glob.sectionSize == size && glob.startingDir == start
        invariant glob.payload == old(glob.payload) + FolderStages(cmdChunks, start, escape, unique, k)
        invariant k == 0 ==> glob.workingDir == old(glob.workingDir)
        invariant k > 0 ==> glob.workingDir == SubDir(start, escape, unique, k - 1)
      {
        var chunk := cmdChunks[k];
        StageSection(chunk, unique(k + 1));
        NextStage(old(glob.payload), cmdChunks, start, escape, unique, k, glob.payload);
      }
      glob.payload := glob.payload + [Rmdir(glob.startingDir)];
      result := glob.payload;
    }
  }
}
