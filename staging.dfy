/**
 * The payload lines of the glob obfuscators and what the shell does with them.
 * Directories are a map from path to the files in it, a directory's files a
 * map from name to contents. A `cat` over `width` single-character wildcards
 * reads every file whose name has that many characters, in the shell's
 * collation order of the names.
 */
module Staging {
  import opened IndexPattern

  /** One payload line of `GlobObfuscator.generate`, `FileGlob.mutate` or `FolderGlob.mutate`. */
  datatype Line =
    | Mkdir(dir: string)                                // mkdir -p 'dir'
    | Print(literal: string, dir: string, name: string) // printf %s 'literal' > 'dir/name'
    | Cat(dir: string, width: nat)                      // cat 'dir'/ followed by `width` wildcards
    | Rm(dir: string, width: nat)                       // rm 'dir'/ followed by `width` wildcards
    | Rmdir(dir: string)                                // rmdir 'dir'

  type Files = map<string, string>

  /** The directories the payload can see, and what it has printed so far. */
  datatype Machine = Machine(dirs: map<string, Files>, out: string)

  /** The names that `width` copies of the wildcard `?` match: those of exactly `width` characters. */
  function Matching(files: Files, width: nat): (names: set<string>)
  {
    set n | n in files && |n| == width
  }

  /** A name that no other name of `names` sorts before. */
  ghost predicate IsLeast(m: string, names: set<string>, rank: char -> int)
  {
    m in names && forall x :: x in names ==> !Before(x, m, rank)
  }

  /** Every finite set of names has one that nothing sorts before. */
  lemma {:induction false} LeastExists(names: set<string>, rank: char -> int)
    requires names != {}
    ensures exists m :: IsLeast(m, names, rank)
    decreases |names|
  {
    var y :| y in names;
    if names == {y} {
      BeforeIrreflexive(y, rank);
      assert IsLeast(y, names, rank);
    } else {
      LeastExists(names - {y}, rank);
      var m :| IsLeast(m, names - {y}, rank);
      if Before(y, m, rank) {
        forall x | x in names
          ensures !Before(x, y, rank)
        {
          if x == y {
            BeforeIrreflexive(y, rank);
          } else if Before(x, y, rank) {
            BeforeTransitive(x, y, m, rank);
          }
        }
        assert IsLeast(y, names, rank);
      } else {
        assert IsLeast(m, names, rank);
      }
    }
  }

  ghost function Least(names: set<string>, rank: char -> int): (m: string)
    requires names != {}
    ensures IsLeast(m, names, rank)
  {
    LeastExists(names, rank);
    var m :| IsLeast(m, names, rank);
    m
  }

  /** The names of `names` in collation order, as a glob expands them. */
  ghost function Listing(names: set<string>, rank: char -> int): (r: seq<string>)
    ensures forall k :: 0 <= k < |r| ==> r[k] in names
    decreases |names|
  {
    if names == {} then []
    else
      var m := Least(names, rank);
      [m] + Listing(names - {m}, rank)
  }

  /** The contents of the files `names`, one after the other. */
  function ReadAll(files: Files, names: seq<string>): string
    requires forall k :: 0 <= k < |names| ==> names[k] in files
  {
    if names == [] then [] else files[names[0]] + ReadAll(files, names[1..])
  }

  /**
   * One line run by the shell. `unquote` is how the shell reads a quoted
   * literal; `rank` its collation of characters. A line that the shell would
   * reject (printing into a missing directory, removing a non-empty one)
   * changes nothing.
   */
  ghost function Step(m: Machine, line: Line, unquote: string -> string, rank: char -> int): Machine
  {
    match line
    case Mkdir(d) =>
      if d in m.dirs then m else m.(dirs := m.dirs[d := map[]])
    case Print(literal, d, name) =>
      if d in m.dirs then m.(dirs := m.dirs[d := m.dirs[d][name := unquote(literal)]]) else m
    case Cat(d, width) =>
      if d in m.dirs then
        var files := m.dirs[d];
        m.(out := m.out + ReadAll(files, Listing(Matching(files, width), rank)))
      else m
    case Rm(d, width) =>
      if d in m.dirs then m.(dirs := m.dirs[d := m.dirs[d] - Matching(m.dirs[d], width)]) else m
    case Rmdir(d) =>
      if d in m.dirs && m.dirs[d] == map[] then m.(dirs := m.dirs - {d}) else m
  }

  /** The lines run in order. */
  ghost function Run(m: Machine, lines: seq<Line>, unquote: string -> string, rank: char -> int): Machine
    decreases |lines|
  {
    if lines == [] then m else Run(Step(m, lines[0], unquote, rank), lines[1..], unquote, rank)
  }

  /** Running two pieces of a payload one after the other is running the whole. */
  lemma {:induction false} RunAppend(m: Machine, a: seq<Line>, b: seq<Line>, unquote: string -> string, rank: char -> int)
    ensures Run(m, a + b, unquote, rank) == Run(Run(m, a, unquote, rank), b, unquote, rank)
    decreases |a|
  {
    if a == [] {
      assert a + b == b;
    } else {
      assert (a + b)[1..] == a[1..] + b;
      RunAppend(Step(m, a[0], unquote, rank), a[1..], b, unquote, rank);
    }
  }
}
