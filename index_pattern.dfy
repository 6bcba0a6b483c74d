/**
 * The file names under which `GlobObfuscator.generate` stages the sections of a
 * command: section `i` of `n` is named by the binary digits of `i`, padded to a
 * width of ⌈log2 n⌉ (at least 1), with digit 0 written `?` and digit 1 written
 * as a newline. The shell reads the files back in the order in which it
 * collates their names; that order is a parameter here (`rank`), because it is
 * the interpreter's and not the encoder's.
 */
module IndexPattern {

  /** The character that stands for binary digit 0. */
  const Zero: char := '?'

  /** The character that stands for binary digit 1. */
  const One: char := '\n'

  function Pow2(w: nat): (p: nat)
    ensures p >= 1
  {
    if w == 0 then 1 else 2 * Pow2(w - 1)
  }

  /** ⌈log2 n⌉: the fewest binary digits that can tell `n` indices apart. */
  function CeilLog2(n: nat): (w: nat)
    requires n >= 1
    ensures Pow2(w) >= n
    ensures w > 0 ==> Pow2(w - 1) < n
    decreases n
  {
    if n == 1 then 0 else 1 + CeilLog2((n + 1) / 2)
  }

  /**
   * The index width for `n` sections: ⌈log2 n⌉ raised to 1 when it is 0, so
   * that even a single section gets a one-character name. It is the least
   * width of at least 1 whose 2^w names cover all `n` indices.
   */
  function IndexWidth(n: nat): (w: nat)
    requires n >= 1
    ensures w >= 1 && Pow2(w) >= n
    ensures w > 1 ==> Pow2(w - 1) < n
  {
    var logLen := CeilLog2(n);
    if logLen <= 0 then 1 else logLen
  }

  /** True of a name written only in the two digit characters. */
  predicate IsDigitName(name: string)
  {
    forall k :: 0 <= k < |name| ==> name[k] == Zero || name[k] == One
  }

  /**
   * `format(i, "0" + str(w) + "b")` with `0` replaced by `?` and `1` by a
   * newline: the `w` binary digits of `i`, most significant first.
   */
  function IndexName(i: nat, w: nat): (name: string)
    requires i < Pow2(w)
    ensures |name| == w && IsDigitName(name)
  {
    if w == 0 then [] else IndexName(i / 2, w - 1) + [if i % 2 == 0 then Zero else One]
  }

  /** Reads a digit name back as the number it writes. */
  function NameValue(name: string): nat
  {
    if name == [] then 0
    else 2 * NameValue(name[..|name| - 1]) + (if name[|name| - 1] == One then 1 else 0)
  }

  /** Reading a name back gives its index: names are decoded without loss. */
  lemma {:induction false} NameValueOfIndexName(i: nat, w: nat)
    requires i < Pow2(w)
    ensures NameValue(IndexName(i, w)) == i
  {
    if w > 0 {
      var name := IndexName(i, w);
      assert name[..|name| - 1] == IndexName(i / 2, w - 1);
      NameValueOfIndexName(i / 2, w - 1);
    }
  }

  /** Distinct indices get distinct names, so no section overwrites another. */
  lemma IndexNameInjective(i: nat, j: nat, w: nat)
    requires i < Pow2(w) && j < Pow2(w)
    ensures IndexName(i, w) == IndexName(j, w) <==> i == j
  {
    NameValueOfIndexName(i, w);
    NameValueOfIndexName(j, w);
  }

  /**
   * Collation of names: `x` sorts strictly before `y` when at the first place
   * where they differ the character of `x` ranks lower, or when `x` is a proper
   * prefix of `y`.
   */
  predicate Before(x: string, y: string, rank: char -> int)
    decreases |x|
  {
    if |x| == 0 then |y| > 0
    else |y| > 0 && (rank(x[0]) < rank(y[0]) || (x[0] == y[0] && Before(x[1..], y[1..], rank)))
  }

  lemma {:induction false} BeforeIrreflexive(x: string, rank: char -> int)
    ensures !Before(x, x, rank)
    decreases |x|
  {
    if |x| > 0 {
      BeforeIrreflexive(x[1..], rank);
    }
  }

  lemma {:induction false} BeforeTransitive(x: string, y: string, z: string, rank: char -> int)
    requires Before(x, y, rank) && Before(y, z, rank)
    ensures Before(x, z, rank)
    decreases |x|
  {
    if |x| > 0 && x[0] == y[0] && y[0] == z[0] {
      BeforeTransitive(x[1..], y[1..], z[1..], rank);
    }
  }

  /** Two names of equal length that differ only in their last character. */
  lemma {:induction false} BeforeSnoc(a: string, b: string, c: char, d: char, rank: char -> int)
    requires |a| == |b|
    ensures Before(a + [c], b + [d], rank) <==> Before(a, b, rank) || (a == b && rank(c) < rank(d))
    decreases |a|
  {
    if |a| == 0 {
      assert a + [c] == [c] && b + [d] == [d];
    } else {
      assert (a + [c])[1..] == a[1..] + [c];
      assert (b + [d])[1..] == b[1..] + [d];
      BeforeSnoc(a[1..], b[1..], c, d, rank);
      assert a == b <==> a[0] == b[0] && a[1..] == b[1..];
    }
  }

  /**
   * When the shell collates `?` below the newline, names of one width sort
   * exactly as their indices do, in both directions.
   */
  lemma {:induction false} IndexOrder(i: nat, j: nat, w: nat, rank: char -> int)
    requires i < Pow2(w) && j < Pow2(w)
    requires rank(Zero) < rank(One)
    ensures Before(IndexName(i, w), IndexName(j, w), rank) <==> i < j
  {
    if w > 0 {
      var di := if i % 2 == 0 then Zero else One;
      var dj := if j % 2 == 0 then Zero else One;
      BeforeSnoc(IndexName(i / 2, w - 1), IndexName(j / 2, w - 1), di, dj, rank);
      IndexOrder(i / 2, j / 2, w - 1, rank);
      IndexNameInjective(i / 2, j / 2, w - 1);
    }
  }

  /**
   * Collating by byte value, as the C locale does, puts the newline (0x0A)
   * before `?` (0x3F), and the names then sort in reverse index order: the
   * order assumption of `IndexOrder` is what the reassembly rests on.
   */
  lemma {:induction false} IndexOrderByByteValue(i: nat, j: nat, w: nat)
    requires i < Pow2(w) && j < Pow2(w)
    ensures Before(IndexName(i, w), IndexName(j, w), c => c as int) <==> j < i
  {
    var rank := (c: char) => c as int;
    if w > 0 {
      var di := if i % 2 == 0 then Zero else One;
      var dj := if j % 2 == 0 then Zero else One;
      BeforeSnoc(IndexName(i / 2, w - 1), IndexName(j / 2, w - 1), di, dj, rank);
      IndexOrderByByteValue(i / 2, j / 2, w - 1);
      IndexNameInjective(i / 2, j / 2, w - 1);
    }
  }
}
