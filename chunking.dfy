/**
 * Cutting a command into sections, as the glob obfuscators do with
 * `[userCmd[i:i + sectionSize] for i in range(0, len(userCmd), sectionSize)]`,
 * and the section size that `GlobObfuscator.setSizes` derives from the size
 * preference.
 */
module Chunking {

  /** The concatenation of a sequence of strings, in order. */
  function Concat(parts: seq<string>): string
  {
    if parts == [] then [] else parts[0] + Concat(parts[1..])
  }

  /**
   * The sections of `s`: consecutive pieces of `size` characters, the last one
   * possibly shorter. No piece is empty and every piece but the last is exactly
   * `size` long.
   */
  function Chunks(s: string, size: nat): (r: seq<string>)
    requires size >= 1
    ensures forall k :: 0 <= k < |r| ==> 0 < |r[k]| <= size
    ensures forall k :: 0 <= k < |r| - 1 ==> |r[k]| == size
    decreases |s|
  {
    if |s| == 0 then []
    else if |s| <= size then [s]
    else [s[..size]] + Chunks(s[size..], size)
  }

  /** Reassembling the pieces in order gives the command back. */
  lemma {:induction false} ChunksConcat(s: string, size: nat)
    requires size >= 1
    ensures Concat(Chunks(s, size)) == s
    decreases |s|
  {
    if |s| > size {
      var rest := Chunks(s[size..], size);
      ChunksConcat(s[size..], size);
      assert ([s[..size]] + rest)[1..] == rest;
      assert s == s[..size] + s[size..];
    }
  }

  /** Concatenating one more part appends it. */
  lemma {:induction false} ConcatSnoc(parts: seq<string>, last: string)
    ensures Concat(parts + [last]) == Concat(parts) + last
    decreases |parts|
  {
    if parts == [] {
      assert parts + [last] == [last];
    } else {
      assert (parts + [last])[1..] == parts[1..] + [last];
      ConcatSnoc(parts[1..], last);
    }
  }

  function Min(a: int, b: int): int { if a <= b then a else b }

  /** Piece `k` is the slice of `s` that the comprehension takes at offset `k * size`. */
  lemma ChunkAt(s: string, size: nat, k: nat)
    requires size >= 1 && k < |Chunks(s, size)|
    ensures k * size < |s|
    ensures Chunks(s, size)[k] == s[k * size .. Min(k * size + size, |s|)]
  {
    ChunkAtOffset(s, size, k);
    OffsetIsProduct(k, size);
  }

  /** The offset of piece `k`: `k` steps of `size`. */
  function Offset(k: nat, size: nat): nat
  {
    if k == 0 then 0 else Offset(k - 1, size) + size
  }

  lemma {:induction false} OffsetIsProduct(k: nat, size: nat)
    ensures Offset(k, size) == k * size
  {
    if k > 0 {
      OffsetIsProduct(k - 1, size);
      assert k * size == (k - 1) * size + size;
    }
  }

  lemma {:induction false} ChunkAtOffset(s: string, size: nat, k: nat)
    requires size >= 1 && k < |Chunks(s, size)|
    ensures Offset(k, size) < |s|
    ensures Chunks(s, size)[k] == s[Offset(k, size) .. Min(Offset(k, size) + size, |s|)]
    decreases |s|
  {
    if k == 0 {
      ChunkHead(s, size);
    } else {
      ChunkAtOffset(s[size..], size, k - 1);
      ChunkShift(s, size, k);
    }
  }

  lemma ChunkHead(s: string, size: nat)
    requires size >= 1 && 0 < |Chunks(s, size)|
    ensures Chunks(s, size)[0] == s[0 .. Min(size, |s|)]
  {
    if |s| <= size {
      assert s[0..|s|] == s;
    }
  }

  /** Piece `k` of `s` is piece `k - 1` of what follows the first piece. */
  lemma ChunkShift(s: string, size: nat, k: nat)
    requires size >= 1 && 0 < k < |Chunks(s, size)|
    requires |s| > size ==> var t := s[size..];
               && Offset(k - 1, size) < |t|
               && Chunks(t, size)[k - 1] == t[Offset(k - 1, size) .. Min(Offset(k - 1, size) + size, |t|)]
    ensures Offset(k, size) < |s|
    ensures Chunks(s, size)[k] == s[Offset(k, size) .. Min(Offset(k, size) + size, |s|)]
  {
    assert |s| > size;
    var t := s[size..];
    assert Chunks(s, size)[k] == Chunks(t, size)[k - 1];
    var lo := Offset(k - 1, size);
    var hi := Min(lo + size, |t|);
    assert Offset(k, size) == lo + size;
    assert hi + size == Min(Offset(k, size) + size, |s|);
    SliceOfSuffix(s, size, lo, hi);
  }

  lemma SliceOfSuffix(s: string, d: nat, lo: nat, hi: nat)
    requires d <= |s| && lo <= hi <= |s| - d
    ensures s[d..][lo..hi] == s[d + lo .. d + hi]
  {
  }

  /** There are ⌈|s| / size⌉ pieces: |r| pieces hold |s| characters, |r| - 1 pieces would not. */
  lemma {:induction false} ChunkCount(s: string, size: nat)
    requires size >= 1
    ensures (|Chunks(s, size)| - 1) * size < |s| <= |Chunks(s, size)| * size
    decreases |s|
  {
    if |s| > size {
      var n := |Chunks(s[size..], size)|;
      ChunkCount(s[size..], size);
      assert |Chunks(s, size)| == n + 1;
      assert (n + 1) * size == n * size + size;
    }
  }

  /** At most `m` pieces whenever `s` fits in `m` pieces of `size`. */
  lemma {:induction false} ChunkCountAtMost(s: string, size: nat, m: nat)
    requires size >= 1 && |s| <= m * size
    ensures |Chunks(s, size)| <= m
    decreases |s|
  {
    if |s| > size {
      assert m >= 1;
      assert (m - 1) * size == m * size - size;
      ChunkCountAtMost(s[size..], size, m - 1);
    }
  }

  /** A piece that already fits in one section is cut into exactly itself. */
  lemma ChunksOfShort(s: string, size: nat)
    requires size >= 1 && 0 < |s| <= size
    ensures Chunks(s, size) == [s]
  {
  }

  /** The section size that `setSizes` chooses for preference 1, 2 or 3. */
  function SectionSize(sizePref: int, cmdLen: nat): (size: nat)
    requires 1 <= sizePref <= 3
    ensures size >= 1
  {
    if sizePref == 1 then cmdLen / 10 + 1
    else if sizePref == 2 then cmdLen / 100 + 1
    else 1
  }

  /**
   * What each preference buys: preference 1 cuts the command into at most ten
   * sections, preference 2 into at most a hundred, preference 3 into one
   * section per character.
   */
  lemma SectionSizeCounts(s: string, sizePref: int)
    requires 1 <= sizePref <= 3
    ensures sizePref == 1 ==> |Chunks(s, SectionSize(sizePref, |s|))| <= 10
    ensures sizePref == 2 ==> |Chunks(s, SectionSize(sizePref, |s|))| <= 100
    ensures sizePref == 3 ==> Chunks(s, SectionSize(sizePref, |s|)) == seq(|s|, k requires 0 <= k < |s| => [s[k]])
  {
    var size := SectionSize(sizePref, |s|);
    if sizePref == 1 {
      ChunkCountAtMost(s, size, 10);
    } else if sizePref == 2 {
      ChunkCountAtMost(s, size, 100);
    } else {
      OneCharChunks(s);
    }
  }

  /** With sections of one character, piece `k` is the `k`-th character. */
  lemma {:induction false} OneCharChunks(s: string)
    ensures Chunks(s, 1) == seq(|s|, k requires 0 <= k < |s| => [s[k]])
    decreases |s|
  {
    var want := seq(|s|, k requires 0 <= k < |s| => [s[k]]);
    if |s| == 1 {
      assert s == [s[0]];
    } else if |s| > 1 {
      OneCharChunks(s[1..]);
      assert Chunks(s, 1) == [s[..1]] + Chunks(s[1..], 1);
      assert s[..1] == [s[0]];
      assert want == [[s[0]]] + seq(|s| - 1, k requires 0 <= k < |s| - 1 => [s[1..][k]]);
    }
  }
}
