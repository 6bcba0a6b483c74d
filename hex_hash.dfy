/**
 * `HexHash`: every character of the command is printed as `\xHH`, with the two
 * hex digits HH cut out of the md5 digest of a random string. For each
 * character the obfuscator draws random strings until one's digest contains
 * the character's hex digits, and emits a line that recomputes that digest in
 * the shell and cuts the digits out of it with `cut -b`.
 *
 * md5 is a parameter `md5: string -> string` (the hex digest of a string);
 * the random strings are the sequence `draws`, used up front to back; when
 * they run out before a match is found the model gives `None`, where the
 * source would go on drawing.
 */
module HexHash {
  import opened Wrappers

  /** The digits `bytes.hex()` writes, in lower case. */
  const HexDigits: string := "0123456789abcdef"

  predicate IsAscii(s: string)
  {
    forall k :: 0 <= k < |s| ==> s[k] as int < 128
  }

  /** `bytes(ch, "utf-8").hex()` for an ASCII character: its code as two lower-case hex digits. */
  function HexOf(ch: char): (hex: string)
    requires ch as int < 128
    ensures |hex| == 2
  {
    [HexDigits[ch as int / 16], HexDigits[ch as int % 16]]
  }

  /** The value of a hex digit in either case, as the shell's `printf` reads it after `\x`. */
  function DigitValue(c: char): Option<nat>
  {
    if '0' <= c <= '9' then Some(c as int - '0' as int)
    else if 'a' <= c <= 'f' then Some(c as int - 'a' as int + 10)
    else if 'A' <= c <= 'F' then Some(c as int - 'A' as int + 10)
    else None
  }

  /** The character `printf "\xHH"` prints for two hex digits HH, or None when they are not two hex digits. */
  function Unhex(hex: string): Option<char>
  {
    if |hex| != 2 then None
    else match (DigitValue(hex[0]), DigitValue(hex[1]))
      case (Some(hi), Some(lo)) => Some((16 * hi + lo) as char)
      case _ => None
  }

  /** The two digits `HexOf` writes are read back as the character. */
  lemma UnhexOfHex(ch: char)
    requires ch as int < 128
    ensures Unhex(HexOf(ch)) == Some(ch)
  {
    var hex := HexOf(ch);
    var hi, lo := ch as int / 16, ch as int % 16;
    assert DigitValue(hex[0]) == Some(hi) by {
      assert hex[0] == HexDigits[hi];
    }
    assert DigitValue(hex[1]) == Some(lo) by {
      assert hex[1] == HexDigits[lo];
      assert lo < 10 ==> HexDigits[lo] == ('0' as int + lo) as char;
      assert lo >= 10 ==> HexDigits[lo] == ('a' as int + lo - 10) as char;
    }
  }

  /** `t` occurs in `s` at offset `k`. */
  predicate OccursAt(s: string, t: string, k: int)
  {
    0 <= k && k + |t| <= |s| && s[k..k + |t|] == t
  }

  /** `s.find(t)` started at `from`. */
  function FindFrom(s: string, t: string, from: nat): (r: int)
    ensures r >= -1
    decreases |s| - from
  {
    if from + |t| > |s| then -1
    else if s[from..from + |t|] == t then from
    else FindFrom(s, t, from + 1)
  }

  /** `s.find(t)`; `t in s` is `Find(s, t) >= 0`. */
  function Find(s: string, t: string): (r: int)
    ensures r >= -1
  {
    FindFrom(s, t, 0)
  }

  /** `FindFrom` gives the first offset from `from` on where `t` occurs, or -1 when there is none. */
  lemma {:induction false} FindFromFirst(s: string, t: string, from: nat)
    ensures var r := FindFrom(s, t, from);
            && (r == -1 || (from <= r && OccursAt(s, t, r)))
            && (forall k :: from <= k && (r == -1 || k < r) ==> !OccursAt(s, t, k))
    decreases |s| - from
  {
    if from + |t| <= |s| && s[from..from + |t|] != t {
      FindFromFirst(s, t, from + 1);
    }
  }

  /** `s.find(t)` is the first offset where `t` occurs in `s`, and -1 exactly when it occurs nowhere. */
  lemma FindFirst(s: string, t: string)
    ensures Find(s, t) == -1 || OccursAt(s, t, Find(s, t))
    ensures forall k :: 0 <= k && (Find(s, t) == -1 || k < Find(s, t)) ==> !OccursAt(s, t, k)
  {
    FindFromFirst(s, t, 0);
  }

  /** What `md5sum` prints after the digest of its standard input (the line's end is dropped by `$(...)`). */
  const Md5sumSuffix: string := "  -"

  /** `cut -b first-last` on one line: the bytes `first` to `last`, counted from 1, both included. */
  function Cut(line: string, first: nat, last: nat): (field: string)
    ensures |field| <= |line|
  {
    if first < 1 || last < first || first > |line| then []
    else line[first - 1 .. if last <= |line| then last else |line|]
  }

  /** A payload line: `printf "\x$(printf %s 'seed' | md5sum | cut -b first-last)"`. */
  datatype DigestLine = DigestLine(seed: string, first: nat, last: nat)

  /** What the shell prints for one line. */
  function DecodeLine(line: DigestLine, md5: string -> string): Option<char>
  {
    Unhex(Cut(md5(line.seed) + Md5sumSuffix, line.first, line.last))
  }

  /** What the shell prints for the whole payload, or None when some line prints no single character. */
  function Decode(lines: seq<DigestLine>, md5: string -> string): Option<string>
  {
    if lines == [] then Some([])
    else match (DecodeLine(lines[0], md5), Decode(lines[1..], md5))
      case (Some(c), Some(rest)) => Some([c] + rest)
      case _ => None
  }

  /** The first draw from `from` on whose digest contains `hex`. */
  function Search(draws: seq<string>, from: nat, hex: string, md5: string -> string): (r: Option<nat>)
    ensures r.Some? ==> from <= r.value < |draws|
    decreases |draws| - from
  {
    if from >= |draws| then None
    else if Find(md5(draws[from]), hex) >= 0 then Some(from)
    else Search(draws, from + 1, hex, md5)
  }

  /** `Search` finds the first matching draw, and None only when no later draw matches. */
  lemma {:induction false} SearchFirst(draws: seq<string>, from: nat, hex: string, md5: string -> string)
    ensures var r := Search(draws, from, hex, md5);
            && (r.Some? ==> Find(md5(draws[r.value]), hex) >= 0)
            && (r.Some? ==> forall j :: from <= j < r.value ==> Find(md5(draws[j]), hex) < 0)
            && (r.None? ==> forall j :: from <= j < |draws| ==> Find(md5(draws[j]), hex) < 0)
    decreases |draws| - from
  {
    if from < |draws| && Find(md5(draws[from]), hex) < 0 {
      SearchFirst(draws, from + 1, hex, md5);
    }
  }

  /** The line for a character whose hex digits were found in the digest of `seed`. */
  function LineFor(seed: string, hex: string, md5: string -> string): DigestLine
  {
    var index := Find(md5(seed), hex);
    DigestLine(seed, index + 1, index + 2)
  }

  /**
   * The lines `mutate` emits for `cmd` when the random strings are drawn from
   * `draws[from..]`; None when they run out.
   */
  function Encode(cmd: string, draws: seq<string>, from: nat, md5: string -> string): Option<seq<DigestLine>>
    requires IsAscii(cmd)
    decreases |cmd|
  {
    if cmd == [] then Some([])
    else
      var hex := HexOf(cmd[0]);
      match Search(draws, from, hex, md5)
      case None => None
      case Some(j) =>
        match Encode(cmd[1..], draws, j + 1, md5)
        case None => None
        case Some(rest) => Some([LineFor(draws[j], hex, md5)] + rest)
  }

  /** Lines emitted so far followed by those still to come. */
  function Prepend(done: seq<DigestLine>, rest: Option<seq<DigestLine>>): Option<seq<DigestLine>>
  {
    match rest
    case None => None
    case Some(r) => Some(done + r)
  }

  lemma PrependAppend(done: seq<DigestLine>, more: seq<DigestLine>, rest: Option<seq<DigestLine>>)
    ensures Prepend(done, Prepend(more, rest)) == Prepend(done + more, rest)
  {
    if rest.Some? {
      assert done + (more + rest.value) == (done + more) + rest.value;
    }
  }

  /** The lines from character `i` on: the first match for it, then the lines of the characters after it. */
  lemma EncodeStep(cmd: string, i: nat, draws: seq<string>, from: nat, md5: string -> string)
    requires IsAscii(cmd) && i < |cmd|
    ensures var j := Search(draws, from, HexOf(cmd[i]), md5);
            && (j.None? ==> Encode(cmd[i..], draws, from, md5) == None)
            && (j.Some? ==>
                  Encode(cmd[i..], draws, from, md5)
                  == Prepend([LineFor(draws[j.value], HexOf(cmd[i]), md5)], Encode(cmd[i + 1..], draws, j.value + 1, md5)))
  {
    assert cmd[i..][0] == cmd[i];
    assert cmd[i..][1..] == cmd[i + 1..];
  }

  /**
   * The inner loop of `HexHash.mutate`: draw random strings from `draws[from..]`
   * until the digest of one contains `hex`. `found` is false when the draws run
   * out first; otherwise `next - 1` is the draw that matched.
   */
  method DrawUntilFound(draws: seq<string>, from: nat, hex: string, md5: string -> string)
    returns (randomString: string, randomhash: string, next: nat, found: bool)
    requires from <= |draws| && |hex| == 2
    ensures from <= next <= |draws|
    ensures !found ==> Search(draws, from, hex, md5) == None
    ensures found ==> && from < next
                      && Search(draws, from, hex, md5) == Some(next - 1)
                      && randomString == draws[next - 1]
                      && randomhash == md5(randomString)
  {
    randomhash := "";
    randomString := "";
    next := from;
    assert Find(randomhash, hex) == -1;
    while Find(randomhash, hex) < 0
      invariant from <= next <= |draws|
      invariant Find(randomhash, hex) < 0 ==> Search(draws, from, hex, md5) == Search(draws, next, hex, md5)
      invariant Find(randomhash, hex) >= 0 ==>
        && from < next
        && Search(draws, from, hex, md5) == Some(next - 1)
        && randomString == draws[next - 1]
        && randomhash == md5(randomString)
      decreases |draws| - next, if Find(randomhash, hex) < 0 then 1 else 0
    {
      if next == |draws| {
        return randomString, randomhash, next, false;
      }
      randomString := draws[next];
      randomhash := md5(randomString);
      next := next + 1;
    }
    found := true;
  }

  /**
   * One character further: the lines still owed for `cmd[i..]` after `payload`
   * are the line of the first matching draw, then those for `cmd[i + 1..]`.
   */
  lemma EncodeAdvance(payload: seq<DigestLine>, cmd: string, i: nat, draws: seq<string>, from: nat, md5: string -> string)
    requires IsAscii(cmd) && i < |cmd|
    ensures var j := Search(draws, from, HexOf(cmd[i]), md5);
            && (j.None? ==> Prepend(payload, Encode(cmd[i..], draws, from, md5)) == None)
            && (j.Some? ==>
                  Prepend(payload, Encode(cmd[i..], draws, from, md5))
                  == Prepend(payload + [LineFor(draws[j.value], HexOf(cmd[i]), md5)], Encode(cmd[i + 1..], draws, j.value + 1, md5)))
  {
    EncodeStep(cmd, i, draws, from, md5);
    var j := Search(draws, from, HexOf(cmd[i]), md5);
    if j.Some? {
      PrependAppend(payload, [LineFor(draws[j.value], HexOf(cmd[i]), md5)], Encode(cmd[i + 1..], draws, j.value + 1, md5));
    }
  }

  /**
   * `HexHash.mutate`. For each character, draw until the digest contains its
   * hex digits, then emit the line that cuts them out at the first place
   * they occur.
   */
  method Mutate(userCmd: string, draws: seq<string>, md5: string -> string) returns (lines: Option<seq<DigestLine>>)
    requires IsAscii(userCmd)
    ensures lines == Encode(userCmd, draws, 0, md5)
  {
    ghost var want := Encode(userCmd, draws, 0, md5);
    var payload: seq<DigestLine> := [];
    var next := 0;
    assert userCmd[0..] == userCmd;
    assert Prepend(payload, want) == want by {
      if want.Some? {
        assert payload + want.value == want.value;
      }
    }
    for i := 0 to |userCmd|
      invariant next <= |draws|
      invariant want == Prepend(payload, Encode(userCmd[i..], draws, next, md5))
    {
      var hexchar := HexOf(userCmd[i]);
      var start := next;
      var randomString, randomhash, found;
      randomString, randomhash, next, found := DrawUntilFound(draws, start, hexchar, md5);
      EncodeAdvance(payload, userCmd, i, draws, start, md5);
      if !found {
        return None;
      }
      var index := Find(randomhash, hexchar);
      var line := DigestLine(randomString, index + 1, index + 2);
      assert line == LineFor(draws[next - 1], hexchar, md5);
      payload := payload + [line];
    }
    assert userCmd[|userCmd|..] == [];
    assert payload + [] == payload;
    lines := Some(payload);
  }

  /** The `cut` range of a line selects exactly the two digits where they were found. */
  lemma CutSelects(digest: string, hex: string, index: int)
    requires |hex| == 2 && OccursAt(digest, hex, index)
    ensures Cut(digest + Md5sumSuffix, index + 1, index + 2) == hex
  {
    assert (digest + Md5sumSuffix)[index .. index + 2] == digest[index .. index + 2];
  }

  /**
   * The line for `ch` names a string whose digest holds the hex digits of
   * `ch`, and its `cut` range is the two bytes just after the first place
   * they occur.
   */
  predicate CutsHexOf(line: DigestLine, ch: char, md5: string -> string)
    requires ch as int < 128
  {
    && line.first >= 1
    && OccursAt(md5(line.seed), HexOf(ch), line.first - 1)
    && (forall p :: 0 <= p < line.first - 1 ==> !OccursAt(md5(line.seed), HexOf(ch), p))
    && line.last == line.first + 1
  }

  /** A line made for a digest that holds the hex digits cuts them out where they first occur. */
  lemma LineForCuts(seed: string, ch: char, md5: string -> string)
    requires ch as int < 128
    requires Find(md5(seed), HexOf(ch)) >= 0
    ensures CutsHexOf(LineFor(seed, HexOf(ch), md5), ch, md5)
  {
    FindFirst(md5(seed), HexOf(ch));
  }

  /** One line per character, each cutting out that character's hex digits where they first occur. */
  lemma EncodeShape(cmd: string, draws: seq<string>, from: nat, md5: string -> string)
    requires IsAscii(cmd)
    requires Encode(cmd, draws, from, md5).Some?
    ensures |Encode(cmd, draws, from, md5).value| == |cmd|
    ensures forall k :: 0 <= k < |cmd| ==> CutsHexOf(Encode(cmd, draws, from, md5).value[k], cmd[k], md5)
  {
    EncodeLength(cmd, draws, from, md5);
    EncodeCuts(cmd, draws, from, md5);
  }

  lemma {:induction false} EncodeLength(cmd: string, draws: seq<string>, from: nat, md5: string -> string)
    requires IsAscii(cmd)
    requires Encode(cmd, draws, from, md5).Some?
    ensures |Encode(cmd, draws, from, md5).value| == |cmd|
    decreases |cmd|
  {
    if cmd != [] {
      var j := Search(draws, from, HexOf(cmd[0]), md5).value;
      EncodeLength(cmd[1..], draws, j + 1, md5);
    }
  }

  lemma {:induction false} EncodeCuts(cmd: string, draws: seq<string>, from: nat, md5: string -> string)
    requires IsAscii(cmd)
    requires Encode(cmd, draws, from, md5).Some? && |Encode(cmd, draws, from, md5).value| == |cmd|
    ensures forall k :: 0 <= k < |cmd| ==> CutsHexOf(Encode(cmd, draws, from, md5).value[k], cmd[k], md5)
    decreases |cmd|
  {
    if cmd != [] {
      var hex := HexOf(cmd[0]);
      var j := Search(draws, from, hex, md5).value;
      var rest := Encode(cmd[1..], draws, j + 1, md5).value;
      var lines := Encode(cmd, draws, from, md5).value;
      assert lines == [LineFor(draws[j], hex, md5)] + rest;
      EncodeCuts(cmd[1..], draws, j + 1, md5);
      SearchFirst(draws, from, hex, md5);
      LineForCuts(draws[j], cmd[0], md5);
      forall k | 1 <= k < |cmd|
        ensures CutsHexOf(lines[k], cmd[k], md5)
      {
        assert cmd[k] == cmd[1..][k - 1] && lines[k] == rest[k - 1];
      }
    }
  }

  /** Running the payload in the shell prints the command back. */
  lemma {:induction false} EncodeDecodes(cmd: string, draws: seq<string>, from: nat, md5: string -> string)
    requires IsAscii(cmd)
    requires Encode(cmd, draws, from, md5).Some?
    ensures Decode(Encode(cmd, draws, from, md5).value, md5) == Some(cmd)
    decreases |cmd|
  {
    if cmd != [] {
      var hex := HexOf(cmd[0]);
      var j := Search(draws, from, hex, md5).value;
      var seed := draws[j];
      var lines := Encode(cmd, draws, from, md5).value;
      EncodeDecodes(cmd[1..], draws, j + 1, md5);
      assert lines[1..] == Encode(cmd[1..], draws, j + 1, md5).value;
      SearchFirst(draws, from, hex, md5);
      LineForDecodes(seed, cmd[0], md5);
      assert [cmd[0]] + cmd[1..] == cmd;
    }
  }

  /** The line made for a character, from a digest that holds its hex digits, prints that character. */
  lemma LineForDecodes(seed: string, ch: char, md5: string -> string)
    requires ch as int < 128
    requires Find(md5(seed), HexOf(ch)) >= 0
    ensures DecodeLine(LineFor(seed, HexOf(ch), md5), md5) == Some(ch)
  {
    var hex := HexOf(ch);
    FindFirst(md5(seed), hex);
    CutSelects(md5(seed), hex, Find(md5(seed), hex));
    UnhexOfHex(ch);
  }
}
