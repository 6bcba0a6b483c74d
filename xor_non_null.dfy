/**
 * `XorNonNull`: the command is XORed with a key repeated to its length, and a
 * shell loop XORs it back character by character with Perl. A key byte that
 * equals a command byte it meets would turn into a null byte, which a shell
 * variable cannot hold, so `genXorKey` repairs every key slot whose byte
 * occurs among the command characters that slot meets (its stride, positions
 * `i`, `i + keyLen`, ...), drawing a replacement from the characters that
 * occur there not at all; when there is none the key length cannot work and
 * `mutate` tries the next one.
 *
 * The random generator is a parameter: the random key strings `draws` (one
 * per key length tried), the character list they are drawn from, and the
 * variable names. The command is ASCII, so its characters are its bytes.
 */
module XorNonNull {
  import opened Wrappers
  import IndexPattern

  /** A byte of a `bytearray`. */
  newtype Byte = b: int | 0 <= b < 256

  /** Python's `^` on two non-negative integers: bit by bit, from the lowest bit up. */
  function Xor(a: nat, b: nat): nat
    decreases a + b
  {
    if a == 0 && b == 0 then 0
    else 2 * Xor(a / 2, b / 2) + (if a % 2 == b % 2 then 0 else 1)
  }

  /** `x ^ y` on two bytes; the result is a byte again. */
  function XorByte(x: Byte, y: Byte): Byte
  {
    XorBelow(x as nat, y as nat, 8);
    Xor(x as nat, y as nat) as Byte
  }

  predicate IsAscii(s: string)
  {
    forall k :: 0 <= k < |s| ==> s[k] as int < 128
  }

  function ByteOf(c: char): Byte
    requires c as int < 256
  {
    c as int as Byte
  }

  function CharOf(b: Byte): char
  {
    (b as int) as char
  }

  /** `bytearray(s, "utf-8")` for an ASCII string: one byte per character. */
  function BytesOf(s: string): (bytes: seq<Byte>)
    requires IsAscii(s)
  {
    seq(|s|, k requires 0 <= k < |s| => ByteOf(s[k]))
  }

  /** `bytes.decode("utf-8")` for bytes below 128: one character per byte. */
  function CharsOf(bytes: seq<Byte>): (s: string)
  {
    seq(|bytes|, k requires 0 <= k < |bytes| => CharOf(bytes[k]))
  }

  /**
   * `set(userCmd[i::keyLen])`, the characters key slot `i` is XORed with: the
   * command's characters at positions `i`, `i + keyLen`, `i + 2 * keyLen`, ...
   */
  function Stride(userCmd: string, i: nat, keyLen: nat): set<char>
    requires keyLen > 0
    decreases |userCmd| - i
  {
    if i >= |userCmd| then {} else {userCmd[i]} + Stride(userCmd, i + keyLen, keyLen)
  }

  /** Every character of the list occurs in the stride: no byte of the list is safe for that slot. */
  predicate Covers(stride: set<char>, charList: seq<char>)
  {
    forall c :: c in charList ==> c in stride
  }

  /** Some slot of a key of length `keyLen` has no safe character. */
  predicate KeyImpossible(userCmd: string, keyLen: nat, charList: seq<char>)
  {
    exists i :: 0 <= i < keyLen && Covers(Stride(userCmd, i, keyLen), charList)
  }

  /** Every byte of the key comes from the list and differs from every command character its slot meets. */
  predicate SafeKey(key: seq<Byte>, userCmd: string, charList: seq<char>)
  {
    forall i :: 0 <= i < |key| ==> CharOf(key[i]) in charList && CharOf(key[i]) !in Stride(userCmd, i, |key|)
  }

  /** The list offers two different characters. */
  predicate HasTwoChars(charList: seq<char>)
  {
    exists j, k :: 0 <= j < k < |charList| && charList[j] != charList[k]
  }

  predicate NoDuplicates(list: seq<char>)
  {
    forall j, k :: 0 <= j < k < |list| ==> list[j] != list[k]
  }

  // ----- The repair list -----

  /** The list without the characters of `s`, in the list's order. */
  function Without(list: seq<char>, s: set<char>): (r: seq<char>)
    ensures forall c :: c in r <==> c in list && c !in s
  {
    if list == [] then []
    else (if list[0] in s then [] else [list[0]]) + Without(list[1..], s)
  }

  /** `list.remove(c)`: drops the first occurrence of `c`. */
  function RemoveFirst(list: seq<char>, c: char): seq<char>
  {
    if list == [] then []
    else if list[0] == c then list[1..]
    else [list[0]] + RemoveFirst(list[1..], c)
  }

  lemma {:induction false} WithoutIgnores(list: seq<char>, s: set<char>, c: char)
    requires c !in list
    ensures Without(list, s + {c}) == Without(list, s)
  {
    if list != [] {
      WithoutIgnores(list[1..], s, c);
    }
  }

  /** The tail of a duplicate-free list is duplicate-free and lacks its head. */
  lemma NoDuplicatesTail(list: seq<char>)
    requires NoDuplicates(list) && list != []
    ensures NoDuplicates(list[1..]) && list[0] !in list[1..]
  {
    var rest := list[1..];
    forall j, k | 0 <= j < k < |rest|
      ensures rest[j] != rest[k]
    {
      assert rest[j] == list[j + 1] && rest[k] == list[k + 1];
    }
    forall k | 0 <= k < |rest|
      ensures rest[k] != list[0]
    {
      assert rest[k] == list[k + 1];
    }
  }

  /** Removing a character that is still there from a duplicate-free list is leaving it out too. */
  lemma {:induction false} RemoveFirstWithout(list: seq<char>, s: set<char>, c: char)
    requires NoDuplicates(list)
    ensures RemoveFirst(Without(list, s), c) == Without(list, s + {c})
  {
    if list != [] {
      var x, rest := list[0], list[1..];
      NoDuplicatesTail(list);
      if x in s {
        RemoveFirstWithout(rest, s, c);
        assert Without(list, s) == [] + Without(rest, s) == Without(rest, s);
        assert Without(list, s + {c}) == [] + Without(rest, s + {c}) == Without(rest, s + {c});
      } else if x == c {
        WithoutIgnores(rest, s, c);
        assert Without(list, s) == [x] + Without(rest, s);
        assert ([x] + Without(rest, s))[1..] == Without(rest, s);
        assert Without(list, s + {c}) == [] + Without(rest, s + {c});
      } else {
        RemoveFirstWithout(rest, s, c);
        assert Without(list, s) == [x] + Without(rest, s);
        assert ([x] + Without(rest, s))[1..] == Without(rest, s);
        assert Without(list, s + {c}) == [x] + Without(rest, s + {c});
      }
    }
  }

  /**
   * `charBlackList`: a copy of the character list with each character of the
   * stride removed. Despite its name it holds the characters that are safe.
   */
  method RemainingChars(charList: seq<char>, nullchars: set<char>) returns (charBlackList: seq<char>)
    requires NoDuplicates(charList)
    ensures charBlackList == Without(charList, nullchars)
  {
    charBlackList := charList;
    var toVisit := nullchars;
    assert Without(charList, nullchars - toVisit) == charList by {
      assert nullchars - toVisit == {};
      WithoutNothing(charList);
    }
    while toVisit != {}
      invariant toVisit <= nullchars
      invariant charBlackList == Without(charList, nullchars - toVisit)
      decreases |toVisit|
    {
      var ch :| ch in toVisit;
      var visited := nullchars - toVisit;
      if ch in charBlackList {
        RemoveFirstWithout(charList, visited, ch);
        charBlackList := RemoveFirst(charBlackList, ch);
      } else {
        WithoutIgnores(charList, visited, ch);
      }
      assert nullchars - (toVisit - {ch}) == visited + {ch};
      toVisit := toVisit - {ch};
    }
    assert nullchars - toVisit == nullchars;
  }

  lemma {:induction false} WithoutNothing(list: seq<char>)
    ensures Without(list, {}) == list
  {
    if list != [] {
      WithoutNothing(list[1..]);
      assert list == [list[0]] + list[1..];
    }
  }

  // ----- genXorKey -----

  /**
   * The repair of one slot: the characters of the list not in the stride, and
   * the generator's choice among them; None when there are none.
   */
  method SafeChar(charList: seq<char>, nullchars: set<char>) returns (pick: Option<char>)
    requires IsAscii(charList) && NoDuplicates(charList)
    ensures pick.None? <==> Covers(nullchars, charList)
    ensures pick.Some? ==> pick.value in charList && pick.value !in nullchars && pick.value as int < 128
  {
    var charBlackList := RemainingChars(charList, nullchars);
    if |charBlackList| > 0 {
      assert charBlackList[0] in charBlackList;
      var c :| c in charBlackList;
      InAscii(charList, c);
      pick := Some(c);
    } else {
      assert charBlackList == [];
      pick := None;
    }
  }

  /**
   * `genXorKey`. `randomStr` is the random key string of `keyLen` characters
   * from the character list. Each slot whose byte occurs in its stride is
   * replaced by one of the safe characters (which one is the generator's
   * choice); when a slot has none the result is None.
   */
  method GenXorKey(keyLen: nat, userCmd: string, charList: seq<char>, randomStr: string) returns (key: Option<seq<Byte>>)
    requires IsAscii(userCmd) && IsAscii(charList) && NoDuplicates(charList)
    requires |randomStr| == keyLen
    requires forall k :: 0 <= k < keyLen ==> randomStr[k] in charList
    ensures key.Some? ==> |key.value| == keyLen && SafeKey(key.value, userCmd, charList)
    ensures key.Some? ==> forall k :: 0 <= k < keyLen && randomStr[k] !in Stride(userCmd, k, keyLen) ==> key.value[k] == ByteOf(randomStr[k])
    ensures key.None? <==> KeyImpossible(userCmd, keyLen, charList)
  {
    AsciiFromList(randomStr, charList);
    var initial := BytesOf(randomStr);
    BytesRoundTrip(randomStr);
    var xorKeyBytes := new Byte[keyLen](k requires 0 <= k < keyLen => initial[k]);
    for i := 0 to keyLen
      invariant forall k :: 0 <= k < keyLen ==> CharOf(xorKeyBytes[k]) in charList
      invariant forall k :: 0 <= k < i ==> CharOf(xorKeyBytes[k]) !in Stride(userCmd, k, keyLen)
      invariant forall k :: i <= k < keyLen ==> xorKeyBytes[k] == initial[k]
      invariant forall k :: 0 <= k < i && randomStr[k] !in Stride(userCmd, k, keyLen) ==> xorKeyBytes[k] == initial[k]
      invariant forall k :: 0 <= k < i ==> !Covers(Stride(userCmd, k, keyLen), charList)
    {
      var nullchars := Stride(userCmd, i, keyLen);
      if CharOf(xorKeyBytes[i]) in nullchars {
        var pick := SafeChar(charList, nullchars);
        if pick.None? {
          assert Covers(Stride(userCmd, i, keyLen), charList);
          return None;
        }
        ByteOfChar(pick.value);
        xorKeyBytes[i] := ByteOf(pick.value);
      }
    }
    assert !KeyImpossible(userCmd, keyLen, charList);
    key := Some(xorKeyBytes[..]);
    assert SafeKey(key.value, userCmd, charList);
  }

  // ----- mutate -----

  /**
   * The key length `mutate` starts from; it is incremented before the first
   * try. With preference 1 (2) it is one more than the number of whole
   * hundreds (tens) in the command's length; with preference 3 it is that
   * length. It never exceeds a non-empty command's length.
   */
  function InitialKeyLen(sizePref: int, cmdLen: nat): (keyLen: nat)
    requires 1 <= sizePref <= 3
    ensures sizePref == 1 ==> (keyLen - 1) * 100 <= cmdLen < keyLen * 100
    ensures sizePref == 2 ==> (keyLen - 1) * 10 <= cmdLen < keyLen * 10
    ensures sizePref == 3 ==> keyLen == cmdLen
    ensures cmdLen > 0 ==> 1 <= keyLen <= cmdLen
  {
    if sizePref == 1 then cmdLen / 100 + 1
    else if sizePref == 2 then cmdLen / 10 + 1
    else cmdLen
  }

  /** The command's bytes XORed with the key repeated to their length. */
  function XorWith(bytes: seq<Byte>, key: seq<Byte>): (r: seq<Byte>)
    requires |key| > 0
    ensures |r| == |bytes|
  {
    seq(|bytes|, i requires 0 <= i < |bytes| => XorByte(bytes[i], key[i % |key|]))
  }

  /** The command's bytes XORed in place, byte `i` with key byte `i % len(key)`. */
  method XorBytes(userCmd: string, key: seq<Byte>) returns (cipher: seq<Byte>)
    requires IsAscii(userCmd) && |key| > 0
    ensures cipher == XorWith(BytesOf(userCmd), key)
  {
    var cmdBytes := new Byte[|userCmd|](k requires 0 <= k < |userCmd| => ByteOf(userCmd[k]));
    for i := 0 to |userCmd|
      invariant forall k :: 0 <= k < i ==> cmdBytes[k] == XorByte(ByteOf(userCmd[k]), key[k % |key|])
      invariant forall k :: i <= k < |userCmd| ==> cmdBytes[k] == ByteOf(userCmd[k])
    {
      cmdBytes[i] := XorByte(cmdBytes[i], key[i % |key|]);
    }
    cipher := cmdBytes[..];
  }

  /** The five variable names of the payload. */
  datatype Vars = Vars(cmdVar: string, keyVar: string, cmdCharVar: string, keyCharVar: string, iteratorVar: string)

  /** A payload line: a variable assignment, or the decoding loop of lines 249 to 261 as one unit. */
  datatype XorLine =
    | Assign(name: string, literal: string)
    | DecodeLoop(vars: Vars)

  /**
   * The payload for an encoded command: the two assignments, in the mangler's
   * order (`swapped` puts the key first), then the loop.
   */
  function XorPayload(vars: Vars, swapped: bool, escape: string -> string, cipher: seq<Byte>, key: seq<Byte>): (lines: seq<XorLine>)
    ensures |lines| == 3 && lines[2] == DecodeLoop(vars)
    ensures {lines[0], lines[1]} == {Assign(vars.cmdVar, escape(CharsOf(cipher))), Assign(vars.keyVar, escape(CharsOf(key)))}
  {
    var data := Assign(vars.cmdVar, escape(CharsOf(cipher)));
    var keyLine := Assign(vars.keyVar, escape(CharsOf(key)));
    (if swapped then [keyLine, data] else [data, keyLine]) + [DecodeLoop(vars)]
  }

  /** The outcome of a successful `mutate`: the key length that worked, the key, the encoded bytes, the payload. */
  datatype Encoded = Encoded(keyLen: nat, key: seq<Byte>, cipher: seq<Byte>, payload: seq<XorLine>)

  /** `not xorKeyBytes` is false for a key with at least one byte. */
  predicate Truthy(key: Option<seq<Byte>>)
  {
    key.Some? && |key.value| > 0
  }

  /**
   * `XorNonNull.mutate`. Key lengths from `InitialKeyLen + 1` on are tried in
   * turn, try `t` with the random string `draws[t]`, until `genXorKey`
   * succeeds; then the command is XORed with the key in place and the payload
   * emitted. `tried` lists the key lengths tried. None when the draws run out
   * first.
   */
  method Mutate(userCmd: string, sizePref: int, charList: seq<char>, draws: seq<string>,
                vars: Vars, swapped: bool, escape: string -> string)
    returns (outcome: Option<Encoded>, tried: seq<nat>)
    requires 1 <= sizePref <= 3
    requires IsAscii(userCmd) && IsAscii(charList) && NoDuplicates(charList)
    requires forall t :: 0 <= t < |draws| ==> |draws[t]| == InitialKeyLen(sizePref, |userCmd|) + 1 + t
    requires forall t, k :: 0 <= t < |draws| && 0 <= k < |draws[t]| ==> draws[t][k] in charList
    ensures |tried| <= |draws|
    ensures forall t :: 0 <= t < |tried| ==> tried[t] == InitialKeyLen(sizePref, |userCmd|) + 1 + t
    ensures forall t :: 0 <= t < |tried| - 1 ==> KeyImpossible(userCmd, tried[t], charList)
    ensures outcome.None? ==> |tried| == |draws| && forall t :: 0 <= t < |tried| ==> KeyImpossible(userCmd, tried[t], charList)
    ensures outcome.Some? ==>
      var e := outcome.value;
      && |tried| > 0 && e.keyLen == tried[|tried| - 1] && e.keyLen >= 1
      && |e.key| == e.keyLen && SafeKey(e.key, userCmd, charList)
      && e.cipher == XorWith(BytesOf(userCmd), e.key)
      && e.payload == XorPayload(vars, swapped, escape, e.cipher, e.key)
    ensures HasTwoChars(charList) && |draws| >= 1 && InitialKeyLen(sizePref, |userCmd|) + |draws| >= |userCmd| ==> outcome.Some?
  {
    var keyLen := InitialKeyLen(sizePref, |userCmd|);
    var xorKeyBytes: Option<seq<Byte>> := None;
    tried := [];
    while !Truthy(xorKeyBytes)
      invariant |tried| <= |draws|
      invariant keyLen == InitialKeyLen(sizePref, |userCmd|) + |tried|
      invariant forall t :: 0 <= t < |tried| ==> tried[t] == InitialKeyLen(sizePref, |userCmd|) + 1 + t
      invariant !Truthy(xorKeyBytes) ==> forall t :: 0 <= t < |tried| ==> KeyImpossible(userCmd, tried[t], charList)
      invariant Truthy(xorKeyBytes) ==>
        && |tried| > 0 && keyLen == tried[|tried| - 1]
        && |xorKeyBytes.value| == keyLen && SafeKey(xorKeyBytes.value, userCmd, charList)
        && forall t :: 0 <= t < |tried| - 1 ==> KeyImpossible(userCmd, tried[t], charList)
      decreases |draws| - |tried|, if Truthy(xorKeyBytes) then 0 else 1
    {
      if |tried| == |draws| {
        if HasTwoChars(charList) && |draws| >= 1 && InitialKeyLen(sizePref, |userCmd|) + |draws| >= |userCmd| {
          LongKeyPossible(userCmd, tried[|tried| - 1], charList);
          assert false;
        }
        return None, tried;
      }
      keyLen := keyLen + 1;
      xorKeyBytes := GenXorKey(keyLen, userCmd, charList, draws[|tried|]);
      tried := tried + [keyLen];
    }
    var key := xorKeyBytes.value;

    var cipher := XorBytes(userCmd, key);

    var xorKey := escape(CharsOf(key));
    var data := escape(CharsOf(cipher));
    var variableInstantiations := if swapped then [Assign(vars.keyVar, xorKey), Assign(vars.cmdVar, data)]
                                  else [Assign(vars.cmdVar, data), Assign(vars.keyVar, xorKey)];
    var payload := variableInstantiations + [DecodeLoop(vars)];
    outcome := Some(Encoded(keyLen, key, cipher, payload));
  }

  // ----- What the payload computes -----

  /** Shell variables. */
  type Env = map<string, string>

  /**
   * The decoding loop: for each position `i` of the command variable, Perl
   * prints the XOR of its character with the key's character at `i % len(key)`.
   * A key of zero length makes the shell's `%` fail: nothing is printed.
   */
  function LoopOutput(cmdValue: string, keyValue: string): string
  {
    if |keyValue| == 0 then [] else
    seq(|cmdValue|, i requires 0 <= i < |cmdValue| => CharOf(XorByte(LowByte(cmdValue[i]), LowByte(keyValue[i % |keyValue|]))))
  }

  /** The byte Perl's `ord` gives for a character below 256. */
  function LowByte(c: char): Byte
  {
    (c as int % 256) as Byte
  }

  /** Runs the payload lines: assignments bind variables, the loop appends its output. */
  function RunXor(env: Env, out: string, lines: seq<XorLine>, unquote: string -> string): string
    decreases |lines|
  {
    if lines == [] then out
    else match lines[0]
      case Assign(name, literal) => RunXor(env[name := unquote(literal)], out, lines[1..], unquote)
      case DecodeLoop(vars) =>
        var cmdValue := if vars.cmdVar in env then env[vars.cmdVar] else [];
        var keyValue := if vars.keyVar in env then env[vars.keyVar] else [];
        RunXor(env, out + LoopOutput(cmdValue, keyValue), lines[1..], unquote)
  }

  // ----- Properties -----

  lemma ByteOfChar(c: char)
    requires c as int < 256
    ensures ByteOf(c) as int == c as int && CharOf(ByteOf(c)) == c
  {
  }

  lemma AsciiFromList(s: string, charList: seq<char>)
    requires IsAscii(charList)
    requires forall k :: 0 <= k < |s| ==> s[k] in charList
    ensures IsAscii(s)
  {
    forall k | 0 <= k < |s|
      ensures s[k] as int < 128
    {
      InAscii(charList, s[k]);
    }
  }

  /** Reading the bytes of an ASCII string back as characters gives the string. */
  lemma BytesRoundTrip(s: string)
    requires IsAscii(s)
    ensures forall k :: 0 <= k < |s| ==> CharOf(BytesOf(s)[k]) == s[k]
  {
    forall k | 0 <= k < |s|
      ensures CharOf(BytesOf(s)[k]) == s[k]
    {
      ByteOfChar(s[k]);
    }
  }

  lemma CharOfByte(b: Byte)
    ensures CharOf(b) as int == b as int && LowByte(CharOf(b)) == b
  {
  }

  lemma InAscii(s: string, c: char)
    requires IsAscii(s) && c in s
    ensures c as int < 128
  {
    var k :| 0 <= k < |s| && s[k] == c;
  }

  /** XOR of numbers below `2^k` stays below `2^k`. */
  lemma {:induction false} XorBelow(a: nat, b: nat, k: nat)
    requires a < IndexPattern.Pow2(k) && b < IndexPattern.Pow2(k)
    ensures Xor(a, b) < IndexPattern.Pow2(k)
    decreases k
  {
    if k > 0 && !(a == 0 && b == 0) {
      XorBelow(a / 2, b / 2, k - 1);
    }
  }

  /** XOR is 0 exactly when both sides are equal, which is where a null byte comes from. */
  lemma {:induction false} XorZero(a: nat, b: nat)
    ensures Xor(a, b) == 0 <==> a == b
    decreases a + b
  {
    if !(a == 0 && b == 0) {
      XorZero(a / 2, b / 2);
    }
  }

  /** XORing twice with the same number gives the first one back. */
  lemma {:induction false} XorTwice(a: nat, b: nat)
    ensures Xor(Xor(a, b), b) == a
    decreases a + b
  {
    var c := Xor(a, b);
    if a == 0 && b == 0 {
    } else {
      XorTwice(a / 2, b / 2);
      assert c / 2 == Xor(a / 2, b / 2) && c % 2 == (if a % 2 == b % 2 then 0 else 1);
      if c == 0 && b == 0 {
        XorZero(a, b);
      } else {
        assert Xor(c, b) == 2 * Xor(c / 2, b / 2) + (if c % 2 == b % 2 then 0 else 1);
      }
    }
  }

  lemma XorFacts(a: Byte, b: Byte)
    ensures XorByte(a, b) == 0 <==> a == b
    ensures a < 128 && b < 128 ==> XorByte(a, b) < 128
    ensures XorByte(XorByte(a, b), b) == a
  {
    XorZero(a as nat, b as nat);
    XorTwice(a as nat, b as nat);
    if a < 128 && b < 128 {
      assert IndexPattern.Pow2(7) == 128;
      XorBelow(a as nat, b as nat, 7);
    }
  }

  /** One position of the encoded command: neither 0 nor above 127. */
  lemma XorByteSafe(userCmd: string, key: seq<Byte>, charList: seq<char>, i: nat)
    requires IsAscii(userCmd) && IsAscii(charList) && |key| > 0 && i < |userCmd|
    requires SafeKey(key, userCmd, charList)
    ensures XorByte(ByteOf(userCmd[i]), key[i % |key|]) != 0
    ensures XorByte(ByteOf(userCmd[i]), key[i % |key|]) < 128
  {
    var slot := i % |key|;
    var b, k := ByteOf(userCmd[i]), key[slot];
    InOwnStride(userCmd, |key|, i);
    assert CharOf(k) != userCmd[i] && CharOf(k) in charList;
    InAscii(charList, CharOf(k));
    CharOfByte(k);
    ByteOfChar(userCmd[i]);
    XorFacts(b, k);
  }

  /** With a safe key no byte of the encoded command is 0, and for ASCII all stay below 128. */
  lemma XorNoNull(userCmd: string, key: seq<Byte>, charList: seq<char>)
    requires IsAscii(userCmd) && IsAscii(charList) && |key| > 0
    requires SafeKey(key, userCmd, charList)
    ensures forall i :: 0 <= i < |userCmd| ==> XorWith(BytesOf(userCmd), key)[i] != 0
    ensures forall i :: 0 <= i < |userCmd| ==> XorWith(BytesOf(userCmd), key)[i] < 128
  {
    forall i | 0 <= i < |userCmd|
      ensures XorWith(BytesOf(userCmd), key)[i] != 0 && XorWith(BytesOf(userCmd), key)[i] < 128
    {
      XorByteSafe(userCmd, key, charList, i);
    }
  }

  /** XORing with the repeated key twice gives the bytes back. */
  lemma XorInvolutive(bytes: seq<Byte>, key: seq<Byte>)
    requires |key| > 0
    ensures XorWith(XorWith(bytes, key), key) == bytes
  {
    forall i | 0 <= i < |bytes|
      ensures XorWith(XorWith(bytes, key), key)[i] == bytes[i]
    {
      XorFacts(bytes[i], key[i % |key|]);
    }
  }

  /** The decoding loop, run on the encoded command and the key as strings, prints the command. */
  lemma LoopDecodes(userCmd: string, key: seq<Byte>)
    requires IsAscii(userCmd) && |key| > 0
    ensures LoopOutput(CharsOf(XorWith(BytesOf(userCmd), key)), CharsOf(key)) == userCmd
  {
    var cipher := XorWith(BytesOf(userCmd), key);
    var cmdValue, keyValue := CharsOf(cipher), CharsOf(key);
    var out := LoopOutput(cmdValue, keyValue);
    forall i | 0 <= i < |userCmd|
      ensures out[i] == userCmd[i]
    {
      var b, k := ByteOf(userCmd[i]), key[i % |key|];
      CharOfByte(cipher[i]);
      CharOfByte(k);
      XorFacts(b, k);
      ByteOfChar(userCmd[i]);
    }
  }

  /** Running the payload binds both variables and then runs the loop on them, whichever order the assignments take. */
  lemma RunPayload(vars: Vars, swapped: bool, escape: string -> string, unquote: string -> string,
                   cipher: seq<Byte>, key: seq<Byte>, env: Env)
    requires forall s :: unquote(escape(s)) == s
    requires vars.cmdVar != vars.keyVar
    ensures RunXor(env, [], XorPayload(vars, swapped, escape, cipher, key), unquote) == LoopOutput(CharsOf(cipher), CharsOf(key))
  {
    var lines := XorPayload(vars, swapped, escape, cipher, key);
    var cmdValue, keyValue := CharsOf(cipher), CharsOf(key);
    var data := Assign(vars.cmdVar, escape(cmdValue));
    var keyLine := Assign(vars.keyVar, escape(keyValue));
    var loop := [DecodeLoop(vars)];
    assert unquote(escape(cmdValue)) == cmdValue && unquote(escape(keyValue)) == keyValue;
    var env2 := if swapped then env[vars.keyVar := keyValue][vars.cmdVar := cmdValue]
                else env[vars.cmdVar := cmdValue][vars.keyVar := keyValue];
    if swapped {
      assert lines == [keyLine, data] + loop;
      RunTwoAssigns(env, keyLine, data, loop, unquote);
    } else {
      assert lines == [data, keyLine] + loop;
      RunTwoAssigns(env, data, keyLine, loop, unquote);
    }
    assert RunXor(env, [], lines, unquote) == RunXor(env2, [], loop, unquote);
    assert env2[vars.cmdVar] == cmdValue && env2[vars.keyVar] == keyValue;
    assert loop[1..] == [];
  }

  lemma RunTwoAssigns(env: Env, first: XorLine, second: XorLine, rest: seq<XorLine>, unquote: string -> string)
    requires first.Assign? && second.Assign?
    ensures RunXor(env, [], [first, second] + rest, unquote)
         == RunXor(env[first.name := unquote(first.literal)][second.name := unquote(second.literal)], [], rest, unquote)
  {
    var lines := [first, second] + rest;
    assert lines[1..] == [second] + rest;
    assert lines[1..][1..] == rest;
  }

  /**
   * The payload round trip: with the two assignments read back as written and
   * distinct names for the command and key variables, the shell prints the
   * command.
   */
  lemma XorRoundTrip(userCmd: string, key: seq<Byte>, vars: Vars, swapped: bool,
                     escape: string -> string, unquote: string -> string, env: Env)
    requires IsAscii(userCmd) && |key| > 0
    requires forall s :: unquote(escape(s)) == s
    requires vars.cmdVar != vars.keyVar
    ensures RunXor(env, [], XorPayload(vars, swapped, escape, XorWith(BytesOf(userCmd), key), key), unquote) == userCmd
  {
    RunPayload(vars, swapped, escape, unquote, XorWith(BytesOf(userCmd), key), key, env);
    LoopDecodes(userCmd, key);
  }

  /** With a key at least as long as the command every stride holds at most the one character of its slot. */
  lemma LongKeyStride(userCmd: string, keyLen: nat, i: nat)
    requires |userCmd| <= keyLen && i < keyLen
    ensures Stride(userCmd, i, keyLen) <= (if i < |userCmd| then {userCmd[i]} else {})
  {
    if i < |userCmd| {
      assert Stride(userCmd, i + keyLen, keyLen) == {};
    }
  }

  /** The character at `start + m * keyLen` is in the stride that starts at `start`. */
  lemma {:induction false} StrideHas(userCmd: string, start: nat, keyLen: nat, m: nat)
    requires keyLen > 0 && start + m * keyLen < |userCmd|
    ensures userCmd[start + m * keyLen] in Stride(userCmd, start, keyLen)
    decreases m
  {
    if m > 0 {
      assert start + m * keyLen == (start + keyLen) + (m - 1) * keyLen;
      StrideHas(userCmd, start + keyLen, keyLen, m - 1);
    }
  }

  /**
   * The stride starting at `start` holds exactly the characters at positions
   * `start + m * keyLen`: the set of `userCmd[start::keyLen]`.
   */
  lemma {:induction false} StrideMembers(userCmd: string, start: nat, keyLen: nat, c: char)
    requires keyLen > 0
    ensures c in Stride(userCmd, start, keyLen)
            <==> exists m: nat :: start + m * keyLen < |userCmd| && userCmd[start + m * keyLen] == c
    decreases |userCmd| - start
  {
    if start < |userCmd| {
      StrideMembers(userCmd, start + keyLen, keyLen, c);
      if c in Stride(userCmd, start, keyLen) {
        if c == userCmd[start] {
          assert start + 0 * keyLen < |userCmd| && userCmd[start + 0 * keyLen] == c;
        } else {
          var m: nat :| start + keyLen + m * keyLen < |userCmd| && userCmd[start + keyLen + m * keyLen] == c;
          assert start + (m + 1) * keyLen == start + keyLen + m * keyLen;
        }
      }
      if m: nat :| start + m * keyLen < |userCmd| && userCmd[start + m * keyLen] == c {
        if m > 0 {
          assert start + keyLen + (m - 1) * keyLen == start + m * keyLen;
        }
      }
    }
  }

  /** A command character lies in the stride of the slot it meets. */
  lemma InOwnStride(userCmd: string, keyLen: nat, j: nat)
    requires j < |userCmd| && keyLen > 0
    ensures j % keyLen < keyLen && userCmd[j] in Stride(userCmd, j % keyLen, keyLen)
  {
    assert j == j % keyLen + (j / keyLen) * keyLen;
    StrideHas(userCmd, j % keyLen, keyLen, j / keyLen);
  }

  /** A list of two different characters always leaves a safe one once the key is as long as the command. */
  lemma LongKeyPossible(userCmd: string, keyLen: nat, charList: seq<char>)
    requires |userCmd| <= keyLen
    requires HasTwoChars(charList)
    ensures !KeyImpossible(userCmd, keyLen, charList)
  {
    var j, k :| 0 <= j < k < |charList| && charList[j] != charList[k];
    forall i | 0 <= i < keyLen
      ensures !Covers(Stride(userCmd, i, keyLen), charList)
    {
      LongKeyStride(userCmd, keyLen, i);
      assert charList[j] !in Stride(userCmd, i, keyLen) || charList[k] !in Stride(userCmd, i, keyLen);
    }
  }
}
