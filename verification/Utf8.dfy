/** Decoding UTF-8 one character at a time, checked against the encoding and the grammar of RFC 3629. */
module Utf8 {

  type byte = b: int | 0 <= b < 256

  const UTF_INVALID := 0xFFFD

  /** The byte at i of a string that ends with a NUL byte. */
  function At(s: seq<byte>, i: nat): byte
    requires i <= |s|
  {
    if i < |s| then s[i] else 0
  }

  predicate Continuation(b: byte) {
    b / 64 == 2
  }

  // ---- RFC 3629 ----------------------------------------------------------------------------------

  /** A Unicode scalar value. */
  predicate Scalar(cp: int) {
    0 <= cp <= 0x10FFFF && !(0xD800 <= cp <= 0xDFFF)
  }

  /** Section 3: the octets of a character. */
  function Encode(cp: int): (e: seq<byte>)
    requires Scalar(cp)
    ensures 1 <= |e| <= 4
  {
    if cp < 0x80 then [cp]
    else if cp < 0x800 then [0xC0 + cp / 64, 0x80 + cp % 64]
    else if cp < 0x10000 then [0xE0 + cp / 4096, 0x80 + cp / 64 % 64, 0x80 + cp % 64]
    else [0xF0 + cp / 262144, 0x80 + cp / 4096 % 64, 0x80 + cp / 64 % 64, 0x80 + cp % 64]
  }

  predicate Tail(s: seq<byte>, i: nat) {
    i < |s| && 0x80 <= s[i] <= 0xBF
  }

  predicate Between(s: seq<byte>, i: nat, lo: int, hi: int) {
    i < |s| && lo <= s[i] <= hi
  }

  /** Section 4: the length of the well-formed character at the beginning of s, 0 if there is none. */
  function WellFormed(s: seq<byte>): (n: nat)
    ensures n <= |s| && n <= 4
  {
    if Between(s, 0, 0x00, 0x7F) then 1
    else if Between(s, 0, 0xC2, 0xDF) && Tail(s, 1) then 2
    else if Between(s, 0, 0xE0, 0xE0) && Between(s, 1, 0xA0, 0xBF) && Tail(s, 2) then 3
    else if Between(s, 0, 0xE1, 0xEC) && Tail(s, 1) && Tail(s, 2) then 3
    else if Between(s, 0, 0xED, 0xED) && Between(s, 1, 0x80, 0x9F) && Tail(s, 2) then 3
    else if Between(s, 0, 0xEE, 0xEF) && Tail(s, 1) && Tail(s, 2) then 3
    else if Between(s, 0, 0xF0, 0xF0) && Between(s, 1, 0x90, 0xBF) && Tail(s, 2) && Tail(s, 3) then 4
    else if Between(s, 0, 0xF1, 0xF3) && Tail(s, 1) && Tail(s, 2) && Tail(s, 3) then 4
    else if Between(s, 0, 0xF4, 0xF4) && Between(s, 1, 0x80, 0x8F) && Tail(s, 2) && Tail(s, 3) then 4
    else 0
  }

  // ---- the decoder as a function -----------------------------------------------------------------

  const LENS: seq<nat> := [1, 1, 1, 1, 1, 1, 1, 1, 1, 1, 1, 1, 1, 1, 1, 1,
                           0, 0, 0, 0, 0, 0, 0, 0, 2, 2, 2, 2, 3, 3, 4, 0]

  /** One more than the masks of the leading byte, which are all of low bits. */
  const LEADING: seq<nat> := [0x80, 0x20, 0x10, 0x08]

  const OVERLONG: seq<nat> := [0x0, 0x80, 0x0800, 0x10000]

  function Len(b: byte): (n: nat)
    ensures n <= 4
  {
    if b < 0x80 then 1 else if b < 0xC0 then 0 else if b < 0xE0 then 2 else if b < 0xF0 then 3 else if b < 0xF8 then 4
      else 0
  }

  lemma LensTable(b: byte)
    ensures LENS[b / 8] == Len(b)
  {
  }

  /** How far continuation bytes reach from k on, up to n. */
  function Reach(s: seq<byte>, k: nat, n: nat): (e: nat)
    requires 1 <= k <= n && k <= |s|
    ensures k <= e <= n && e <= |s| && forall i :: k <= i < e ==> Continuation(s[i])
    decreases n - k
  {
    if k < n && k < |s| && Continuation(s[k]) then Reach(s, k + 1, n) else k
  }

  /** The bits of the first k bytes of a character of n bytes. */
  function Value(s: seq<byte>, n: nat, k: nat): nat
    requires 1 <= k <= |s| && 1 <= n <= 4
  {
    if k == 1 then s[0] % LEADING[n - 1] else Value(s, n, k - 1) * 64 + s[k - 1] % 64
  }

  predicate Refused(cp: nat, n: nat)
    requires 1 <= n <= 4
  {
    cp > 0x10FFFF || cp / 2048 == 0x1B || cp < OVERLONG[n - 1]
  }

  datatype Decoded = Decoded(len: nat, cp: nat, err: bool)

  function Decode(s: seq<byte>): (d: Decoded)
    requires s != []
    ensures 1 <= d.len <= |s| && d.len <= 4
    ensures d.err ==> d.cp == UTF_INVALID
    ensures forall i :: 1 <= i < d.len ==> Continuation(s[i])
  {
    var n := Len(s[0]);
    if n == 0 then Decoded(1, UTF_INVALID, true)
    else
      var e := Reach(s, 1, n);
      if e < n then Decoded(e, UTF_INVALID, true)
      else if Refused(Value(s, n, n), n) then Decoded(n, UTF_INVALID, true)
      else Decoded(n, Value(s, n, n), false)
  }

  predicate Tails(s: seq<byte>, n: nat) {
    n <= |s| && forall i :: 1 <= i < n ==> Continuation(s[i])
  }

  lemma {:induction false} ReachTails(s: seq<byte>, k: nat, n: nat)
    requires 1 <= k <= n && k <= |s|
    ensures Reach(s, k, n) == n <==> n <= |s| && forall i :: k <= i < n ==> Continuation(s[i])
    decreases n - k
  {
    if k < n && k < |s| && Continuation(s[k]) { ReachTails(s, k + 1, n); }
  }

  lemma Exact2(s: seq<byte>)
    requires s != [] && Len(s[0]) == 2 && Tails(s, 2)
    ensures var v := Value(s, 2, 2);
            (!Refused(v, 2) <==> WellFormed(s) == 2) && (!Refused(v, 2) ==> Scalar(v) && Encode(v) == s[..2])
  {
    var a: int, b: int := s[0] - 0xC0, s[1] - 0x80;
    assert Continuation(s[1]);
    assert Value(s, 2, 2) == a * 64 + b;
  }

  /** Values in digits of six bits. */
  lemma Digits3(a: int, b: int, c: int)
    requires 0 <= a < 16 && 0 <= b < 64 && 0 <= c < 64
    ensures var v := (a * 64 + b) * 64 + c;
            && v / 4096 == a && v / 64 % 64 == b && v % 64 == c
            && (v < 0x800 <==> a == 0 && b < 32) && (v / 2048 == 0x1B <==> a == 13 && b >= 32) && v < 0x10000
  {
    var v := (a * 64 + b) * 64 + c;
    assert v / 64 == a * 64 + b;
    assert v / 2048 == a * 2 + b / 32;
  }

  lemma Digits4(a: int, b: int, c: int, d: int)
    requires 0 <= a < 8 && 0 <= b < 64 && 0 <= c < 64 && 0 <= d < 64
    ensures var v := ((a * 64 + b) * 64 + c) * 64 + d;
            && v / 262144 == a && v / 4096 % 64 == b && v / 64 % 64 == c && v % 64 == d
            && (v < 0x10000 <==> a == 0 && b < 16) && (v <= 0x10FFFF <==> a < 4 || (a == 4 && b < 16))
  {
    var v := ((a * 64 + b) * 64 + c) * 64 + d;
    assert v / 64 == (a * 64 + b) * 64 + c;
    assert v / 4096 == a * 64 + b;
  }

  lemma Exact3(s: seq<byte>)
    requires s != [] && Len(s[0]) == 3 && Tails(s, 3)
    ensures var v := Value(s, 3, 3);
            (!Refused(v, 3) <==> WellFormed(s) == 3) && (!Refused(v, 3) ==> Scalar(v) && Encode(v) == s[..3])
  {
    var a: int, b: int, c: int := s[0] - 0xE0, s[1] - 0x80, s[2] - 0x80;
    assert Continuation(s[1]) && Continuation(s[2]);
    assert Value(s, 3, 1) == a && Value(s, 3, 2) == a * 64 + b;
    assert Value(s, 3, 3) == (a * 64 + b) * 64 + c;
    Digits3(a, b, c);
  }

  lemma Value4(s: seq<byte>)
    requires s != [] && Len(s[0]) == 4 && Tails(s, 4)
    ensures Value(s, 4, 4) == (((s[0] as int - 0xF0) * 64 + (s[1] as int - 0x80)) * 64 + (s[2] as int - 0x80)) * 64
            + (s[3] as int - 0x80)
    ensures 0x80 <= s[1] < 0xC0 && 0x80 <= s[2] < 0xC0 && 0x80 <= s[3] < 0xC0
  {
    assert Continuation(s[1]) && Continuation(s[2]) && Continuation(s[3]);
    assert Value(s, 4, 1) == s[0] - 0xF0;
    assert Value(s, 4, 2) == Value(s, 4, 1) * 64 + s[1] % 64;
    assert Value(s, 4, 3) == Value(s, 4, 2) * 64 + s[2] % 64;
  }

  lemma Exact4(s: seq<byte>)
    requires s != [] && Len(s[0]) == 4 && Tails(s, 4)
    ensures var v := Value(s, 4, 4);
            (!Refused(v, 4) <==> WellFormed(s) == 4) && (!Refused(v, 4) ==> Scalar(v) && Encode(v) == s[..4])
  {
    Value4(s);
    Digits4(s[0] - 0xF0, s[1] - 0x80, s[2] - 0x80, s[3] - 0x80);
  }

  /** A character is decoded without error exactly if it is well formed, and then to the value it encodes. */
  lemma DecodeExact(s: seq<byte>)
    requires s != []
    ensures !Decode(s).err <==> WellFormed(s) > 0
    ensures !Decode(s).err ==>
              && Decode(s).len == WellFormed(s) && Scalar(Decode(s).cp)
              && s[..Decode(s).len] == Encode(Decode(s).cp)
  {
    var n := Len(s[0]);
    if n > 0 { ReachTails(s, 1, n); }
    if n > 0 && Tails(s, n) {
      if n == 2 { Exact2(s); } else if n == 3 { Exact3(s); } else if n == 4 { Exact4(s); }
    } else {
      NotWellFormed(s);
    }
  }

  lemma NotWellFormed(s: seq<byte>)
    requires s != [] && (Len(s[0]) == 0 || !Tails(s, Len(s[0])))
    ensures WellFormed(s) == 0
  {
  }

  /** Decoding undoes encoding, whatever follows. */
  lemma DecodeEncode(cp: int, rest: seq<byte>)
    requires Scalar(cp)
    ensures Decode(Encode(cp) + rest) == Decoded(|Encode(cp)|, cp, false)
  {
    var s := Encode(cp) + rest;
    var n := |Encode(cp)|;
    assert forall i :: 0 <= i < n ==> s[i] == Encode(cp)[i];
    assert Len(s[0]) == n;
    ReachTails(s, 1, n);
    EncodeValue(cp, s);
  }

  /** The digits of six bits of a number make it up again. */
  lemma Radix(x: nat)
    ensures x == x / 64 * 64 + x % 64
    ensures x / 64 == x / 4096 * 64 + x / 64 % 64
    ensures x / 4096 == x / 262144 * 64 + x / 4096 % 64
  {
    var a, b, c := x / 64, x / 4096, x / 262144;
    assert a == x / 64 && b == a / 64 && c == b / 64;
  }

  lemma Value2(s: seq<byte>, n: nat)
    requires |s| >= 2 && 2 <= n <= 4
    ensures Value(s, n, 2) == s[0] % LEADING[n - 1] * 64 + s[1] % 64
  {
    assert Value(s, n, 1) == s[0] % LEADING[n - 1];
  }

  lemma Value3(s: seq<byte>, n: nat)
    requires |s| >= 3 && 3 <= n <= 4
    ensures Value(s, n, 3) == (s[0] % LEADING[n - 1] * 64 + s[1] % 64) * 64 + s[2] % 64
  {
    Value2(s, n);
  }

  lemma LowBits(lead: int, q: int, m: int)
    requires (lead == 0xE0 && m == 16) || (lead == 0xF0 && m == 8) || (lead == 0x80 && m == 64)
    requires 0 <= q < m
    ensures (lead + q) % m == q
  {
  }

  lemma EncodeValue(cp: int, s: seq<byte>)
    requires Scalar(cp) && |Encode(cp)| <= |s| && forall i :: 0 <= i < |Encode(cp)| ==> s[i] == Encode(cp)[i]
    ensures Value(s, |Encode(cp)|, |Encode(cp)|) == cp
  {
    var e := Encode(cp);
    assert s[0] == e[0];
    if cp < 0x80 {
    } else if cp < 0x800 {
      assert s[1] == e[1];
      EncodeValue2(cp, s);
    } else if cp < 0x10000 {
      assert s[1] == e[1] && s[2] == e[2];
      EncodeValue3(cp, s);
    } else {
      assert s[1] == e[1] && s[2] == e[2] && s[3] == e[3];
      EncodeValue4(cp, s);
    }
  }

  lemma EncodeValue2(cp: int, s: seq<byte>)
    requires 0x80 <= cp < 0x800 && 2 <= |s| && s[0] == 0xC0 + cp / 64 && s[1] == 0x80 + cp % 64
    ensures Value(s, 2, 2) == cp
  {
    assert Value(s, 2, 1) == cp / 64;
  }

  lemma EncodeValue3(cp: int, s: seq<byte>)
    requires 0x800 <= cp < 0x10000 && 3 <= |s|
    requires s[0] == 0xE0 + cp / 4096 && s[1] == 0x80 + cp / 64 % 64 && s[2] == 0x80 + cp % 64
    ensures Value(s, 3, 3) == cp
  {
    Radix(cp);
    Value3(s, 3);
    LowBits(0xE0, cp / 4096, 16);
    LowBits(0x80, cp / 64 % 64, 64);
    LowBits(0x80, cp % 64, 64);
  }

  lemma EncodeValue4(cp: int, s: seq<byte>)
    requires 0x10000 <= cp <= 0x10FFFF && 4 <= |s|
    requires s[0] == 0xF0 + cp / 262144 && s[1] == 0x80 + cp / 4096 % 64 && s[2] == 0x80 + cp / 64 % 64 &&
             s[3] == 0x80 + cp % 64
    ensures Value(s, 4, 4) == cp
  {
    Radix(cp);
    Value3(s, 4);
    LowBits(0xF0, cp / 262144, 8);
    LowBits(0x80, cp / 4096 % 64, 64);
    LowBits(0x80, cp / 64 % 64, 64);
    LowBits(0x80, cp % 64, 64);
  }

  // ---- whole strings -----------------------------------------------------------------------------

  datatype Glyph = Rune(cp: nat) | Invalid

  /** drw_text's way through a text: each step advances by what was decoded. */
  function DecodeAll(s: seq<byte>): (gs: seq<Glyph>)
    decreases |s|
  {
    if s == [] then [] else
      var d := Decode(s);
      [if d.err then Invalid else Rune(d.cp)] + DecodeAll(s[d.len..])
  }

  function EncodeAll(cps: seq<int>): seq<byte>
    requires forall i :: 0 <= i < |cps| ==> Scalar(cps[i])
  {
    if cps == [] then [] else Encode(cps[0]) + EncodeAll(cps[1..])
  }

  function Runes(cps: seq<int>): seq<Glyph>
    requires forall i :: 0 <= i < |cps| ==> Scalar(cps[i])
  {
    if cps == [] then [] else [assert Scalar(cps[0]); Rune(cps[0])] + Runes(cps[1..])
  }

  /** Decoding a text of encoded characters gives these characters. */
  lemma {:induction false} DecodeAllEncodeAll(cps: seq<int>)
    requires forall i :: 0 <= i < |cps| ==> Scalar(cps[i])
    ensures DecodeAll(EncodeAll(cps)) == Runes(cps)
  {
    if cps != [] {
      var rest := EncodeAll(cps[1..]);
      DecodeEncode(cps[0], rest);
      DecodeAllEncodeAll(cps[1..]);
      assert EncodeAll(cps)[|Encode(cps[0])|..] == rest;
    }
  }

  /** Encoded characters other than NUL contain no NUL byte, so the text does not end early. */
  lemma {:induction false} EncodeAllHasNoNul(cps: seq<int>)
    requires forall i :: 0 <= i < |cps| ==> Scalar(cps[i]) && cps[i] != 0
    ensures 0 !in EncodeAll(cps)
  {
    if cps != [] { EncodeAllHasNoNul(cps[1..]); }
  }

  lemma {:induction false} ReachSame(s: seq<byte>, t: seq<byte>, k: nat, n: nat)
    requires 1 <= k <= n && k <= |s| && (t != [] ==> !Continuation(t[0]))
    ensures Reach(s + t, k, n) == Reach(s, k, n)
    decreases n - k
  {
    if k < n && k < |s| && Continuation(s[k]) {
      ReachSame(s, t, k + 1, n);
    } else if k == |s| && t != [] {
      assert (s + t)[k] == t[0];
    }
  }

  lemma {:induction false} ValueSame(s: seq<byte>, t: seq<byte>, n: nat, k: nat)
    requires 1 <= k <= |s| && 1 <= n <= 4
    ensures Value(s + t, n, k) == Value(s, n, k)
  {
    if k > 1 { ValueSame(s, t, n, k - 1); }
  }

  /** What follows a text does not change how the text is decoded, unless it begins in the middle of a character. */
  lemma DecodeSame(s: seq<byte>, t: seq<byte>)
    requires s != [] && (t != [] ==> !Continuation(t[0]))
    ensures Decode(s + t) == Decode(s)
  {
    var n := Len(s[0]);
    assert (s + t)[0] == s[0];
    if n > 0 {
      ReachSame(s, t, 1, n);
      if Reach(s, 1, n) == n { ValueSame(s, t, n, n); }
    }
  }

  /** After any text, malformed or not, decoding is back in step at the next byte that is no continuation. */
  lemma {:induction false} Resynchronises(s: seq<byte>, t: seq<byte>)
    requires t != [] ==> !Continuation(t[0])
    ensures DecodeAll(s + t) == DecodeAll(s) + DecodeAll(t)
    decreases |s|
  {
    if s == [] {
      assert s + t == t;
    } else {
      var d := Decode(s);
      DecodeSame(s, t);
      assert (s + t)[d.len..] == s[d.len..] + t;
      Resynchronises(s[d.len..], t);
    }
  }

  // ---- the code ----------------------------------------------------------------------------------

  /** utf8decode at a position that is not the end of the string. */
  method Utf8Decode(s: seq<byte>, at: nat) returns (len: nat, u: nat, err: bool)
    requires at < |s| && 0 !in s
    ensures Decoded(len, u, err) == Decode(s[at..])
  {
    ghost var r := s[at..];
    LensTable(s[at]);
    var n := LENS[s[at] / 8];
    u := UTF_INVALID;
    err := true;
    if n == 0 {
      return 1, u, err;
    }
    var cp: nat := s[at] % LEADING[n - 1];
    var i := 1;
    while i < n
      invariant 1 <= i <= n && at + i <= |s|
      invariant Reach(r, 1, n) == Reach(r, i, n) && cp == Value(r, n, i)
    {
      if At(s, at + i) == 0 || At(s, at + i) / 64 != 2 {
        return i, u, err;
      }
      cp := cp * 64 + s[at + i] % 64;
      i := i + 1;
    }
    len := n;
    if cp > 0x10FFFF || cp / 2048 == 0x1B || cp < OVERLONG[n - 1] {
      return;
    }
    err := false;
    u := cp;
  }

  lemma OneStep(glyphs: seq<Glyph>, s: seq<byte>)
    requires s != []
    ensures glyphs + DecodeAll(s) == glyphs + [if Decode(s).err then Invalid else Rune(Decode(s).cp)]
            + DecodeAll(s[Decode(s).len..])
  {
  }

  /** The loop of drw_text over a text whose characters the font has. */
  method DecodeText(s: seq<byte>) returns (glyphs: seq<Glyph>)
    requires 0 !in s
    ensures glyphs == DecodeAll(s)
  {
    glyphs := [];
    var text := 0;
    assert s[0..] == s;
    while text < |s|
      invariant text <= |s| && DecodeAll(s) == glyphs + DecodeAll(s[text..])
      decreases |s| - text
    {
      var len, u, err := Utf8Decode(s, text);
      OneStep(glyphs, s[text..]);
      assert s[text..][len..] == s[text + len..];
      glyphs := glyphs + [if err then Invalid else Rune(u)];
      text := text + len;
    }
  }
}
