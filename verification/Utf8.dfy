/** Texts as sequences of Unicode scalar values, encoded as in section 3 of RFC 3629, and cut to a
    number of bytes. */
module Utf8 {
  import opened Domain

  // ----- UTF-8 -----

  type byte = b: int | 0 <= b < 256

  predicate IsContinuation(b: byte) {
    0x80 <= b < 0xC0
  }

  function Width(c: char): (w: nat)
    ensures 1 <= w <= 4
  {
    if c as int < 0x80 then 1 else if c as int < 0x800 then 2 else if c as int < 0x1_0000 then 3 else 4
  }

  function EncodeOne(c: char): (b: seq<byte>)
    ensures |b| == Width(c)
    ensures !IsContinuation(b[0]) && (forall i :: 1 <= i < |b| ==> IsContinuation(b[i]))
  {
    var v := c as int;
    if v < 0x80 then [v]
    else if v < 0x800 then [0xC0 + v / 64, 0x80 + v % 64]
    else if v < 0x1_0000 then [0xE0 + v / 4096, 0x80 + v / 64 % 64, 0x80 + v % 64]
    else [0xF0 + v / 262144, 0x80 + v / 4096 % 64, 0x80 + v / 64 % 64, 0x80 + v % 64]
  }

  function Encode(t: string): seq<byte> {
    if t == [] then [] else EncodeOne(t[0]) + Encode(t[1..])
  }

  /** The size of a text in bytes. */
  function Bytes(t: string): nat {
    if t == [] then 0 else Width(t[0]) + Bytes(t[1..])
  }

  lemma {:induction false} BytesIsEncodedSize(t: string)
    ensures Bytes(t) == |Encode(t)|
    decreases |t|
  {
    if t != [] {
      BytesIsEncodedSize(t[1..]);
    }
  }

  predicate IsScalar(v: int) {
    0 <= v < 0xD800 || 0xE000 <= v < 0x11_0000
  }

  function Tail(b: byte): int {
    b - 0x80
  }

  lemma DigitsOfThree(x: nat, y: nat, z: nat)
    requires y < 64 && z < 64
    ensures var v := x * 4096 + y * 64 + z; v / 4096 == x && v / 64 == x * 64 + y && v / 64 % 64 == y && v % 64 == z
  {
    var v := x * 4096 + y * 64 + z;
    assert v / 64 == x * 64 + y;
  }

  function DecodeTwo(a: byte, b: byte): (c: char)
    requires 0xC2 <= a < 0xE0 && IsContinuation(b)
    ensures EncodeOne(c) == [a, b]
  {
    ((a - 0xC0) * 64 + Tail(b)) as char
  }

  function DecodeThree(a: byte, b: byte, c: byte): (r: Option<char>)
    requires 0xE0 <= a < 0xF0 && IsContinuation(b) && IsContinuation(c)
    ensures r.Some? ==> EncodeOne(r.value) == [a, b, c]
  {
    DigitsOfThree(a - 0xE0, Tail(b), Tail(c));
    var v := (a - 0xE0) * 4096 + Tail(b) * 64 + Tail(c);
    if 0x800 <= v && IsScalar(v) then Some(v as char) else None
  }

  function DecodeFour(a: byte, b: byte, c: byte, d: byte): (r: Option<char>)
    requires 0xF0 <= a < 0xF5 && IsContinuation(b) && IsContinuation(c) && IsContinuation(d)
    ensures r.Some? ==> EncodeOne(r.value) == [a, b, c, d]
  {
    DigitsOfThree((a - 0xF0) * 64 + Tail(b), Tail(c), Tail(d));
    var v := (a - 0xF0) * 262144 + Tail(b) * 4096 + Tail(c) * 64 + Tail(d);
    if 0x1_0000 <= v && IsScalar(v) then Some(v as char) else None
  }

  /** The scalar value that a well-formed sequence at the front of `b` encodes. Overlong forms,
      surrogates and values past U+10FFFF are ill-formed. */
  function DecodeOne(b: seq<byte>): (r: Option<char>)
    ensures r.Some? ==> EncodeOne(r.value) <= b
  {
    if b == [] then None
    else if b[0] < 0x80 then Some(b[0] as char)
    else if 0xC2 <= b[0] < 0xE0 && |b| >= 2 && IsContinuation(b[1]) then Some(DecodeTwo(b[0], b[1]))
    else if 0xE0 <= b[0] < 0xF0 && |b| >= 3 && IsContinuation(b[1]) && IsContinuation(b[2]) then DecodeThree(b[0], b[1], b[2])
    else if 0xF0 <= b[0] < 0xF5 && |b| >= 4 && IsContinuation(b[1]) && IsContinuation(b[2]) && IsContinuation(b[3])
    then DecodeFour(b[0], b[1], b[2], b[3])
    else None
  }

  /** Decoding that skips what is ill-formed. */
  function DecodeIgnore(b: seq<byte>): string {
    if b == [] then "" else
      match DecodeOne(b)
      case Some(c) => [c] + DecodeIgnore(b[|EncodeOne(c)|..])
      case None => DecodeIgnore(b[1..])
  }

  lemma Digits64(v: nat)
    ensures v == v / 64 * 64 + v % 64
    ensures v / 64 == v / 4096 * 64 + v / 64 % 64
    ensures v / 4096 == v / 262144 * 64 + v / 4096 % 64
  {
    assert v / 4096 == v / 64 / 64;
    assert v / 262144 == v / 4096 / 64;
  }

  lemma DecodesThree(c: char)
    requires 0x800 <= c as int < 0x1_0000
    ensures var e := EncodeOne(c); |e| == 3 && 0xE0 <= e[0] < 0xF0 && DecodeThree(e[0], e[1], e[2]) == Some(c)
  {
    Digits64(c as int);
  }

  lemma DecodesFour(c: char)
    requires 0x1_0000 <= c as int
    ensures var e := EncodeOne(c); |e| == 4 && 0xF0 <= e[0] < 0xF5 && DecodeFour(e[0], e[1], e[2], e[3]) == Some(c)
  {
    Digits64(c as int);
  }

  lemma DecodeUndoesOne(c: char, rest: seq<byte>)
    ensures DecodeOne(EncodeOne(c) + rest) == Some(c)
  {
    var b := EncodeOne(c) + rest;
    assert forall i :: 0 <= i < |EncodeOne(c)| ==> b[i] == EncodeOne(c)[i];
    if c as int < 0x800 {
    } else if c as int < 0x1_0000 {
      DecodesThree(c);
    } else {
      DecodesFour(c);
    }
  }

  lemma DecodeFirst(c: char, rest: seq<byte>)
    ensures DecodeIgnore(EncodeOne(c) + rest) == [c] + DecodeIgnore(rest)
  {
    DecodeUndoesOne(c, rest);
    assert (EncodeOne(c) + rest)[|EncodeOne(c)|..] == rest;
  }

  /** Decoding undoes encoding, for every text. */
  lemma {:induction false} DecodeUndoesEncode(t: string)
    ensures DecodeIgnore(Encode(t)) == t
    decreases |t|
  {
    if t != [] {
      DecodeFirst(t[0], Encode(t[1..]));
      DecodeUndoesEncode(t[1..]);
    }
  }

  // ----- clipping one text -----

  /** `b` without its trailing continuation bytes. */
  function Stripped(b: seq<byte>): seq<byte> {
    if b != [] && IsContinuation(b[|b|-1]) then Stripped(b[..|b|-1]) else b
  }

  /** The characters of `t` that end before its `n`-th byte, and the one that ends there if it is
      a single byte. */
  function Clip(t: string, n: nat): (r: string)
    ensures r <= t
  {
    if t == [] || n == 0 then "" else
      var w := Width(t[0]);
      if w < n then [t[0]] + Clip(t[1..], n - w)
      else if w == 1 then [t[0]]
      else ""
  }

  lemma {:induction false} StripCharacter(c: char, n: nat)
    requires 1 <= n <= Width(c)
    ensures Stripped(EncodeOne(c)[..n]) == [EncodeOne(c)[0]]
    decreases n
  {
    var b := EncodeOne(c)[..n];
    if n > 1 {
      assert b[..n-1] == EncodeOne(c)[..n-1];
      StripCharacter(c, n - 1);
    }
  }

  lemma {:induction false} StripBehind(b: seq<byte>, x: seq<byte>)
    requires x != [] && !IsContinuation(x[0])
    ensures Stripped(b + x) == b + Stripped(x)
    decreases |x|
  {
    if IsContinuation(x[|x|-1]) {
      assert (b + x)[..|b + x|-1] == b + x[..|x|-1];
      StripBehind(b, x[..|x|-1]);
    }
  }

  lemma EncodeParts(t: string, n: nat)
    requires t != [] && n <= |Encode(t)|
    ensures var e, rest := EncodeOne(t[0]), Encode(t[1..]);
            Encode(t)[..n] == if n <= |e| then e[..n] else e + rest[..n - |e|]
  {
  }

  lemma StartsWithLead(t: string)
    requires t != []
    ensures Encode(t) != [] && !IsContinuation(Encode(t)[0])
  {
  }

  /** What stripping leaves of the character that the cut falls into: its first byte. */
  function Remnant(t: string, n: nat): (b: seq<byte>)
    ensures b == [] || (|b| == 1 && b[0] >= 0xC0)
  {
    if t == [] || n == 0 then [] else
      var w := Width(t[0]);
      if w < n then Remnant(t[1..], n - w) else if w == 1 then [] else [EncodeOne(t[0])[0]]
  }

  lemma CutBehindFirst(t: string, n: nat)
    requires t != [] && Width(t[0]) < n < |Encode(t)|
    ensures n - Width(t[0]) < |Encode(t[1..])|
    ensures Stripped(Encode(t)[..n]) == EncodeOne(t[0]) + Stripped(Encode(t[1..])[..n - Width(t[0])])
  {
    EncodeParts(t, n);
    StartsWithLead(t[1..]);
    StripBehind(EncodeOne(t[0]), Encode(t[1..])[..n - Width(t[0])]);
  }

  lemma CutInFirst(t: string, n: nat)
    requires t != [] && 1 <= n <= Width(t[0])
    ensures n <= |Encode(t)| && Stripped(Encode(t)[..n]) == [EncodeOne(t[0])[0]]
  {
    EncodeParts(t, n);
    StripCharacter(t[0], n);
  }

  lemma EncodeCons(c: char, t: string)
    ensures Encode([c] + t) == EncodeOne(c) + Encode(t)
  {
    assert ([c] + t)[1..] == t;
  }

  lemma ClipCons(t: string, n: nat)
    requires t != [] && Width(t[0]) < n
    ensures Encode(Clip(t, n)) == EncodeOne(t[0]) + Encode(Clip(t[1..], n - Width(t[0])))
    ensures Remnant(t, n) == Remnant(t[1..], n - Width(t[0]))
  {
    EncodeCons(t[0], Clip(t[1..], n - Width(t[0])));
  }

  lemma Reassociate(a: seq<byte>, b: seq<byte>, c: seq<byte>)
    ensures (a + b) + c == a + (b + c)
  {
  }

  lemma ClipInFirst(t: string, n: nat)
    requires t != [] && 1 <= n <= Width(t[0])
    ensures Encode(Clip(t, n)) + Remnant(t, n) == [EncodeOne(t[0])[0]]
  {
    EncodeCons(t[0], "");
    assert [t[0]] + "" == [t[0]];
  }

  lemma CutAtStart(t: string)
    ensures Stripped(Encode(t)[..0]) == Encode(Clip(t, 0)) + Remnant(t, 0)
  {
    assert Encode(t)[..0] == [];
  }

  /** Cutting the encoding and stripping leaves the clipped text, and perhaps a lone first byte. */
  lemma {:induction false} StrippedCut(t: string, n: nat)
    requires n < |Encode(t)|
    ensures Stripped(Encode(t)[..n]) == Encode(Clip(t, n)) + Remnant(t, n)
    decreases |t|
  {
    if n == 0 {
      CutAtStart(t);
    } else if Width(t[0]) < n {
      var rest, m := t[1..], n - Width(t[0]);
      CutBehindFirst(t, n);
      StrippedCut(rest, m);
      ClipCons(t, n);
      Reassociate(EncodeOne(t[0]), Encode(Clip(rest, m)), Remnant(rest, m));
    } else {
      CutInFirst(t, n);
      ClipInFirst(t, n);
    }
  }

  lemma {:induction false} DecodeIgnoresRemnant(t: string, tail: seq<byte>)
    requires tail == [] || (|tail| == 1 && tail[0] >= 0xC0)
    ensures DecodeIgnore(Encode(t) + tail) == t
    decreases |t|
  {
    if t == [] {
      assert Encode(t) + tail == tail;
      assert tail != [] ==> tail[1..] == [];
    } else {
      var e, rest := EncodeOne(t[0]), Encode(t[1..]);
      assert Encode(t) + tail == e + (rest + tail);
      DecodeFirst(t[0], rest + tail);
      DecodeIgnoresRemnant(t[1..], tail);
    }
  }

  method TruncateUtf8(text: string, maxBytes: nat) returns (kept: string)
    ensures kept == if Bytes(text) <= maxBytes then text else Clip(text, maxBytes)
  {
    var encoded := Encode(text);
    BytesIsEncodedSize(text);
    if |encoded| <= maxBytes {
      return text;
    }
    var clipped := encoded[..maxBytes];
    while clipped != [] && IsContinuation(clipped[|clipped|-1])
      invariant Stripped(clipped) == Stripped(encoded[..maxBytes])
      decreases |clipped|
    {
      clipped := clipped[..|clipped|-1];
    }
    StrippedCut(text, maxBytes);
    DecodeIgnoresRemnant(Clip(text, maxBytes), Remnant(text, maxBytes));
    kept := DecodeIgnore(clipped);
  }

  /** A clip fits the limit and gives away at most four bytes of it. */
  lemma {:induction false} ClipFits(t: string, n: nat)
    ensures Bytes(Clip(t, n)) <= n
    ensures n <= Bytes(t) ==> n <= Bytes(Clip(t, n)) + 4
    decreases |t|
  {
    if t != [] && n > 0 && Width(t[0]) < n {
      var w := Width(t[0]);
      assert Clip(t, n)[1..] == Clip(t[1..], n - w);
      ClipFits(t[1..], n - w);
    } else if t != [] {
      assert [t[0]][1..] == "";
    }
  }

  /** Every longer prefix takes at least the whole limit, and exactly the limit in one case only: a
      last character of several bytes that would have fitted exactly is dropped. */
  lemma {:induction false} LongerTakesLimit(t: string, n: nat, k: nat)
    requires |Clip(t, n)| < k <= |t|
    ensures Bytes(t[..k]) >= n
    ensures Bytes(t[..k]) == n ==> n == 0 || (k == |Clip(t, n)| + 1 && Width(t[k-1]) > 1)
    decreases |t|
  {
    if n > 0 {
      var w := Width(t[0]);
      assert t[..k][1..] == t[1..][..k-1];
      if w < n {
        assert Clip(t, n)[1..] == Clip(t[1..], n - w);
        LongerTakesLimit(t[1..], n - w, k - 1);
      } else {
        assert k == 1 || Bytes(t[1..][..k-1]) > 0;
      }
    }
  }

  /** Such a character is always dropped. */
  lemma {:induction false} ExactFitIsDropped(t: string, n: nat, k: nat)
    requires 1 <= k <= |t| && Bytes(t[..k]) == n && Width(t[k-1]) > 1
    ensures |Clip(t, n)| == k - 1
    decreases |t|
  {
    var w := Width(t[0]);
    assert t[..k][1..] == t[1..][..k-1];
    if k == 1 {
      assert Bytes(t[1..][..0]) == 0;
    } else {
      assert Bytes(t[1..][..k-1]) > 0;
      assert t[1..][k-2] == t[k-1];
      ExactFitIsDropped(t[1..], n - w, k - 1);
      assert Clip(t, n) == [t[0]] + Clip(t[1..], n - w);
    }
  }

  /** `kept` is the longest prefix of the text that fits the limit. */
  ghost predicate IsLongestFit(t: string, n: nat, kept: string) {
    && kept <= t && Bytes(kept) <= n
    && forall k :: |kept| < k <= |t| ==> Bytes(t[..k]) > n
  }

  /** A prefix of exactly `n` bytes ends in a character of several bytes. */
  ghost predicate EndsExactly(t: string, n: nat) {
    exists k :: 1 <= k <= |t| && Bytes(t[..k]) == n && Width(t[k-1]) > 1
  }

  lemma EmptyFit(t: string, k: nat)
    requires 0 < k <= |t|
    ensures Bytes(t[..k]) > 0
  {
    assert t[..k] != "";
  }

  /** What is kept of a text that does not fit is its longest prefix that does, exactly unless that
      prefix takes the whole limit and ends in a character of several bytes. */
  lemma ClipIsLongestUnlessExact(t: string, n: nat)
    requires n < Bytes(t)
    ensures IsLongestFit(t, n, Clip(t, n)) <==> !EndsExactly(t, n)
  {
    ClipFits(t, n);
    if EndsExactly(t, n) {
      var k :| 1 <= k <= |t| && Bytes(t[..k]) == n && Width(t[k-1]) > 1;
      ExactFitIsDropped(t, n, k);
    } else {
      forall k | |Clip(t, n)| < k <= |t| ensures Bytes(t[..k]) > n {
        LongerTakesLimit(t, n, k);
        EmptyFit(t, k);
      }
    }
  }

  /** An input: the two bytes of the first character fit the limit of two, and nothing is kept. */
  lemma ExactFitWitness()
    ensures Bytes("\U{e9}x") == 3 && Bytes("\U{e9}") == 2 && Clip("\U{e9}x", 2) == ""
  {
    assert "\U{e9}x"[1..] == "x" && "x"[1..] == "" && "\U{e9}"[1..] == "";
  }
}
