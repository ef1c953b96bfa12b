/** The string operations the planner's parsers lean on, over ASCII text. */
module Text {
  predicate IsSpace(c: char) {
    c == ' ' || '\t' <= c <= '\r' || '\U{1c}' <= c <= '\U{1f}'
  }

  predicate IsDigit(c: char) {
    '0' <= c <= '9'
  }

  predicate AllDigits(s: string) {
    s != [] && forall i :: 0 <= i < |s| ==> IsDigit(s[i])
  }

  predicate NoSpace(s: string) {
    forall i :: 0 <= i < |s| ==> !IsSpace(s[i])
  }

  function LeftStrip(s: string): string {
    if s != [] && IsSpace(s[0]) then LeftStrip(s[1..]) else s
  }

  function RightStrip(s: string): string {
    if s != [] && IsSpace(s[|s|-1]) then RightStrip(s[..|s|-1]) else s
  }

  function Strip(s: string): string {
    RightStrip(LeftStrip(s))
  }

  /** The value of a string of ASCII digits. */
  function ToNat(s: string): nat
    requires forall i :: 0 <= i < |s| ==> IsDigit(s[i])
  {
    if s == [] then 0 else assert IsDigit(s[|s|-1]); 10 * ToNat(s[..|s|-1]) + (s[|s|-1] as int - '0' as int)
  }

  /** The decimal digits of a number. */
  function Decimal(n: nat): (s: string)
    ensures AllDigits(s)
  {
    var last := ['0' + (n % 10) as char];
    if n < 10 then last else Decimal(n / 10) + last
  }

  /** Reading the digits of a number gives the number. */
  lemma {:induction false} DecimalValue(n: nat)
    ensures ToNat(Decimal(n)) == n
    decreases n
  {
    var last := ['0' + (n % 10) as char];
    if n >= 10 {
      DecimalValue(n / 10);
      assert Decimal(n)[..|Decimal(n)|-1] == Decimal(n / 10);
    }
  }

  /** `s.split(c)`: the pieces between the occurrences of `c`. */
  function SplitOn(s: string, c: char): (r: seq<string>)
    ensures r != []
  {
    if s == [] then [[]]
    else if s[0] == c then [[]] + SplitOn(s[1..], c)
    else
      var rest := SplitOn(s[1..], c);
      [[s[0]] + rest[0]] + rest[1..]
  }

  /** What precedes the first piece's end stays in the first piece. */
  lemma {:induction false} SplitAhead(s: string, t: string, c: char)
    requires c !in s
    ensures SplitOn(s + t, c) == [s + SplitOn(t, c)[0]] + SplitOn(t, c)[1..]
    decreases |s|
  {
    if s == [] {
      assert s + t == t && s + SplitOn(t, c)[0] == SplitOn(t, c)[0];
    } else {
      assert (s + t)[1..] == s[1..] + t;
      SplitAhead(s[1..], t, c);
      assert [s[0]] + (s[1..] + SplitOn(t, c)[0]) == s + SplitOn(t, c)[0];
    }
  }

  lemma SplitNothing(s: string, c: char)
    requires c !in s
    ensures SplitOn(s, c) == [s]
  {
    SplitAhead(s, "", c);
    assert s + "" == s;
  }

  lemma SplitFirst(s: string, c: char, rest: string)
    requires c !in s
    ensures SplitOn(s + [c] + rest, c) == [s] + SplitOn(rest, c)
  {
    SplitAhead(s, [c] + rest, c);
    assert s + [c] + rest == s + ([c] + rest) && ([c] + rest)[1..] == rest;
    assert s + [] == s;
  }

  /** A text without space at either end is stripped already. */
  lemma StripNothing(s: string)
    requires s != [] ==> !IsSpace(s[0]) && !IsSpace(s[|s|-1])
    ensures Strip(s) == s
  {
  }

  lemma LeftStripShortens(s: string)
    ensures |LeftStrip(s)| <= |s|
    ensures LeftStrip(s) != [] ==> !IsSpace(LeftStrip(s)[0])
  {
  }

  lemma {:induction false} RightStripHasNoSpace(s: string)
    ensures RightStrip(s) != [] ==> RightStrip(s)[0] == s[0] && !IsSpace(RightStrip(s)[|RightStrip(s)|-1])
    decreases |s|
  {
    if s != [] && IsSpace(s[|s|-1]) {
      RightStripHasNoSpace(s[..|s|-1]);
    }
  }

  /** Nothing stripped has space at either end. */
  lemma StripHasNoSpace(s: string)
    ensures Strip(s) != [] ==> !IsSpace(Strip(s)[0]) && !IsSpace(Strip(s)[|Strip(s)|-1])
  {
    LeftStripShortens(s);
    RightStripHasNoSpace(LeftStrip(s));
  }
}
