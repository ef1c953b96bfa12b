/** The milestone file: one "<lib> vX.Y.Z requis avant <lib> vX.Y.Z" constraint a line. */
module Milestones {
  import opened Domain
  import opened Text
  import opened Versions

  datatype LibraryVersion = LibraryVersion(library: string, version: string) {
    function Label(): string {
      library + " " + version
    }
  }

  datatype MilestoneConstraint = MilestoneConstraint(
    required: LibraryVersion,
    dependent: LibraryVersion,
    lineNumber: nat,
    raw: string)
  {
    function Render(): string {
      required.Label() + " requis avant " + dependent.Label()
    }
  }

  datatype ParseError = ParseError(lineNumber: nat, line: string)

  // ----- lexing -----

  predicate IsLineBreak(c: char) {
    '\n' <= c <= '\r' || '\U{1c}' <= c <= '\U{1e}'
  }

  predicate OneLine(s: string) {
    forall i :: 0 <= i < |s| ==> !IsLineBreak(s[i])
  }

  function LineLength(t: string): (n: nat)
    ensures n <= |t| && OneLine(t[..n]) && (n < |t| ==> IsLineBreak(t[n]))
  {
    if t == [] || IsLineBreak(t[0]) then 0 else
      var n := 1 + LineLength(t[1..]);
      assert forall i :: 1 <= i < n ==> t[i] == t[1..][..n-1][i-1];
      n
  }

  function BreakLength(t: string, n: nat): (k: nat)
    requires n < |t|
    ensures 1 <= k <= |t| - n
  {
    if t[n] == '\r' && n + 1 < |t| && t[n+1] == '\n' then 2 else 1
  }

  /** `text.splitlines()`: the two-character break counts once, a final break adds no line. */
  function Lines(t: string): seq<string>
    decreases |t|
  {
    var n := LineLength(t);
    if t == [] then []
    else if n == |t| then [t]
    else [t[..n]] + Lines(t[n + BreakLength(t, n)..])
  }

  function WordLength(t: string): (n: nat)
    ensures n <= |t| && (t != [] && !IsSpace(t[0]) ==> n > 0)
  {
    if t == [] || IsSpace(t[0]) then 0 else 1 + WordLength(t[1..])
  }

  /** The maximal runs of characters that are not white space. */
  function Words(s: string): seq<string>
    decreases |s|
  {
    var t := LeftStrip(s);
    LeftStripShortens(s);
    if t == [] then [] else [t[..WordLength(t)]] + Words(t[WordLength(t)..])
  }

  // ----- grammar -----

  predicate IsLibraryChar(c: char) {
    'A' <= c <= 'Z' || 'a' <= c <= 'z' || IsDigit(c) || c == '_' || c == '.' || c == '-'
  }

  predicate IsLibrary(w: string) {
    w != [] && forall i :: 0 <= i < |w| ==> IsLibraryChar(w[i])
  }

  /** Three dot-separated runs of digits. */
  predicate IsTriple(w: string) {
    var parts := SplitOn(w, '.');
    |parts| == 3 && AllDigits(parts[0]) && AllDigits(parts[1]) && AllDigits(parts[2])
  }

  predicate IsVersion(w: string) {
    if w != [] && w[0] == 'v' then IsTriple(w[1..]) else IsTriple(w)
  }

  /** The match of the line pattern: its six words are fixed, so it cannot match two ways. */
  function ParseLine(line: string): Option<(LibraryVersion, LibraryVersion)> {
    var w := Words(line);
    if |w| == 6 && IsLibrary(w[0]) && IsVersion(w[1]) && w[2] == "requis" && w[3] == "avant"
       && IsLibrary(w[4]) && IsVersion(w[5])
    then Some((LibraryVersion(w[0], NormalizeVersion(w[1])), LibraryVersion(w[4], NormalizeVersion(w[5]))))
    else None
  }

  predicate Ignored(line: string) {
    line == [] || line[0] == '#'
  }

  function ParseLines(lines: seq<string>, first: nat): Result<seq<MilestoneConstraint>, ParseError>
    decreases |lines|
  {
    if lines == [] then Ok([])
    else if Ignored(Strip(lines[0])) then ParseLines(lines[1..], first + 1)
    else match ParseLine(Strip(lines[0]))
      case None => Err(ParseError(first, lines[0]))
      case Some(pair) =>
        match ParseLines(lines[1..], first + 1)
        case Err(e) => Err(e)
        case Ok(rest) => Ok([MilestoneConstraint(pair.0, pair.1, first, lines[0])] + rest)
  }

  function ParseText(text: string): Result<seq<MilestoneConstraint>, ParseError> {
    ParseLines(Lines(text), 1)
  }

  /** What the loop still owes once `parsed` constraints are read. */
  function Onto(parsed: seq<MilestoneConstraint>, r: Result<seq<MilestoneConstraint>, ParseError>)
    : Result<seq<MilestoneConstraint>, ParseError>
  {
    match r
    case Err(e) => Err(e)
    case Ok(rest) => Ok(parsed + rest)
  }

  lemma OntoOne(parsed: seq<MilestoneConstraint>, c: MilestoneConstraint,
                r: Result<seq<MilestoneConstraint>, ParseError>)
    ensures Onto(parsed, Onto([c], r)) == Onto(parsed + [c], r)
  {
    if r.Ok? {
      assert parsed + ([c] + r.value) == parsed + [c] + r.value;
    }
  }

  lemma ParseLinesStep(lines: seq<string>, i: nat)
    requires i < |lines|
    ensures var line := Strip(lines[i]);
            var rest := ParseLines(lines[i+1..], i + 2);
            ParseLines(lines[i..], i + 1) ==
            if Ignored(line) then rest
            else if ParseLine(line).None? then Err(ParseError(i + 1, lines[i]))
            else var pair := ParseLine(line).value;
                 Onto([MilestoneConstraint(pair.0, pair.1, i + 1, lines[i])], rest)
  {
    assert lines[i..][0] == lines[i] && lines[i..][1..] == lines[i+1..];
  }

  lemma OntoNothing(r: Result<seq<MilestoneConstraint>, ParseError>)
    ensures Onto([], r) == r
  {
    if r.Ok? { assert [] + r.value == r.value; }
  }

  /** The parser's own loop: it stops at the first bad line and reports its number. */
  method ParseMilestonesText(text: string) returns (r: Result<seq<MilestoneConstraint>, ParseError>)
    ensures r == ParseText(text)
  {
    var lines := Lines(text);
    var constraints: seq<MilestoneConstraint> := [];
    OntoNothing(ParseText(text));
    assert lines[0..] == lines;
    for i := 0 to |lines|
      invariant ParseText(text) == Onto(constraints, ParseLines(lines[i..], i + 1))
    {
      ParseLinesStep(lines, i);
      var line := Strip(lines[i]);
      if Ignored(line) {
        continue;
      }
      var pair := ParseLine(line);
      if pair.None? {
        return Err(ParseError(i + 1, lines[i]));
      }
      var c := MilestoneConstraint(pair.value.0, pair.value.1, i + 1, lines[i]);
      OntoOne(constraints, c, ParseLines(lines[i+1..], i + 2));
      constraints := constraints + [c];
    }
    assert constraints + [] == constraints;
    return Ok(constraints);
  }

  /** A line that is blank or a comment once stripped. */
  predicate Skipped(raw: string) {
    Strip(raw) == "" || Strip(raw)[0] == '#'
  }

  predicate Acceptable(raw: string) {
    Skipped(raw) || ParseLine(Strip(raw)).Some?
  }

  lemma RestOfLines(lines: seq<string>, i: nat)
    requires lines != []
    ensures i < |lines| ==> lines[i] == if i == 0 then lines[0] else lines[1..][i-1]
  {
  }

  /** A text is accepted exactly when every line that is neither blank nor a comment matches. */
  lemma {:induction false} AcceptedLineByLine(lines: seq<string>, first: nat)
    ensures ParseLines(lines, first).Ok? <==> forall i :: 0 <= i < |lines| ==> Acceptable(lines[i])
    decreases |lines|
  {
    if lines != [] {
      AcceptedLineByLine(lines[1..], first + 1);
      forall i | 0 <= i < |lines| ensures Acceptable(lines[i]) <==> if i == 0 then Acceptable(lines[0]) else Acceptable(lines[1..][i-1]) {
        RestOfLines(lines, i);
      }
    }
  }

  /** The error names the first line that does not match. */
  lemma {:induction false} RejectedAtFirstBadLine(lines: seq<string>, first: nat, i: nat)
    requires i < |lines| && !Acceptable(lines[i]) && forall j :: 0 <= j < i ==> Acceptable(lines[j])
    ensures ParseLines(lines, first) == Err(ParseError(first + i, lines[i]))
    decreases |lines|
  {
    if i > 0 {
      forall j | 0 <= j < i - 1 ensures Acceptable(lines[1..][j]) {
        assert Acceptable(lines[j+1]);
      }
      RejectedAtFirstBadLine(lines[1..], first + 1, i - 1);
    }
  }

  lemma FirstIsRead(lines: seq<string>, first: nat)
    requires lines != [] && ParseLines(lines, first).Ok?
    ensures ParseLines(lines[1..], first + 1).Ok?
    ensures forall c :: c in ParseLines(lines[1..], first + 1).value ==> c in ParseLines(lines, first).value
    ensures !Skipped(lines[0]) ==> ParseLine(Strip(lines[0])).Some?
    ensures !Skipped(lines[0]) ==>
              var pair := ParseLine(Strip(lines[0])).value;
              MilestoneConstraint(pair.0, pair.1, first, lines[0]) in ParseLines(lines, first).value
  {
  }

  /** Each line that is neither blank nor a comment gives its constraint, with its number. */
  lemma {:induction false} LineIsRead(lines: seq<string>, first: nat, i: nat)
    requires ParseLines(lines, first).Ok? && i < |lines| && !Skipped(lines[i])
    ensures ParseLine(Strip(lines[i])).Some?
    ensures var pair := ParseLine(Strip(lines[i])).value;
            MilestoneConstraint(pair.0, pair.1, first + i, lines[i]) in ParseLines(lines, first).value
    decreases |lines|
  {
    FirstIsRead(lines, first);
    if i > 0 {
      assert lines[1..][i-1] == lines[i];
      LineIsRead(lines[1..], first + 1, i - 1);
    }
  }

  /** `"\n".join(constraint.render() ...)` */
  function Joined(cs: seq<MilestoneConstraint>): string
    requires cs != []
  {
    if |cs| == 1 then cs[0].Render() else cs[0].Render() + "\n" + Joined(cs[1..])
  }

  function Render(cs: seq<MilestoneConstraint>): string {
    if cs == [] then "" else Joined(cs) + "\n"
  }

  // ----- round trips -----

  /** A reference the parser can produce: a legal library and a version with its `v`. */
  predicate WellFormed(r: LibraryVersion) {
    IsLibrary(r.library) && r.version != [] && r.version[0] == 'v' && IsTriple(r.version[1..])
  }

  predicate WellFormedPlan(cs: seq<MilestoneConstraint>) {
    forall i :: 0 <= i < |cs| ==> WellFormed(cs[i].required) && WellFormed(cs[i].dependent)
  }

  lemma {:induction false} SplitCharacters(s: string, c: char, k: nat)
    requires k < |s| && s[k] != c
    ensures exists i, j :: 0 <= i < |SplitOn(s, c)| && 0 <= j < |SplitOn(s, c)[i]| && SplitOn(s, c)[i][j] == s[k]
    decreases |s|
  {
    var r := SplitOn(s, c);
    if s[0] == c {
      SplitCharacters(s[1..], c, k - 1);
      var i, j :| 0 <= i < |SplitOn(s[1..], c)| && 0 <= j < |SplitOn(s[1..], c)[i]| && SplitOn(s[1..], c)[i][j] == s[k];
      assert r[i+1][j] == s[k];
    } else if k == 0 {
      assert r[0][0] == s[0];
    } else {
      SplitCharacters(s[1..], c, k - 1);
      var rest := SplitOn(s[1..], c);
      var i, j :| 0 <= i < |rest| && 0 <= j < |rest[i]| && rest[i][j] == s[k];
      assert r[i][if i == 0 then j + 1 else j] == s[k];
    }
  }

  lemma TripleHasNoSpace(w: string)
    requires IsTriple(w)
    ensures w != [] && NoSpace(w)
  {
    forall k | 0 <= k < |w| ensures !IsSpace(w[k]) {
      if w[k] != '.' {
        SplitCharacters(w, '.', k);
        var i, j :| 0 <= i < 3 && 0 <= j < |SplitOn(w, '.')[i]| && SplitOn(w, '.')[i][j] == w[k];
        assert IsDigit(SplitOn(w, '.')[i][j]);
      }
    }
  }

  lemma WellFormedWords(r: LibraryVersion)
    requires WellFormed(r)
    ensures NoSpace(r.library) && NoSpace(r.version) && r.library != [] && IsVersion(r.version)
    ensures r.library[0] != '#'
    ensures NormalizeVersion(r.version) == r.version
  {
    TripleHasNoSpace(r.version[1..]);
    assert r.version == ['v'] + r.version[1..];
    assert IsLibraryChar(r.library[0]);
    StripNothing(r.version);
  }

  lemma {:induction false} WordLengthOf(w: string, rest: string)
    requires NoSpace(w) && (rest == [] || IsSpace(rest[0]))
    ensures WordLength(w + rest) == |w|
    decreases |w|
  {
    if w != [] {
      assert !IsSpace(w[0]) && (w + rest)[1..] == w[1..] + rest;
      WordLengthOf(w[1..], rest);
    } else {
      assert w + rest == rest;
    }
  }

  /** The first word of a text that starts with one. */
  lemma FirstWord(w: string, rest: string)
    requires w != [] && NoSpace(w)
    ensures Words(w + " " + rest) == [w] + Words(rest)
    ensures Words(w) == [w]
  {
    var t := w + " " + rest;
    assert !IsSpace(w[0]) && t[0] == w[0] && t == w + (" " + rest);
    WordLengthOf(w, " " + rest);
    assert t[..|w|] == w && t[|w|..] == " " + rest;
    assert (" " + rest)[1..] == rest;
    WordLengthOf(w, "");
    assert w + "" == w && w[..|w|] == w && w[|w|..] == "";
    assert Words("") == [];
  }

  lemma {:induction false} LineLengthOf(l: string, rest: string)
    requires OneLine(l)
    ensures LineLength(l + "\n" + rest) == |l|
    decreases |l|
  {
    if l != [] {
      assert !IsLineBreak(l[0]) && (l + "\n" + rest)[1..] == l[1..] + "\n" + rest;
      LineLengthOf(l[1..], rest);
    }
  }

  lemma FirstLine(l: string, rest: string)
    requires OneLine(l)
    ensures Lines(l + "\n" + rest) == [l] + Lines(rest)
  {
    LineLengthOf(l, rest);
    var t := l + "\n" + rest;
    assert t[..|l|] == l && t[|l|+1..] == rest && t[|l|] == '\n';
  }

  predicate LineSafe(s: string) {
    forall i :: 0 <= i < |s| ==> !IsSpace(s[i]) || s[i] == ' '
  }

  lemma SafeConcat(s: string, t: string)
    requires LineSafe(s) && LineSafe(t)
    ensures LineSafe(s + t)
  {
  }

  function Spaced(ws: seq<string>): string
    requires ws != []
  {
    if |ws| == 1 then ws[0] else ws[0] + " " + Spaced(ws[1..])
  }

  lemma {:induction false} WordsOfSpaced(ws: seq<string>)
    requires ws != [] && forall i :: 0 <= i < |ws| ==> ws[i] != [] && NoSpace(ws[i])
    ensures Words(Spaced(ws)) == ws
    decreases |ws|
  {
    if |ws| == 1 {
      FirstWord(ws[0], "");
    } else {
      FirstWord(ws[0], Spaced(ws[1..]));
      WordsOfSpaced(ws[1..]);
    }
  }

  lemma RenderIsSpaced(c: MilestoneConstraint)
    ensures c.Render() == Spaced([c.required.library, c.required.version, "requis", "avant",
                                  c.dependent.library, c.dependent.version])
  {
    var a, v, b, w := c.required.library, c.required.version, c.dependent.library, c.dependent.version;
    var s1, s2, s3, s4 := [b, w], ["avant", b, w], ["requis", "avant", b, w], [v, "requis", "avant", b, w];
    assert s1[1..] == [w] && Spaced(s1) == b + " " + w;
    assert s2[1..] == s1 && Spaced(s2) == "avant" + " " + Spaced(s1);
    assert s3[1..] == s2 && Spaced(s3) == "requis" + " " + Spaced(s2);
    assert s4[1..] == s3 && Spaced(s4) == v + " " + Spaced(s3);
    assert [a, v, "requis", "avant", b, w][1..] == s4;
    assert c.Render() == a + " " + (v + " " + ("requis" + " " + ("avant" + " " + (b + " " + w))));
  }

  lemma RenderedIsOneStrippedLine(c: MilestoneConstraint)
    requires WellFormed(c.required) && WellFormed(c.dependent)
    ensures OneLine(c.Render()) && Strip(c.Render()) == c.Render() && !Ignored(c.Render())
  {
    WellFormedWords(c.required);
    WellFormedWords(c.dependent);
    var a, v, b, w := c.required.library, c.required.version, c.dependent.library, c.dependent.version;
    assert LineSafe(a) && LineSafe(v) && LineSafe(b) && LineSafe(w) && LineSafe(" ") && LineSafe(" requis avant ");
    SafeConcat(a, " ");
    SafeConcat(a + " ", v);
    SafeConcat(c.required.Label(), " requis avant ");
    SafeConcat(b, " ");
    SafeConcat(b + " ", w);
    SafeConcat(c.required.Label() + " requis avant ", c.dependent.Label());
    var line := c.Render();
    assert line[0] == a[0] && line[|line|-1] == w[|w|-1];
    StripNothing(line);
  }

  /** The match depends on the words of the line alone. */
  lemma ParseWords(line: string, ws: seq<string>)
    requires Words(line) == ws && |ws| == 6
    requires IsLibrary(ws[0]) && IsVersion(ws[1]) && IsLibrary(ws[4]) && IsVersion(ws[5])
    requires ws[2] == "requis" && ws[3] == "avant"
    ensures ParseLine(line) == Some((LibraryVersion(ws[0], NormalizeVersion(ws[1])),
                                     LibraryVersion(ws[4], NormalizeVersion(ws[5]))))
  {
  }

  lemma TripleIsVersion(r: LibraryVersion)
    requires WellFormed(r)
    ensures IsVersion(r.version[1..]) && NormalizeVersion(r.version[1..]) == r.version && r.version[1..] != [] && NoSpace(r.version[1..])
    ensures IsLibrary(r.library) && r.library != [] && NoSpace(r.library)
  {
    var w := r.version[1..];
    WellFormedWords(r);
    TripleHasNoSpace(w);
    assert SplitOn(w, '.')[0] != [] && SplitOn(w, '.')[0][0] == w[0];
    StripNothing(w);
    assert r.version == ['v'] + w;
  }

  lemma SixWordsMatch(ws: seq<string>, a: LibraryVersion, b: LibraryVersion)
    requires |ws| == 6 && forall i :: 0 <= i < |ws| ==> ws[i] != [] && NoSpace(ws[i])
    requires IsLibrary(ws[0]) && IsVersion(ws[1]) && IsLibrary(ws[4]) && IsVersion(ws[5]) && ws[2] == "requis" && ws[3] == "avant"
    requires ws[0] == a.library && NormalizeVersion(ws[1]) == a.version && ws[4] == b.library && NormalizeVersion(ws[5]) == b.version
    ensures ParseLine(Spaced(ws)) == Some((a, b))
  {
    WordsOfSpaced(ws);
    ParseWords(Spaced(ws), ws);
  }

  /** The `v` of a version may be left out. */
  lemma LineWithoutV(a: LibraryVersion, b: LibraryVersion)
    requires WellFormed(a) && WellFormed(b)
    ensures ParseLine(Spaced([a.library, a.version[1..], "requis", "avant", b.library, b.version[1..]])) == Some((a, b))
  {
    var ws := [a.library, a.version[1..], "requis", "avant", b.library, b.version[1..]];
    TripleIsVersion(a);
    TripleIsVersion(b);
    SixWordsMatch(ws, a, b);
  }

  lemma RenderedLine(c: MilestoneConstraint)
    requires WellFormed(c.required) && WellFormed(c.dependent)
    ensures ParseLine(c.Render()) == Some((c.required, c.dependent))
  {
    var a, v, b, w := c.required.library, c.required.version, c.dependent.library, c.dependent.version;
    WellFormedWords(c.required);
    WellFormedWords(c.dependent);
    var ws := [a, v, "requis", "avant", b, w];
    WordsOfSpaced(ws);
    RenderIsSpaced(c);
    ParseWords(c.Render(), ws);
  }

  /** `ds` states the constraints of `cs`, in order, read back from consecutive lines. */
  ghost predicate ReadBack(cs: seq<MilestoneConstraint>, ds: seq<MilestoneConstraint>, first: nat) {
    && |ds| == |cs|
    && forall i :: 0 <= i < |cs| ==>
         ds[i] == MilestoneConstraint(cs[i].required, cs[i].dependent, first + i, cs[i].Render())
  }

  lemma ReadBackCons(c: MilestoneConstraint, cs: seq<MilestoneConstraint>, ds: seq<MilestoneConstraint>, first: nat)
    requires ReadBack(cs, ds, first + 1)
    ensures ReadBack([c] + cs, [MilestoneConstraint(c.required, c.dependent, first, c.Render())] + ds, first)
  {
  }

  lemma ParseRendered(c: MilestoneConstraint, rest: seq<string>, first: nat)
    requires WellFormed(c.required) && WellFormed(c.dependent) && ParseLines(rest, first + 1).Ok?
    ensures ParseLines([c.Render()] + rest, first) ==
            Ok([MilestoneConstraint(c.required, c.dependent, first, c.Render())] + ParseLines(rest, first + 1).value)
  {
    RenderedIsOneStrippedLine(c);
    RenderedLine(c);
    assert ([c.Render()] + rest)[1..] == rest;
  }

  lemma RenderStartsWithLine(cs: seq<MilestoneConstraint>)
    requires cs != [] && WellFormedPlan(cs)
    ensures Lines(Render(cs)) == [cs[0].Render()] + Lines(Render(cs[1..]))
  {
    var l, tail := cs[0].Render(), Render(cs[1..]);
    assert Render(cs) == l + "\n" + tail;
    RenderedIsOneStrippedLine(cs[0]);
    FirstLine(l, tail);
  }

  lemma {:induction false} RenderedLines(cs: seq<MilestoneConstraint>, first: nat)
    requires WellFormedPlan(cs)
    ensures ParseLines(Lines(Render(cs)), first).Ok?
    ensures ReadBack(cs, ParseLines(Lines(Render(cs)), first).value, first)
    decreases |cs|
  {
    if cs != [] {
      var rest := Lines(Render(cs[1..]));
      RenderStartsWithLine(cs);
      RenderedLines(cs[1..], first + 1);
      ParseRendered(cs[0], rest, first);
      ReadBackCons(cs[0], cs[1..], ParseLines(rest, first + 1).value, first);
      assert cs == [cs[0]] + cs[1..];
    }
  }

  /** Parsing the rendering of a plan gives its constraints back, in order. */
  lemma ParseAfterRender(cs: seq<MilestoneConstraint>)
    requires WellFormedPlan(cs)
    ensures ParseText(Render(cs)).Ok? && ReadBack(cs, ParseText(Render(cs)).value, 1)
  {
    RenderedLines(cs, 1);
  }

  lemma NormalizedVersion(w: string)
    requires IsVersion(w)
    ensures NormalizeVersion(w)[0] == 'v' && IsTriple(NormalizeVersion(w)[1..])
  {
    var digits := if w != [] && w[0] == 'v' then w[1..] else w;
    TripleHasNoSpace(digits);
    assert w == digits || w == ['v'] + digits;
    StripNothing(w);
    assert ("v" + w)[1..] == w;
  }

  lemma {:induction false} ParsedIsWellFormed(lines: seq<string>, first: nat)
    requires ParseLines(lines, first).Ok?
    ensures WellFormedPlan(ParseLines(lines, first).value)
    decreases |lines|
  {
    if lines != [] {
      ParsedIsWellFormed(lines[1..], first + 1);
      if !Ignored(Strip(lines[0])) {
        var w := Words(Strip(lines[0]));
        NormalizedVersion(w[1]);
        NormalizedVersion(w[5]);
      }
    }
  }

  lemma {:induction false} JoinedIgnoresPositions(cs: seq<MilestoneConstraint>, ds: seq<MilestoneConstraint>)
    requires |cs| == |ds| && cs != []
    requires forall i :: 0 <= i < |cs| ==> cs[i].required == ds[i].required && cs[i].dependent == ds[i].dependent
    ensures Joined(cs) == Joined(ds)
    decreases |cs|
  {
    assert cs[0].Render() == ds[0].Render();
    if |cs| > 1 {
      JoinedIgnoresPositions(cs[1..], ds[1..]);
    }
  }

  /** Rendering what was parsed is a fixed point: parsing and rendering again changes nothing. */
  lemma RenderAfterParseIsStable(text: string)
    requires ParseText(text).Ok?
    ensures var once := Render(ParseText(text).value);
            ParseText(once).Ok? && Render(ParseText(once).value) == once
  {
    var cs := ParseText(text).value;
    ParsedIsWellFormed(Lines(text), 1);
    ParseAfterRender(cs);
    if cs != [] {
      JoinedIgnoresPositions(cs, ParseText(Render(cs)).value);
    }
  }
}
