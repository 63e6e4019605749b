/**
 * The anchor-line pattern of `MainWindow.handle_serial_data`:
 *
 *     re.search(r"Anchor\s+(\d+)\s+Distance\s+(\S+):\s+([\d\.]+)", line)
 *
 * followed by `int(group 1)`, `group 2` and `float(group 3)`.
 *
 * A match is described by `Match`, the indices where its pieces begin and
 * end, and `Matches` says what the regex demands of the text between them.
 * The hand-written matcher `MatchAt` is proved sound and complete against
 * that description, and `Search` returns the leftmost match, as `re.search`
 * does.
 */
module AnchorPattern {
  import opened Wrappers
  import opened Strings

  /**
   * The boundaries of one match in a line:
   * `Anchor` at `start`, `\s+`, group 1 in [idStart, idEnd), `\s+`,
   * `Distance` at `distStart`, `\s+`, group 2 in [kindStart, kindEnd), `:` at
   * `kindEnd`, `\s+`, group 3 in [tokenStart, tokenEnd).
   */
  datatype Match = Match(start: nat, idStart: nat, idEnd: nat, distStart: nat,
                         kindStart: nat, kindEnd: nat, tokenStart: nat, tokenEnd: nat)

  /** Every character in [lo, hi) satisfies `p`. */
  predicate Span(s: string, lo: nat, hi: nat, p: char -> bool) {
    lo <= hi <= |s| && forall k :: lo <= k < hi ==> p(s[k])
  }

  /** `Anchor\s+(\d+)\s+` at `start`, with group 1 in [idStart, idEnd), followed by `Distance` at `distStart`. */
  predicate HeadFits(s: string, start: nat, idStart: nat, idEnd: nat, distStart: nat) {
    && start + 6 < idStart < idEnd < distStart
    && distStart + 8 <= |s|
    && s[start..start + 6] == "Anchor"
    && Span(s, start + 6, idStart, IsSpace)
    && Span(s, idStart, idEnd, IsDigit)
    && Span(s, idEnd, distStart, IsSpace)
    && s[distStart..distStart + 8] == "Distance"
  }

  /** `\s+(\S+):\s+([\d\.]+)` after the `Distance` at `distStart`. */
  predicate TailFits(s: string, distStart: nat, kindStart: nat, kindEnd: nat, tokenStart: nat, tokenEnd: nat) {
    && distStart + 8 < kindStart < kindEnd
    && kindEnd + 1 < tokenStart < tokenEnd <= |s|
    && Span(s, distStart + 8, kindStart, IsSpace)
    && Span(s, kindStart, kindEnd, NonSpace)
    && s[kindEnd] == ':'
    && Span(s, kindEnd + 1, tokenStart, IsSpace)
    && Span(s, tokenStart, tokenEnd, DigitOrDot)
  }

  /** The text of `s` around the boundaries of `m` is what the pattern demands. */
  predicate Matches(s: string, m: Match) {
    && HeadFits(s, m.start, m.idStart, m.idEnd, m.distStart)
    && TailFits(s, m.distStart, m.kindStart, m.kindEnd, m.tokenStart, m.tokenEnd)
  }

  /** Group 1, the anchor id digits. */
  function Digits(s: string, m: Match): (r: string)
    requires Matches(s, m)
    ensures |r| > 0 && AllOf(r, IsDigit)
  {
    s[m.idStart..m.idEnd]
  }

  /** Group 2, the measurement type. */
  function Kind(s: string, m: Match): (r: string)
    requires Matches(s, m)
    ensures |r| > 0 && AllOf(r, NonSpace)
  {
    s[m.kindStart..m.kindEnd]
  }

  /** Group 3, the distance token. */
  function Token(s: string, m: Match): (r: string)
    requires Matches(s, m)
    ensures |r| > 0 && AllOf(r, DigitOrDot)
  {
    s[m.tokenStart..m.tokenEnd]
  }

  /** The head of a match at `i`: where group 1 and `Distance` lie, if they fit. */
  function HeadAt(s: string, i: nat): (r: Option<(nat, nat, nat)>)
    requires i <= |s|
  {
    if i + 6 > |s| || s[i..i + 6] != "Anchor" then None
    else
      var a := RunEnd(s, i + 6, IsSpace);
      var b := RunEnd(s, a, IsDigit);
      var d := RunEnd(s, b, IsSpace);
      if a == i + 6 || b == a || d == b || d + 8 > |s| || s[d..d + 8] != "Distance" then None
      else Some((a, b, d))
  }

  /** The tail of a match whose `Distance` is at `d`: where groups 2 and 3 lie, if they fit. */
  function TailAt(s: string, d: nat): (r: Option<(nat, nat, nat, nat)>)
    requires d + 8 <= |s|
  {
    var f := RunEnd(s, d + 8, IsSpace);
    var g := RunEnd(s, f, NonSpace);
    if f == d + 8 || g <= f + 1 || s[g - 1] != ':' then None
    else
      var h := RunEnd(s, g, IsSpace);
      var k := RunEnd(s, h, DigitOrDot);
      if h == g || k == h then None
      else Some((f, g - 1, h, k))
  }

  /**
   * Whether the pattern matches starting at index `i`, and where its pieces
   * lie. Each `\s+`, `\d+` and `\S+` is forced to one run by the character
   * that must follow it (a digit is no space, `D` is no space, the colon is
   * a non-space that a space must follow), so at a given start there is at
   * most one match; the last group `[\d\.]+` takes its longest run, as a
   * greedy quantifier does.
   */
  function MatchAt(s: string, i: nat): (r: Option<Match>)
    requires i <= |s|
    ensures r.Some? ==> r.value.start == i && Matches(s, r.value)
    ensures r.Some? ==> r.value.tokenEnd == |s| || !DigitOrDot(s[r.value.tokenEnd])
  {
    HeadAtSound(s, i);
    match HeadAt(s, i)
    case None => None
    case Some((a, b, d)) =>
      TailAtSound(s, d);
      match TailAt(s, d)
      case None => None
      case Some((f, e, h, k)) => Some(Match(i, a, b, d, f, e, h, k))
  }

  /** What `HeadAt` finds fits the head of the pattern. */
  lemma HeadAtSound(s: string, i: nat)
    requires i <= |s|
    ensures var r := HeadAt(s, i);
      r.Some? ==> HeadFits(s, i, r.value.0, r.value.1, r.value.2)
  {
  }

  /** What `TailAt` finds fits the tail of the pattern, with the longest possible number. */
  lemma TailAtSound(s: string, d: nat)
    requires d + 8 <= |s|
    ensures var r := TailAt(s, d);
      && (r.Some? ==> TailFits(s, d, r.value.0, r.value.1, r.value.2, r.value.3))
      && (r.Some? ==> r.value.3 == |s| || !DigitOrDot(s[r.value.3]))
  {
  }

  /**
   * Completeness: wherever the text fits the pattern, `MatchAt` finds a match
   * with the same boundaries, whose last group reaches at least as far (greedy).
   */
  lemma MatchAtComplete(s: string, m: Match)
    requires Matches(s, m)
    ensures MatchAt(s, m.start).Some?
    ensures var r := MatchAt(s, m.start).value;
      r.(tokenEnd := m.tokenEnd) == m && m.tokenEnd <= r.tokenEnd
  {
    HeadAtComplete(s, m);
    TailAtComplete(s, m);
  }

  lemma HeadAtComplete(s: string, m: Match)
    requires HeadFits(s, m.start, m.idStart, m.idEnd, m.distStart)
    ensures HeadAt(s, m.start) == Some((m.idStart, m.idEnd, m.distStart))
  {
    assert s[m.distStart] == 'D' by {
      assert s[m.distStart..m.distStart + 8][0] == s[m.distStart];
    }
    RunEndAt(s, m.start + 6, IsSpace, m.idStart);
    RunEndAt(s, m.idStart, IsDigit, m.idEnd);
    RunEndAt(s, m.idEnd, IsSpace, m.distStart);
  }

  lemma TailAtComplete(s: string, m: Match)
    requires TailFits(s, m.distStart, m.kindStart, m.kindEnd, m.tokenStart, m.tokenEnd)
    ensures TailAt(s, m.distStart).Some?
    ensures var r := TailAt(s, m.distStart).value;
      r.0 == m.kindStart && r.1 == m.kindEnd && r.2 == m.tokenStart && m.tokenEnd <= r.3
  {
    TailRuns(s, m);
    var k := RunEnd(s, m.tokenStart, DigitOrDot);
    RunEndAtLeast(s, m.tokenStart, DigitOrDot, m.tokenEnd);
    assert TailAt(s, m.distStart) == Some((m.kindStart, m.kindEnd, m.tokenStart, k));
  }

  /** The runs `TailAt` measures end exactly at the boundaries of a fitting tail. */
  lemma TailRuns(s: string, m: Match)
    requires TailFits(s, m.distStart, m.kindStart, m.kindEnd, m.tokenStart, m.tokenEnd)
    ensures RunEnd(s, m.distStart + 8, IsSpace) == m.kindStart
    ensures RunEnd(s, m.kindStart, NonSpace) == m.kindEnd + 1
    ensures RunEnd(s, m.kindEnd + 1, IsSpace) == m.tokenStart
  {
    assert !IsSpace(s[m.kindStart]) && !IsSpace(s[m.tokenStart]);
    assert NonSpace(s[m.kindEnd]) && IsSpace(s[m.kindEnd + 1]);
    RunEndAt(s, m.distStart + 8, IsSpace, m.kindStart);
    RunEndAt(s, m.kindStart, NonSpace, m.kindEnd + 1);
    RunEndAt(s, m.kindEnd + 1, IsSpace, m.tokenStart);
  }

  /** The pattern matches at no index in [lo, hi). */
  predicate NoMatchIn(s: string, lo: nat, hi: nat)
    requires hi <= |s| + 1
  {
    forall j :: lo <= j < hi ==> MatchAt(s, j).None?
  }

  /** `re.search`: the leftmost index at or after `from` where the pattern matches. */
  function Search(s: string, from: nat): (r: Option<Match>)
    requires from <= |s|
    ensures r.Some? ==> from <= r.value.start <= |s| && MatchAt(s, r.value.start) == r
    ensures NoMatchIn(s, from, if r.Some? then r.value.start else |s| + 1)
    decreases |s| - from
  {
    match MatchAt(s, from)
    case Some(m) => Some(m)
    case None =>
      if from == |s| then None
      else
        var r := Search(s, from + 1);
        NoMatchInExtend(s, from, if r.Some? then r.value.start else |s| + 1);
        r
  }

  lemma NoMatchInExtend(s: string, lo: nat, hi: nat)
    requires lo < hi <= |s| + 1
    requires lo <= |s| && MatchAt(s, lo).None?
    requires NoMatchIn(s, lo + 1, hi)
    ensures NoMatchIn(s, lo, hi)
  {
  }

  /** Wherever the text fits the pattern, `Search` finds a match there or to its left. */
  lemma SearchIsLeftmost(s: string, m: Match)
    requires Matches(s, m)
    ensures Search(s, 0).Some? && Search(s, 0).value.start <= m.start
  {
    MatchAtComplete(s, m);
  }

  /**
   * Python's `float(token)` on a run of digits and dots: the token parses
   * exactly when it has at most one dot and at least one digit ("4", "4.",
   * ".5", "4.20"); otherwise ("." or "1.2.3") `float` raises. The value is
   * the exact decimal, not a binary double.
   */
  function ParseFloat(token: string): (r: Option<real>)
    requires AllOf(token, DigitOrDot)
    ensures r.Some? <==> Count(token, '.') <= 1 && Count(token, '.') < |token|
    ensures r.Some? ==> r.value >= 0.0
  {
    if '.' !in token then
      if token == [] then None else Some(NatValue(token) as real)
    else
      var k := IndexOf(token, '.');
      var whole, frac := token[..k], token[k + 1..];
      CountFirstDot(token, k);
      if '.' in frac || (whole == [] && frac == []) then None
      else Some(NatValue(whole) as real + NatValue(frac) as real / Pow10(|frac|) as real)
  }

  /** The dots of a token are its first dot and the dots after it. */
  lemma CountFirstDot(token: string, k: nat)
    requires k < |token| && token[k] == '.' && '.' !in token[..k]
    ensures Count(token, '.') == 1 + Count(token[k + 1..], '.')
  {
    var whole, rest := token[..k], token[k..];
    assert token == whole + rest;
    CountAppend(whole, rest, '.');
    assert rest[1..] == token[k + 1..];
  }

  /**
   * The value `float` gives a token, stated on its digits: a token of whole
   * digits `w` is `int(w)`, and `w.f` is the integer of all its digits scaled
   * down by one power of ten per fractional digit ("4.20" is 420 / 100).
   */
  lemma ParseFloatValue(w: string, f: string)
    requires AllOf(w, IsDigit) && AllOf(f, IsDigit) && |w| + |f| > 0
    ensures AllOf(w + "." + f, DigitOrDot) && AllOf(w + f, IsDigit)
    ensures ParseFloat(w + "." + f) == Some(NatValue(w + f) as real / Pow10(|f|) as real)
    ensures |w| > 0 ==> ParseFloat(w) == Some(NatValue(w) as real)
  {
    SplitAtDot(w, f);
    DecimalValue(w, f);
  }

  /** A token of digits, a dot and digits: its first dot sits between the two digit runs. */
  lemma SplitAtDot(w: string, f: string)
    requires AllOf(w, IsDigit) && AllOf(f, IsDigit)
    ensures var token := w + "." + f;
      && AllOf(token, DigitOrDot) && AllOf(w, DigitOrDot)
      && '.' in token && IndexOf(token, '.') == |w|
      && token[..|w|] == w && token[|w| + 1..] == f
      && '.' !in w && '.' !in f
  {
    var token := w + "." + f;
    assert forall i :: 0 <= i < |token| ==> DigitOrDot(token[i]) by {
      forall i | 0 <= i < |token| ensures DigitOrDot(token[i]) {
        if i < |w| { assert token[i] == w[i]; }
        else if i > |w| { assert token[i] == f[i - |w| - 1]; }
      }
    }
    assert '.' !in w by {
      forall i | 0 <= i < |w| ensures w[i] != '.' { assert IsDigit(w[i]); }
    }
    assert '.' !in f by {
      forall i | 0 <= i < |f| ensures f[i] != '.' { assert IsDigit(f[i]); }
    }
    assert token[|w|] == '.' && token[..|w|] == w;
    IndexOfAt(token, '.', |w|);
    assert token[|w| + 1..] == f;
  }

  /** Whole part plus scaled fraction is all the digits scaled down once. */
  lemma DecimalValue(w: string, f: string)
    requires AllOf(w, IsDigit) && AllOf(f, IsDigit)
    ensures AllOf(w + f, IsDigit)
    ensures NatValue(w) as real + NatValue(f) as real / Pow10(|f|) as real
      == NatValue(w + f) as real / Pow10(|f|) as real
  {
    NatValueAppend(w, f);
    var a, b, p := NatValue(w), NatValue(f), Pow10(|f|);
    assert NatValue(w + f) as real == (a * p) as real + b as real;
    ScaleDown(a, b, p);
  }

  /** Dividing `a * p + b` by `p` gives `a` and the fraction `b / p`. */
  lemma ScaleDown(a: nat, b: nat, p: nat)
    requires p >= 1
    ensures ((a * p) as real + b as real) / p as real == a as real + b as real / p as real
  {
    assert (a * p) as real == a as real * p as real;
  }

  /** What the anchor pattern makes of one line. */
  datatype AnchorParse =
    | NoMatch                                              // the regex does not match
    | BadNumber(token: string)                             // it matches, but `float` raises
    | Reading(anchorId: nat, kind: string, distance: real) // key `(anchorId, kind)` and a distance

  /**
   * The anchor branch of `handle_serial_data`: `re.search`, then
   * `int(group 1)`, `group 2` and `float(group 3)`.
   */
  function ParseAnchorLine(line: string): (r: AnchorParse)
    ensures r.Reading? ==> |r.kind| > 0 && AllOf(r.kind, NonSpace) && r.distance >= 0.0
    ensures r.BadNumber? ==> |r.token| > 0 && AllOf(r.token, DigitOrDot)
    ensures r.BadNumber? ==> Count(r.token, '.') > 1 || Count(r.token, '.') == |r.token|
  {
    match Search(line, 0)
    case None => NoMatch
    case Some(m) =>
      match ParseFloat(Token(line, m))
      case None => BadNumber(Token(line, m))
      case Some(v) => Reading(NatValue(Digits(line, m)), Kind(line, m), v)
  }

  /**
   * A line is parsed from its leftmost match, with the longest distance
   * token there: given any match `m` that no match starts before and whose
   * token cannot be extended, the result is built from `m`'s groups.
   */
  lemma ParseUsesLeftmostGreedyMatch(line: string, m: Match)
    requires Matches(line, m)
    requires forall other :: Matches(line, other) ==> m.start <= other.start
    requires m.tokenEnd == |line| || !DigitOrDot(line[m.tokenEnd])
    ensures ParseAnchorLine(line) == match ParseFloat(Token(line, m))
      case None => BadNumber(Token(line, m))
      case Some(v) => Reading(NatValue(Digits(line, m)), Kind(line, m), v)
  {
    SearchIsLeftmost(line, m);
    var found := Search(line, 0).value;
    assert Matches(line, found);
    assert found.start == m.start;
    GreedyMatchIsFound(line, m);
  }

  /** At the start of a match whose token cannot be extended, `MatchAt` finds exactly that match. */
  lemma GreedyMatchIsFound(line: string, m: Match)
    requires Matches(line, m)
    requires m.tokenEnd == |line| || !DigitOrDot(line[m.tokenEnd])
    ensures MatchAt(line, m.start) == Some(m)
  {
    MatchAtComplete(line, m);
    RunEndAt(line, m.tokenStart, DigitOrDot, m.tokenEnd);
  }

  /** A line that yields `NoMatch` fits the pattern nowhere. */
  lemma NoMatchMeansNoMatchAnywhere(line: string, m: Match)
    requires ParseAnchorLine(line).NoMatch?
    ensures !Matches(line, m)
  {
    if Matches(line, m) {
      SearchIsLeftmost(line, m);
    }
  }

  /** The format the firmware prints, as in `Anchor 3 Distance RAW: 4.20`. */
  lemma ExampleReading(s: string)
    requires s == "Anchor 3 Distance RAW: 4.20"
    ensures ParseAnchorLine(s) == Reading(3, "RAW", 4.2)
  {
    var m := Match(0, 7, 8, 9, 18, 21, 23, 27);
    ExampleMatch(s, m);
    ExampleGroups(s, m);
    ExampleFloat();
  }

  lemma ExampleGroups(s: string, m: Match)
    requires s == "Anchor 3 Distance RAW: 4.20" && m == Match(0, 7, 8, 9, 18, 21, 23, 27)
    requires Matches(s, m)
    ensures NatValue(Digits(s, m)) == 3 && Kind(s, m) == "RAW" && Token(s, m) == "4.20"
  {
    assert Digits(s, m) == "3";
  }

  lemma ExampleMatch(s: string, m: Match)
    requires s == "Anchor 3 Distance RAW: 4.20" && m == Match(0, 7, 8, 9, 18, 21, 23, 27)
    ensures Matches(s, m) && Search(s, 0) == Some(m)
  {
    ExampleHead(s, m);
    ExampleTail(s, m);
    MatchAtComplete(s, m);
  }

  lemma ExampleHead(s: string, m: Match)
    requires s == "Anchor 3 Distance RAW: 4.20" && m == Match(0, 7, 8, 9, 18, 21, 23, 27)
    ensures HeadFits(s, m.start, m.idStart, m.idEnd, m.distStart)
  {
    assert s[0..6] == "Anchor";
    assert s[9..17] == "Distance";
  }

  lemma ExampleTail(s: string, m: Match)
    requires s == "Anchor 3 Distance RAW: 4.20" && m == Match(0, 7, 8, 9, 18, 21, 23, 27)
    ensures TailFits(s, m.distStart, m.kindStart, m.kindEnd, m.tokenStart, m.tokenEnd)
  {
    assert Span(s, 18, 21, NonSpace);
    assert Span(s, 23, 27, DigitOrDot);
  }

  lemma ExampleFloat()
    ensures ParseFloat("4.20") == Some(4.2)
  {
    assert NatValue("4") == 4;
    assert NatValue("20") == 20 by { assert "20"[..1] == "2"; }
    assert IndexOf("4.20", '.') == 1;
    assert "4.20"[..1] == "4" && "4.20"[2..] == "20";
  }
}
