/**
 * The two line patterns of parser.py, `_COLON_PATTERN` and
 * `_TABULAR_PATTERN`, written out as recognisers, each with the
 * declarative reading of the regular expression it replaces:
 *
 *   colon:    ^\s*(name: [A-Za-z][N]+?)\s*:\s*(value: \d+(\.\d+)?)\b
 *   tabular:  ^\s*(name: [A-Za-z][N]*?)\s*[:.\-–—]*\s+(value: \d+(\.\d+)?)\b
 *
 * where N is the name class (ASCII letters and digits, space, `/-(),.:'`).
 * Both names are lazy: the match ends the name at the first position from
 * which the rest of the pattern matches. Positions are indices into the line.
 */
module Patterns {
  import opened Optional
  import opened Text

  // ------------------------------------------------------------------
  // Character classes and spans
  // ------------------------------------------------------------------

  /** The character classes the patterns use. */
  datatype Class = Space | Digit | Letter | Sep | NameChar

  /** `\s`, `\d`, `[A-Za-z]`, `[:.\-–—]` (colon, period, hyphen, en dash, em dash), and the
      class a name continues with after its first letter: ASCII letters and
      digits, space and `/-(),.:'`. */
  predicate In(cls: Class, c: char) {
    match cls
    case Space => IsSpace(c)
    case Digit => IsDigit(c)
    case Letter => IsLetter(c)
    case Sep => c == ':' || c == '.' || c == '-' || c == '\U{2013}' || c == '\U{2014}'
    case NameChar =>
      IsLetter(c) || IsDigit(c) || c == ' ' || c == '/' || c == '-' || c == '(' || c == ')'
      || c == ',' || c == '.' || c == ':' || c == '\''
  }

  /** Every character of `s[i..j]` is in class `cls`. */
  predicate Span(s: string, i: nat, j: nat, cls: Class)
    requires i <= j <= |s|
  {
    forall k :: i <= k < j ==> In(cls, s[k])
  }

  /** The greedy run of class `cls` starting at `i`: its end. */
  function SkipWhile(s: string, i: nat, cls: Class): (r: nat)
    requires i <= |s|
    ensures i <= r <= |s|
    ensures Span(s, i, r, cls)
    ensures r == |s| || !In(cls, s[r])
    decreases |s| - i
  {
    if i < |s| && In(cls, s[i]) then SkipWhile(s, i + 1, cls) else i
  }

  /** A run of class `cls` from `i` that stops at `j` ends exactly there. */
  lemma {:induction false} SkipWhileAt(s: string, i: nat, j: nat, cls: Class)
    requires i <= j <= |s|
    requires Span(s, i, j, cls)
    requires j == |s| || !In(cls, s[j])
    ensures SkipWhile(s, i, cls) == j
    decreases j - i
  {
    if i < j {
      SkipWhileAt(s, i + 1, j, cls);
    }
  }

  /** A run of class `cls` from `i` reaches at least as far as any span of it. */
  lemma {:induction false} SkipWhileCovers(s: string, i: nat, j: nat, cls: Class)
    requires i <= j <= |s|
    requires Span(s, i, j, cls)
    ensures j <= SkipWhile(s, i, cls)
    decreases j - i
  {
    if i < j {
      SkipWhileCovers(s, i + 1, j, cls);
    }
  }

  // ------------------------------------------------------------------
  // The value group `\d+(\.\d+)?\b`
  // ------------------------------------------------------------------

  /** `s[i..j]` is in the language `\d+(\.\d+)?`. */
  predicate IsDecimalAt(s: string, i: nat, j: nat)
    requires i <= j <= |s|
  {
    (i < j && Span(s, i, j, Digit))
    || (exists d :: i < d < j - 1 && s[d] == '.' && Span(s, i, d, Digit) && Span(s, d + 1, j, Digit))
  }

  /** `\b` at position `q`: exactly one of its neighbours is a word character. */
  predicate WordBoundary(s: string, q: nat)
    requires q <= |s|
  {
    (q > 0 && IsWordChar(s[q - 1])) != (q < |s| && IsWordChar(s[q]))
  }

  /** Where `\d+(\.\d+)?\b` starting at `v` ends. The greedy fraction is kept
      when a boundary follows it; otherwise the match backs off to the integer
      part, which a following period always bounds. */
  function ValueEnd(s: string, v: nat): (r: Option<nat>)
    requires v <= |s|
    ensures r.Some? ==> v < r.value <= |s| && IsDigit(s[v])
  {
    var q1 := SkipWhile(s, v, Digit);
    if q1 == v then None
    else if q1 + 1 < |s| && s[q1] == '.' && IsDigit(s[q1 + 1]) then
      var q2 := SkipWhile(s, q1 + 1, Digit);
      if WordBoundary(s, q2) then Some(q2) else Some(q1)
    else if WordBoundary(s, q1) then Some(q1)
    else None
  }

  /** What the value group takes is a decimal literal followed by `\b`. */
  lemma ValueEndSound(s: string, v: nat)
    requires v <= |s| && ValueEnd(s, v).Some?
    ensures IsDecimalAt(s, v, ValueEnd(s, v).value) && WordBoundary(s, ValueEnd(s, v).value)
  {
    var q1 := SkipWhile(s, v, Digit);
    if q1 + 1 < |s| && s[q1] == '.' && IsDigit(s[q1 + 1]) {
      var q2 := SkipWhile(s, q1 + 1, Digit);
      if WordBoundary(s, q2) {
        assert Span(s, v, q1, Digit) && Span(s, q1 + 1, q2, Digit);
      }
    }
  }

  /** The value group is greedy and exact: every end at which the language
      and the boundary both hold is at most the one chosen, so in particular
      there is none when none is chosen. */
  lemma ValueEndGreatest(s: string, v: nat, q: nat)
    requires v < q <= |s|
    requires IsDecimalAt(s, v, q) && WordBoundary(s, q)
    ensures ValueEnd(s, v).Some? && q <= ValueEnd(s, v).value
  {
    var q1 := SkipWhile(s, v, Digit);
    if Span(s, v, q, Digit) {
      assert IsWordChar(s[q - 1]);
      SkipWhileAt(s, v, q, Digit);
    } else {
      var d :| v < d < q - 1 && s[d] == '.' && Span(s, v, d, Digit) && Span(s, d + 1, q, Digit);
      SkipWhileAt(s, v, d, Digit);
      assert IsWordChar(s[q - 1]);
      SkipWhileAt(s, d + 1, q, Digit);
    }
  }

  /** The positions of a match: where the name starts and ends, and where
      the value starts and ends. */
  datatype Spans = Spans(nameStart: nat, nameEnd: nat, valueStart: nat, valueEnd: nat)

  /** The two groups of a match. */
  datatype Match = Match(name: string, value: string)

  /** The groups a match's positions delimit. */
  function Groups(s: string, m: Spans): (r: Match)
    requires m.nameStart <= m.nameEnd <= m.valueStart <= m.valueEnd <= |s|
    ensures |r.name| == m.nameEnd - m.nameStart && |r.value| == m.valueEnd - m.valueStart
  {
    Match(s[m.nameStart..m.nameEnd], s[m.valueStart..m.valueEnd])
  }

  /** A name of at least `least` characters may occupy `s[p..e]`: only
      whitespace before it, a letter first, name characters after. */
  predicate NameAt(s: string, p: nat, e: nat, least: nat)
  {
    p < e && p + least <= e <= |s| && Span(s, 0, p, Space) && In(Letter, s[p])
    && Span(s, p + 1, e, NameChar)
  }

  /** The only place a name can start: after all leading whitespace. */
  lemma NameStart(s: string, p: nat, e: nat, least: nat)
    requires NameAt(s, p, e, least)
    ensures p == SkipWhile(s, 0, Space)
  {
    SkipWhileAt(s, 0, p, Space);
  }

  /** The result of trying the rest of a pattern after each possible name
      end: `None`, or where the value starts and ends. */
  type Rests = seq<Option<(nat, nat)>>

  /** The lazy name group: the first name end from `e` on at which the rest of
      the pattern matches, the name growing only over name characters. */
  function LazyFrom(s: string, rests: Rests, p: nat, e: nat): (r: Option<Spans>)
    requires |rests| == |s| + 1 && p < e <= |s|
    ensures r.Some? ==> r.value.nameStart == p && e <= r.value.nameEnd <= |s|
    ensures r.Some? ==> rests[r.value.nameEnd] == Some((r.value.valueStart, r.value.valueEnd))
    decreases |s| - e
  {
    match rests[e]
    case Some((v, q)) => Some(Spans(p, e, v, q))
    case None => if e < |s| && In(NameChar, s[e]) then LazyFrom(s, rests, p, e + 1) else None
  }

  /** What the lazy search returns is the first end that admits the rest. */
  lemma {:induction false} LazyFound(s: string, rests: Rests, p: nat, e: nat) returns (e': nat)
    requires |rests| == |s| + 1 && p < e <= |s|
    requires LazyFrom(s, rests, p, e).Some?
    ensures e <= e' <= |s| && Span(s, e, e', NameChar) && rests[e'].Some?
    ensures forall x :: e <= x < e' ==> rests[x].None?
    ensures LazyFrom(s, rests, p, e) == Some(Spans(p, e', rests[e'].value.0, rests[e'].value.1))
    decreases |s| - e
  {
    if rests[e].Some? {
      e' := e;
    } else {
      e' := LazyFound(s, rests, p, e + 1);
    }
  }

  /** The lazy search succeeds when some end reachable over name characters
      admits the rest. */
  lemma {:induction false} LazySome(s: string, rests: Rests, p: nat, e: nat, x: nat)
    requires |rests| == |s| + 1 && p < e <= x <= |s| && Span(s, e, x, NameChar)
    requires rests[x].Some?
    ensures LazyFrom(s, rests, p, e).Some?
    decreases x - e
  {
    if e < x && rests[e].None? {
      LazySome(s, rests, p, e + 1, x);
    }
  }

  // ------------------------------------------------------------------
  // The colon pattern
  // ------------------------------------------------------------------

  /** `\s*:\s*` spans `s[e..v]`. */
  predicate ColonGap(s: string, e: nat, v: nat)
    requires e <= v <= |s|
  {
    exists w :: e <= w < v && Span(s, e, w, Space) && s[w] == ':' && Span(s, w + 1, v, Space)
  }

  /** The part after the name, `\s*:\s*` and the value, tried at `e`: where
      the value starts and ends. */
  function ColonRest(s: string, e: nat): (r: Option<(nat, nat)>)
    requires e <= |s|
    ensures r.Some? ==> e < r.value.0 < r.value.1 <= |s|
  {
    var w := SkipWhile(s, e, Space);
    if w < |s| && s[w] == ':' then
      var v := SkipWhile(s, w + 1, Space);
      match ValueEnd(s, v)
      case None => None
      case Some(q) => Some((v, q))
    else None
  }

  /** `ColonRest` at every position of the line. */
  function ColonRests(s: string): (r: Rests)
    ensures |r| == |s| + 1 && forall x :: 0 <= x <= |s| ==> r[x] == ColonRest(s, x)
  {
    seq(|s| + 1, x requires 0 <= x <= |s| => ColonRest(s, x))
  }

  /** What `ColonRest` finds is a colon gap followed by a value. */
  lemma ColonRestSound(s: string, e: nat)
    requires e <= |s| && ColonRest(s, e).Some?
    ensures ColonGap(s, e, ColonRest(s, e).value.0)
    ensures ValueEnd(s, ColonRest(s, e).value.0) == Some(ColonRest(s, e).value.1)
  {
    var w := SkipWhile(s, e, Space);
    assert e <= w < ColonRest(s, e).value.0 && s[w] == ':';
  }

  /** Whenever a colon gap is followed by a value, `ColonRest` finds it. */
  lemma ColonRestComplete(s: string, e: nat, v: nat)
    requires e <= v <= |s|
    requires ColonGap(s, e, v) && ValueEnd(s, v).Some?
    ensures ColonRest(s, e) == Some((v, ValueEnd(s, v).value))
  {
    var w :| e <= w < v && Span(s, e, w, Space) && s[w] == ':' && Span(s, w + 1, v, Space);
    SkipWhileAt(s, e, w, Space);
    assert IsDigit(s[v]);
    SkipWhileAt(s, w + 1, v, Space);
  }

  /** The colon pattern matches with its name at `s[p..e]`. */
  predicate ColonAt(s: string, p: nat, e: nat)
  {
    NameAt(s, p, e, 2) && ColonRest(s, e).Some?
  }

  /** Where `_COLON_PATTERN.match(line)` puts its groups. */
  function ColonSpans(s: string): (r: Option<Spans>)
    ensures r.Some? ==> r.value.nameStart < r.value.nameEnd < r.value.valueStart < r.value.valueEnd <= |s|
  {
    var p := SkipWhile(s, 0, Space);
    if p + 1 < |s| && In(Letter, s[p]) && In(NameChar, s[p + 1]) then
      LazyFrom(s, ColonRests(s), p, p + 2)
    else None
  }

  /** `_COLON_PATTERN.match(line)`: the name and value groups. */
  function ColonMatch(s: string): (r: Option<Match>)
    ensures r.Some? ==> |r.value.name| >= 2 && |r.value.value| >= 1
  {
    match ColonSpans(s)
    case None => None
    case Some(m) => Some(Groups(s, m))
  }

  /** Whenever the regex can match, the recogniser does. */
  lemma ColonMatchComplete(s: string, p: nat, e: nat)
    requires ColonAt(s, p, e)
    ensures ColonSpans(s).Some?
  {
    NameStart(s, p, e, 2);
    LazySome(s, ColonRests(s), p, p + 2, e);
  }

  /** When it matches, the name ends at the first end the regex admits (the
      lazy group) and the groups are the ones that end delimits. */
  lemma ColonMatchLeast(s: string) returns (p: nat, e: nat)
    requires ColonSpans(s).Some?
    ensures ColonAt(s, p, e)
    ensures forall x: nat :: x < e ==> !ColonAt(s, p, x)
    ensures ColonSpans(s).value == Spans(p, e, ColonRest(s, e).value.0, ColonRest(s, e).value.1)
  {
    p := SkipWhile(s, 0, Space);
    e := LazyFound(s, ColonRests(s), p, p + 2);
  }

  // ------------------------------------------------------------------
  // The tabular pattern
  // ------------------------------------------------------------------

  /** `\s*[:.\-–—]*\s+` spans `s[e..c]`. */
  predicate TabGap(s: string, e: nat, c: nat)
    requires e <= c <= |s|
  {
    exists a, b :: e <= a <= b < c && Span(s, e, a, Space) && Span(s, a, b, Sep) && Span(s, b, c, Space)
  }

  /** The part after the name, separator run and value, tried at `e`: where
      the value starts and ends. Read greedily, the last whitespace run must
      be non-empty, except when there are no separators, when the first run
      serves. */
  function TabRest(s: string, e: nat): (r: Option<(nat, nat)>)
    requires e <= |s|
    ensures r.Some? ==> e < r.value.0 < r.value.1 <= |s|
  {
    var a := SkipWhile(s, e, Space);
    var b := SkipWhile(s, a, Sep);
    var c := SkipWhile(s, b, Space);
    var gap := if b == a then e < a else b < c;
    if !gap then None
    else
      match ValueEnd(s, c)
      case None => None
      case Some(q) => Some((c, q))
  }

  /** `TabRest` at every position of the line. */
  function TabRests(s: string): (r: Rests)
    ensures |r| == |s| + 1 && forall x :: 0 <= x <= |s| ==> r[x] == TabRest(s, x)
  {
    seq(|s| + 1, x requires 0 <= x <= |s| => TabRest(s, x))
  }

  /** What `TabRest` finds is a separator gap followed by a value. */
  lemma TabRestSound(s: string, e: nat)
    requires e <= |s| && TabRest(s, e).Some?
    ensures TabGap(s, e, TabRest(s, e).value.0)
    ensures ValueEnd(s, TabRest(s, e).value.0) == Some(TabRest(s, e).value.1)
  {
    var a := SkipWhile(s, e, Space);
    var b := SkipWhile(s, a, Sep);
    var c := TabRest(s, e).value.0;
    if b == a {
      assert Span(s, e, e, Space) && Span(s, e, e, Sep) && Span(s, e, c, Space);
    } else {
      assert Span(s, e, a, Space) && Span(s, a, b, Sep) && Span(s, b, c, Space);
    }
  }

  /** Whenever a separator gap is followed by a value, `TabRest` finds it. */
  lemma TabRestComplete(s: string, e: nat, c: nat)
    requires e <= c <= |s|
    requires TabGap(s, e, c) && ValueEnd(s, c).Some?
    ensures TabRest(s, e) == Some((c, ValueEnd(s, c).value))
  {
    var a', b' :| e <= a' <= b' < c && Span(s, e, a', Space) && Span(s, a', b', Sep) && Span(s, b', c, Space);
    assert !In(Space, s[c]) && !In(Sep, s[c]);
    if a' < b' {
      SkipWhileAt(s, e, a', Space);
      SkipWhileAt(s, a', b', Sep);
      SkipWhileAt(s, b', c, Space);
    } else {
      SkipWhileAt(s, e, c, Space);
      SkipWhileAt(s, c, c, Sep);
      SkipWhileAt(s, c, c, Space);
    }
  }

  /** The tabular pattern matches with its name at `s[p..e]`. */
  predicate TabAt(s: string, p: nat, e: nat)
  {
    NameAt(s, p, e, 1) && TabRest(s, e).Some?
  }

  /** Where `_TABULAR_PATTERN.match(line)` puts its groups. */
  function TabSpans(s: string): (r: Option<Spans>)
    ensures r.Some? ==> r.value.nameStart < r.value.nameEnd < r.value.valueStart < r.value.valueEnd <= |s|
  {
    var p := SkipWhile(s, 0, Space);
    if p < |s| && In(Letter, s[p]) then
      LazyFrom(s, TabRests(s), p, p + 1)
    else None
  }

  /** `_TABULAR_PATTERN.match(line)`: the name and value groups. */
  function TabMatch(s: string): (r: Option<Match>)
    ensures r.Some? ==> |r.value.name| >= 1 && |r.value.value| >= 1
  {
    match TabSpans(s)
    case None => None
    case Some(m) => Some(Groups(s, m))
  }

  /** Whenever the regex can match, the recogniser does. */
  lemma TabMatchComplete(s: string, p: nat, e: nat)
    requires TabAt(s, p, e)
    ensures TabSpans(s).Some?
  {
    NameStart(s, p, e, 1);
    LazySome(s, TabRests(s), p, p + 1, e);
  }

  /** When it matches, the name ends at the first end the regex admits (the
      lazy group) and the groups are the ones that end delimits. */
  lemma TabMatchLeast(s: string) returns (p: nat, e: nat)
    requires TabSpans(s).Some?
    ensures TabAt(s, p, e)
    ensures forall x: nat :: x < e ==> !TabAt(s, p, x)
    ensures TabSpans(s).value == Spans(p, e, TabRest(s, e).value.0, TabRest(s, e).value.1)
  {
    p := SkipWhile(s, 0, Space);
    e := LazyFound(s, TabRests(s), p, p + 1);
  }

  // ------------------------------------------------------------------
  // Shape of the groups
  // ------------------------------------------------------------------

  /** What either pattern captures: a name that starts with a letter and
      goes on with name characters, and a decimal literal. */
  predicate WellFormed(m: Match) {
    |m.name| > 0 && In(Letter, m.name[0]) && Span(m.name, 1, |m.name|, NameChar)
    && IsDecimalAt(m.value, 0, |m.value|)
  }

  /** A decimal literal inside a line is one on its own. */
  lemma DecimalSlice(s: string, v: nat, q: nat)
    requires v <= q <= |s| && IsDecimalAt(s, v, q)
    ensures IsDecimalAt(s[v..q], 0, q - v)
  {
    var t := s[v..q];
    if !Span(s, v, q, Digit) {
      var d :| v < d < q - 1 && s[d] == '.' && Span(s, v, d, Digit) && Span(s, d + 1, q, Digit);
      assert t[d - v] == '.' && Span(t, 0, d - v, Digit) && Span(t, d - v + 1, q - v, Digit);
    }
  }

  /** The groups of a name position and a value literal are well formed. */
  lemma GroupsWellFormed(s: string, p: nat, e: nat, v: nat, q: nat)
    requires NameAt(s, p, e, 1) && e <= v <= q <= |s| && IsDecimalAt(s, v, q)
    ensures WellFormed(Groups(s, Spans(p, e, v, q)))
  {
    DecimalSlice(s, v, q);
    var m := Groups(s, Spans(p, e, v, q));
    assert forall k :: 1 <= k < |m.name| ==> m.name[k] == s[p + k];
  }

  lemma ColonMatchWellFormed(s: string)
    requires ColonMatch(s).Some?
    ensures WellFormed(ColonMatch(s).value)
  {
    var p, e := ColonMatchLeast(s);
    ColonRestSound(s, e);
    var r := ColonRest(s, e).value;
    ValueEndSound(s, r.0);
    GroupsWellFormed(s, p, e, r.0, r.1);
  }

  lemma TabMatchWellFormed(s: string)
    requires TabMatch(s).Some?
    ensures WellFormed(TabMatch(s).value)
  {
    var p, e := TabMatchLeast(s);
    TabRestSound(s, e);
    var r := TabRest(s, e).value;
    ValueEndSound(s, r.0);
    GroupsWellFormed(s, p, e, r.0, r.1);
  }

  // ------------------------------------------------------------------
  // The value as a number
  // ------------------------------------------------------------------

  function Pow10(n: nat): (r: nat)
    ensures r >= 1
  {
    if n == 0 then 1 else 10 * Pow10(n - 1)
  }

  /** `float(value)` on a decimal literal, exactly. */
  function DecimalValue(t: string): (r: real)
    requires IsDecimalAt(t, 0, |t|)
    ensures r >= 0.0
  {
    var d := SkipWhile(t, 0, Digit);
    if d == |t| then DigitsValue(t) as real
    else
      assert t[d] == '.' && Span(t, d + 1, |t|, Digit) by {
        var d' :| 0 < d' < |t| - 1 && t[d'] == '.' && Span(t, 0, d', Digit) && Span(t, d' + 1, |t|, Digit);
        SkipWhileAt(t, 0, d', Digit);
      }
      DigitsValue(t[..d]) as real + DigitsValue(t[d + 1..]) as real / Pow10(|t| - d - 1) as real
  }

  /** A whole number written out in decimal reads back as itself. */
  lemma DecimalValueOfNat(n: nat)
    ensures IsDecimalAt(NatToString(n), 0, |NatToString(n)|)
    ensures DecimalValue(NatToString(n)) == n as real
  {
    var t := NatToString(n);
    SkipWhileAt(t, 0, |t|, Digit);
    NatToStringValue(n);
  }
}
