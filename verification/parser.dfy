/**
 * parser.py without the PDF reader: the noise filter, `_clean_name`, the
 * acceptance test of `_add`, and `parse_lab_values`, which scans the lines
 * of a report and keeps, per lower-cased name, the first entry found.
 */
module Parser {
  import opened Optional
  import opened Text
  import opened Patterns

  /** One test name and value as found on the report, with the stripped
      line it came from. */
  datatype ExtractedTest = ExtractedTest(rawName: string, value: real, line: string)

  // ------------------------------------------------------------------
  // Noise lines
  // ------------------------------------------------------------------

  /** `^w\s`: the line opens with `w` followed by whitespace. */
  predicate OpensWith(l: string, w: string) {
    |l| > |w| && l[..|w|] == w && IsSpace(l[|w|])
  }

  /** `^w1\s*w2`, or `^w1\s+w2` when `needGap` holds; `after` is where `w2` ends. */
  predicate OpensWithPair(l: string, w1: string, w2: string, needGap: bool) {
    StartsWith(l, w1)
    && var g := SkipWhile(l, |w1|, Space);
    (!needGap || g > |w1|) && StartsWith(l[g..], w2)
  }

  /** `^test\s+name\b`: the column header row. */
  predicate TestNameHeader(l: string) {
    OpensWithPair(l, "test", "name", true)
    && var q := SkipWhile(l, 4, Space) + 4;
    q == |l| || !IsWordChar(l[q])
  }

  /** `_NOISE_PATTERNS.search(t)`, case-insensitively: a page, date, sample,
      patient, referral, age, header, footer, doctor or director line, or
      two asterisks in a row anywhere. */
  predicate NoisePattern(t: string) {
    var l := Lower(t);
    OpensWith(l, "page") || OpensWith(l, "date") || OpensWithPair(l, "sample", "id", false)
    || OpensWith(l, "patient") || OpensWith(l, "referred") || OpensWith(l, "age")
    || TestNameHeader(l) || OpensWithPair(l, "this", "report", true)
    || Contains(t, "**") || OpensWith(l, "dr.") || OpensWith(l, "chief")
  }

  /** `_is_noise(line)`: too short once stripped, or a noise pattern. */
  predicate IsNoise(line: string) {
    var t := Strip(line);
    |t| < 4 || NoisePattern(t)
  }

  /** Lower-casing does not change whether a string contains `**`. */
  lemma {:induction false} ContainsStarsLower(t: string)
    ensures Contains(Lower(t), "**") <==> Contains(t, "**")
    decreases |t|
  {
    if |t| > 0 {
      assert Lower(t)[1..] == Lower(t[1..]);
      ContainsStarsLower(t[1..]);
      if |t| >= 2 {
        assert Lower(t)[..2] == [LowerChar(t[0]), LowerChar(t[1])];
      }
    }
  }

  /** The noise filter ignores letter case. */
  lemma NoiseIgnoresCase(line: string)
    ensures IsNoise(Lower(line)) <==> IsNoise(line)
  {
    StripLower(line);
    LowerIdempotent(Strip(line));
    ContainsStarsLower(Strip(line));
  }

  /** The noise filter ignores surrounding whitespace. */
  lemma NoiseIgnoresSurroundingSpace(line: string)
    ensures IsNoise(Strip(line)) <==> IsNoise(line)
  {
    StripIdempotent(line);
  }

  // ------------------------------------------------------------------
  // Cleaning a name
  // ------------------------------------------------------------------

  /** Positions `k - 1` and `k` are not both whitespace. */
  predicate NoSpacePairAt(s: string, k: nat)
    requires 0 < k < |s|
  {
    !IsSpace(s[k - 1]) || !IsSpace(s[k])
  }

  /** The only whitespace is single plain spaces. */
  predicate IsSingleSpaced(s: string) {
    (forall k :: 0 <= k < |s| && IsSpace(s[k]) ==> s[k] == ' ')
    && forall k :: 0 < k < |s| ==> NoSpacePairAt(s, k)
  }

  /** Putting a character before a single-spaced string keeps it single-spaced
      when that character is not whitespace, or is a space before a non-space. */
  lemma SingleSpacedCons(c: char, s: string)
    requires IsSingleSpaced(s)
    requires IsSpace(c) ==> c == ' ' && (|s| == 0 || !IsSpace(s[0]))
    ensures IsSingleSpaced([c] + s)
  {
    var t := [c] + s;
    forall k | 0 < k < |t| ensures NoSpacePairAt(t, k) {
      if k > 1 {
        assert NoSpacePairAt(s, k - 1);
      }
    }
  }

  /** `re.sub(r"\s+", " ", s)`: every whitespace run becomes one space. */
  function CollapseSpaces(s: string): (r: string)
    ensures IsSingleSpaced(r)
    ensures |r| <= |s| && (|s| == 0 <==> |r| == 0)
    ensures |s| > 0 ==> (IsSpace(r[0]) <==> IsSpace(s[0]))
    ensures |s| > 0 && !IsSpace(s[0]) ==> r[0] == s[0]
    decreases |s|
  {
    if |s| == 0 then ""
    else if IsSpace(s[0]) then
      var rest := CollapseSpaces(s[SkipWhile(s, 0, Space)..]);
      SingleSpacedCons(' ', rest);
      " " + rest
    else
      var rest := CollapseSpaces(s[1..]);
      SingleSpacedCons(s[0], rest);
      [s[0]] + rest
  }

  /** The non-whitespace characters of `s`, in order. */
  function Squeeze(s: string): string
    decreases |s|
  {
    if |s| == 0 then ""
    else if IsSpace(s[0]) then Squeeze(s[1..])
    else [s[0]] + Squeeze(s[1..])
  }

  lemma {:induction false} SqueezeSkip(s: string, k: nat)
    requires k <= |s| && Span(s, 0, k, Space)
    ensures Squeeze(s[k..]) == Squeeze(s)
    decreases k
  {
    if k > 0 {
      assert s[1..][k - 1..] == s[k..];
      SqueezeSkip(s[1..], k - 1);
    }
  }

  /** Collapsing whitespace keeps every other character, in order. */
  lemma {:induction false} CollapseKeepsText(s: string)
    ensures Squeeze(CollapseSpaces(s)) == Squeeze(s)
    decreases |s|
  {
    if |s| > 0 {
      if IsSpace(s[0]) {
        var k := SkipWhile(s, 0, Space);
        CollapseKeepsText(s[k..]);
        SqueezeSkip(s, k);
        assert (" " + CollapseSpaces(s[k..]))[1..] == CollapseSpaces(s[k..]);
      } else {
        CollapseKeepsText(s[1..]);
        assert ([s[0]] + CollapseSpaces(s[1..]))[1..] == CollapseSpaces(s[1..]);
      }
    }
  }

  /** A string that is already single-spaced collapses to itself. */
  lemma {:induction false} CollapseOfSingleSpaced(s: string)
    requires IsSingleSpaced(s)
    ensures CollapseSpaces(s) == s
    decreases |s|
  {
    if |s| > 0 {
      SingleSpacedSlice(s, 1, |s|);
      assert s[1..|s|] == s[1..];
      CollapseOfSingleSpaced(s[1..]);
      if IsSpace(s[0]) {
        if |s| > 1 {
          assert NoSpacePairAt(s, 1);
        }
        SkipWhileAt(s, 0, 1, Space);
      }
    }
  }

  lemma SingleSpacedSlice(s: string, i: nat, j: nat)
    requires IsSingleSpaced(s) && i <= j <= |s|
    ensures IsSingleSpaced(s[i..j])
  {
    var t := s[i..j];
    forall k | 0 < k < |t| ensures NoSpacePairAt(t, k) {
      assert NoSpacePairAt(s, i + k);
    }
  }

  /** The characters `rstrip(":.- ")` removes. */
  predicate IsNameTrail(c: char) { c == ':' || c == '.' || c == '-' || c == ' ' }

  /** `s.rstrip(":.- ")`. */
  function StripNameTrail(s: string): (r: string)
    ensures |r| <= |s| && r == s[..|r|]
    ensures |r| == 0 || !IsNameTrail(r[|r| - 1])
    ensures forall k :: |r| <= k < |s| ==> IsNameTrail(s[k])
    decreases |s|
  {
    if |s| > 0 && IsNameTrail(s[|s| - 1]) then StripNameTrail(s[..|s| - 1]) else s
  }

  /** What `_clean_name` produces: no surrounding whitespace, single
      spaces inside, and no trailing colon, period, hyphen or space. */
  predicate IsCleanName(s: string) {
    IsStripped(s) && IsSingleSpaced(s) && (|s| == 0 || !IsNameTrail(s[|s| - 1]))
  }

  /** Stripping keeps single spacing and an opening non-space character. */
  lemma StripSingleSpaced(x: string)
    requires IsSingleSpaced(x)
    ensures IsSingleSpaced(Strip(x))
    ensures |x| > 0 && !IsSpace(x[0]) && |Strip(x)| > 0 ==> Strip(x)[0] == x[0]
  {
    var i := StripIsSlice(x);
    SingleSpacedSlice(x, i, i + |Strip(x)|);
  }

  /** Removing the trailing punctuation of a stripped, single-spaced string
      leaves a clean name that opens as the string did. */
  lemma StripNameTrailClean(x: string)
    requires IsStripped(x) && IsSingleSpaced(x)
    ensures IsCleanName(StripNameTrail(x))
    ensures |StripNameTrail(x)| > 0 ==> StripNameTrail(x)[0] == x[0]
  {
    var r := StripNameTrail(x);
    SingleSpacedSlice(x, 0, |r|);
    if |r| > 0 {
      assert r[|r| - 1] == x[|r| - 1];
    }
  }

  /** `_clean_name(raw)`. */
  function CleanName(raw: string): (r: string)
    ensures IsCleanName(r)
    ensures |raw| > 0 && !IsSpace(raw[0]) && |r| > 0 ==> r[0] == raw[0]
  {
    var collapsed := CollapseSpaces(raw);
    StripSingleSpaced(collapsed);
    StripNameTrailClean(Strip(collapsed));
    StripNameTrail(Strip(collapsed))
  }

  /** A name is left as it is exactly when it is already clean. */
  lemma CleanNameFixed(s: string)
    ensures CleanName(s) == s <==> IsCleanName(s)
  {
    if IsCleanName(s) {
      CollapseOfSingleSpaced(s);
      StripOfStripped(s);
    }
  }

  /** `_clean_name` is idempotent. */
  lemma CleanNameIdempotent(raw: string)
    ensures CleanName(CleanName(raw)) == CleanName(raw)
  {
    CleanNameFixed(CleanName(raw));
  }

  // ------------------------------------------------------------------
  // One line
  // ------------------------------------------------------------------

  /** `re.fullmatch(r"[\d\s.]+", s)`. */
  predicate AllNumeric(s: string) {
    |s| > 0 && forall k :: 0 <= k < |s| ==> IsDigit(s[k]) || IsSpace(s[k]) || s[k] == '.'
  }

  /** What every stored entry satisfies: a clean name of two or more
      characters opening with a letter (hence not all digits, spaces and
      periods), a non-negative value, and a stripped source line. */
  predicate WellParsed(t: ExtractedTest) {
    IsCleanName(t.rawName) && |t.rawName| >= 2 && IsLetter(t.rawName[0])
    && !AllNumeric(t.rawName) && t.value >= 0.0 && IsStripped(t.line)
  }

  /** The purely-numeric guard of `_add` never rejects a matched name:
      both patterns make the name open with a letter, which cleaning keeps. */
  lemma NumericGuardNeverFires(m: Match)
    requires WellFormed(m)
    ensures |CleanName(m.name)| > 0 ==> IsLetter(CleanName(m.name)[0]) && !AllNumeric(CleanName(m.name))
  {
    var c := CleanName(m.name);
    if |c| > 0 {
      assert c[0] == m.name[0] && IsLetter(c[0]);
      assert !(IsDigit(c[0]) || IsSpace(c[0]) || c[0] == '.');
    }
  }

  /** `_add(name, value, line)` up to the duplicate check: the entry it
      would store for a match, if the cleaned name is acceptable. */
  function Accept(m: Match, line: string): (r: Option<ExtractedTest>)
    requires WellFormed(m)
    ensures r.Some? <==> |CleanName(m.name)| >= 2
    ensures r.Some? ==> WellParsed(r.value) && r.value.rawName == CleanName(m.name)
  {
    var cleaned := CleanName(m.name);
    NumericGuardNeverFires(m);
    if |cleaned| == 0 || |cleaned| < 2 then None
    else if AllNumeric(cleaned) then None
    else Some(ExtractedTest(cleaned, DecimalValue(m.value), Strip(line)))
  }

  /** The entry one line of the report yields before deduplication: none
      for a noise line; from the colon pattern when it matches, and only
      otherwise from the tabular pattern. */
  function ParseLine(line: string): (r: Option<ExtractedTest>)
    ensures r.Some? ==> WellParsed(r.value) && r.value.line == Strip(line)
  {
    if IsNoise(line) then None
    else match ColonMatch(line)
      case Some(m) => ColonMatchWellFormed(line); Accept(m, line)
      case None =>
        match TabMatch(line)
        case Some(m) => TabMatchWellFormed(line); Accept(m, line)
        case None => None
  }

  /** A line the noise filter drops yields nothing. */
  lemma NoiseYieldsNothing(line: string)
    requires IsNoise(line)
    ensures ParseLine(line).None?
  {
  }

  /** An entry comes from a line that is not noise, and from the colon
      pattern's name whenever that pattern matches; the tabular pattern is
      consulted only for lines the colon pattern does not match. */
  lemma ParseLineSource(line: string)
    requires ParseLine(line).Some?
    ensures !IsNoise(line)
    ensures ColonMatch(line).Some? ==> ParseLine(line).value.rawName == CleanName(ColonMatch(line).value.name)
    ensures ColonMatch(line).None? ==>
      TabMatch(line).Some? && ParseLine(line).value.rawName == CleanName(TabMatch(line).value.name)
  {
    if ColonMatch(line).Some? {
      ColonMatchWellFormed(line);
    } else {
      TabMatchWellFormed(line);
    }
  }

  /** A colon line whose name cleans to fewer than two characters yields
      nothing, even when the tabular pattern would match. */
  lemma ColonShadowsTabular(line: string)
    requires !IsNoise(line) && ColonMatch(line).Some?
    requires |CleanName(ColonMatch(line).value.name)| < 2
    ensures ParseLine(line).None?
  {
    ColonMatchWellFormed(line);
  }

  // ------------------------------------------------------------------
  // The whole text
  // ------------------------------------------------------------------

  /** The entries that are present, in order. */
  function Present(os: seq<Option<ExtractedTest>>): (r: seq<ExtractedTest>)
    ensures |r| <= |os|
    decreases |os|
  {
    if |os| == 0 then []
    else
      var init := Present(os[..|os| - 1]);
      match os[|os| - 1]
      case Some(t) => init + [t]
      case None => init
  }

  /** Every present entry is one of the options. */
  lemma {:induction false} PresentOrigin(os: seq<Option<ExtractedTest>>, k: nat) returns (j: nat)
    requires k < |Present(os)|
    ensures j < |os| && os[j] == Some(Present(os)[k])
    decreases |os|
  {
    var init := Present(os[..|os| - 1]);
    if k < |init| {
      j := PresentOrigin(os[..|os| - 1], k);
    } else {
      j := |os| - 1;
    }
  }

  lemma PresentStep(os: seq<Option<ExtractedTest>>, n: nat)
    requires n < |os|
    ensures os[n].Some? ==> Present(os[..n + 1]) == Present(os[..n]) + [os[n].value]
    ensures os[n].None? ==> Present(os[..n + 1]) == Present(os[..n])
  {
    assert os[..n + 1][..n] == os[..n];
  }

  /** What each line yields. */
  function LineEntries(lines: seq<string>): (r: seq<Option<ExtractedTest>>)
    ensures |r| == |lines|
  {
    seq(|lines|, j requires 0 <= j < |lines| => ParseLine(lines[j]))
  }

  /** The entries of all lines, in line order, before deduplication. */
  function Candidates(lines: seq<string>): seq<ExtractedTest> {
    Present(LineEntries(lines))
  }

  /** Every candidate is well parsed and comes from a non-noise line,
      stripped. */
  lemma CandidatesWellParsed(lines: seq<string>, k: nat)
    requires k < |Candidates(lines)|
    ensures WellParsed(Candidates(lines)[k])
    ensures exists j :: 0 <= j < |lines| && !IsNoise(lines[j]) && Candidates(lines)[k].line == Strip(lines[j])
  {
    var j := PresentOrigin(LineEntries(lines), k);
    ParseLineSource(lines[j]);
  }

  // ------------------------------------------------------------------
  // Deduplication
  // ------------------------------------------------------------------

  /** The deduplication key: the lower-cased name. */
  function Key(t: ExtractedTest): string { Lower(t.rawName) }

  function Keys(ts: seq<ExtractedTest>): (r: seq<string>)
    ensures |r| == |ts| && forall i :: 0 <= i < |ts| ==> r[i] == Key(ts[i])
  {
    seq(|ts|, i requires 0 <= i < |ts| => Key(ts[i]))
  }

  lemma KeysSnoc(ts: seq<ExtractedTest>, t: ExtractedTest)
    ensures Keys(ts + [t]) == Keys(ts) + [Key(t)]
  {
  }

  /** The reference deduplication: the candidates whose key no earlier
      candidate has, in order. */
  function FirstOccurrences(cs: seq<ExtractedTest>): (r: seq<ExtractedTest>)
    ensures |r| <= |cs|
    decreases |cs|
  {
    if |cs| == 0 then []
    else
      var init := cs[..|cs| - 1];
      var t := cs[|cs| - 1];
      FirstOccurrences(init) + (if Key(t) in Keys(init) then [] else [t])
  }

  lemma FirstOccurrencesSnoc(cs: seq<ExtractedTest>, t: ExtractedTest)
    ensures FirstOccurrences(cs + [t]) == FirstOccurrences(cs) + (if Key(t) in Keys(cs) then [] else [t])
  {
    assert (cs + [t])[..|cs|] == cs;
  }

  /** Index of the first entry of `ts` with key `key`, or `|ts|`. */
  function FirstWith(ts: seq<ExtractedTest>, key: string): (i: nat)
    ensures i <= |ts|
    ensures i < |ts| ==> Key(ts[i]) == key
    ensures forall k :: 0 <= k < i ==> Key(ts[k]) != key
    decreases |ts|
  {
    if |ts| == 0 then 0
    else if Key(ts[0]) == key then 0
    else 1 + FirstWith(ts[1..], key)
  }

  lemma {:induction false} FirstWithSnoc(ts: seq<ExtractedTest>, t: ExtractedTest, key: string)
    ensures FirstWith(ts + [t], key) ==
      if FirstWith(ts, key) < |ts| then FirstWith(ts, key)
      else if Key(t) == key then |ts| else |ts| + 1
    decreases |ts|
  {
    if |ts| > 0 {
      assert (ts + [t])[1..] == ts[1..] + [t];
      FirstWithSnoc(ts[1..], t, key);
    }
  }

  /** A key occurs in `ts` exactly when its first index is inside `ts`. */
  lemma FirstWithFound(ts: seq<ExtractedTest>, key: string)
    ensures FirstWith(ts, key) < |ts| <==> key in Keys(ts)
  {
    if key in Keys(ts) {
      var i :| 0 <= i < |ts| && Keys(ts)[i] == key;
      assert Key(ts[i]) == key;
    }
  }

  /** Deduplication keeps exactly the keys of its input. */
  lemma {:induction false} FirstOccurrencesKeys(cs: seq<ExtractedTest>)
    ensures forall x :: x in Keys(FirstOccurrences(cs)) <==> x in Keys(cs)
    decreases |cs|
  {
    if |cs| > 0 {
      var init := cs[..|cs| - 1];
      var t := cs[|cs| - 1];
      FirstOccurrencesKeys(init);
      assert cs == init + [t];
      KeysSnoc(init, t);
      var a := FirstOccurrences(init);
      if Key(t) !in Keys(init) {
        KeysSnoc(a, t);
        assert Keys(FirstOccurrences(cs)) == Keys(a) + [Key(t)];
      } else {
        assert Keys(FirstOccurrences(cs)) == Keys(a);
      }
    }
  }

  /** No two kept entries share a key. */
  lemma {:induction false} FirstOccurrencesDistinct(cs: seq<ExtractedTest>)
    ensures forall i, j :: 0 <= i < j < |FirstOccurrences(cs)| ==>
      Key(FirstOccurrences(cs)[i]) != Key(FirstOccurrences(cs)[j])
    decreases |cs|
  {
    if |cs| > 0 {
      var init := cs[..|cs| - 1];
      var t := cs[|cs| - 1];
      FirstOccurrencesDistinct(init);
      FirstOccurrencesKeys(init);
      var a := FirstOccurrences(init);
      if Key(t) !in Keys(init) {
        assert forall i :: 0 <= i < |a| ==> Keys(a)[i] != Key(t);
      }
    }
  }

  /** Each kept entry is the first candidate with its key. */
  lemma {:induction false} FirstOccurrencesFirst(cs: seq<ExtractedTest>)
    ensures forall i :: 0 <= i < |FirstOccurrences(cs)| ==>
      FirstWith(cs, Key(FirstOccurrences(cs)[i])) < |cs|
      && FirstOccurrences(cs)[i] == cs[FirstWith(cs, Key(FirstOccurrences(cs)[i]))]
    decreases |cs|
  {
    if |cs| > 0 {
      var init := cs[..|cs| - 1];
      var t := cs[|cs| - 1];
      assert cs == init + [t];
      FirstOccurrencesFirst(init);
      var a := FirstOccurrences(init);
      var r := FirstOccurrences(cs);
      forall i | 0 <= i < |r|
        ensures FirstWith(cs, Key(r[i])) < |cs| && r[i] == cs[FirstWith(cs, Key(r[i]))]
      {
        FirstWithSnoc(init, t, Key(r[i]));
        if i == |a| {
          FirstWithFound(init, Key(t));
        }
      }
    }
  }

  /** Kept entries appear in the order of their keys' first occurrences. */
  lemma {:induction false} FirstOccurrencesOrdered(cs: seq<ExtractedTest>)
    ensures forall i, j :: 0 <= i < j < |FirstOccurrences(cs)| ==>
      FirstWith(cs, Key(FirstOccurrences(cs)[i])) < FirstWith(cs, Key(FirstOccurrences(cs)[j]))
    decreases |cs|
  {
    if |cs| > 0 {
      var init := cs[..|cs| - 1];
      var t := cs[|cs| - 1];
      assert cs == init + [t];
      FirstOccurrencesOrdered(init);
      FirstOccurrencesFirst(init);
      var a := FirstOccurrences(init);
      var r := FirstOccurrences(cs);
      forall i, j | 0 <= i < j < |r|
        ensures FirstWith(cs, Key(r[i])) < FirstWith(cs, Key(r[j]))
      {
        FirstWithSnoc(init, t, Key(r[i]));
        FirstWithSnoc(init, t, Key(r[j]));
        if j == |a| {
          FirstWithFound(init, Key(t));
        }
      }
    }
  }

  /** `results` keeps, in order of first appearance, the first candidate for
      each key: each entry is the first with its key, entries appear in the
      order of those first positions, and every key is represented. */
  predicate FirstOfEachKey(cs: seq<ExtractedTest>, results: seq<ExtractedTest>) {
    (forall i :: 0 <= i < |results| ==>
       FirstWith(cs, Key(results[i])) < |cs| && results[i] == cs[FirstWith(cs, Key(results[i]))])
    && (forall i, j :: 0 <= i < j < |results| ==>
          FirstWith(cs, Key(results[i])) < FirstWith(cs, Key(results[j])))
    && (forall k :: 0 <= k < |cs| ==> Key(cs[k]) in Keys(results))
  }

  /** The reference deduplication meets the declarative description. */
  lemma FirstOccurrencesSpec(cs: seq<ExtractedTest>)
    ensures FirstOfEachKey(cs, FirstOccurrences(cs))
  {
    FirstOccurrencesFirst(cs);
    FirstOccurrencesOrdered(cs);
    FirstOccurrencesKeys(cs);
  }

  /** One step of the scan: a set of the keys seen so far decides whether a
      new entry is kept, and keeping it extends the reference result. */
  lemma DedupStep(cs: seq<ExtractedTest>, results: seq<ExtractedTest>, seen: set<string>, t: ExtractedTest)
    requires results == FirstOccurrences(cs)
    requires forall x :: x in seen <==> x in Keys(cs)
    ensures Key(t) in seen ==> results == FirstOccurrences(cs + [t])
    ensures Key(t) !in seen ==> results + [t] == FirstOccurrences(cs + [t])
    ensures forall x :: x in seen + {Key(t)} <==> x in Keys(cs + [t])
  {
    KeysSnoc(cs, t);
    FirstOccurrencesSnoc(cs, t);
  }

  /** Every candidate of a report is well parsed. */
  lemma CandidatesAllWellParsed(lines: seq<string>)
    ensures forall k :: 0 <= k < |Candidates(lines)| ==> WellParsed(Candidates(lines)[k])
  {
    forall k | 0 <= k < |Candidates(lines)| ensures WellParsed(Candidates(lines)[k]) {
      CandidatesWellParsed(lines, k);
    }
  }

  /** Everything the deduplication promises of a list of well-parsed
      candidates. */
  lemma FirstOccurrencesFacts(cs: seq<ExtractedTest>)
    requires forall k :: 0 <= k < |cs| ==> WellParsed(cs[k])
    ensures FirstOfEachKey(cs, FirstOccurrences(cs))
    ensures forall i, j :: 0 <= i < j < |FirstOccurrences(cs)| ==>
      Key(FirstOccurrences(cs)[i]) != Key(FirstOccurrences(cs)[j])
    ensures forall i :: 0 <= i < |FirstOccurrences(cs)| ==> WellParsed(FirstOccurrences(cs)[i])
  {
    FirstOccurrencesSpec(cs);
    FirstOccurrencesDistinct(cs);
  }

  /** The candidates of the report's lines. */
  function TextCandidates(text: string): seq<ExtractedTest> {
    Candidates(SplitLines(text))
  }

  /** `parse_lab_values(text)`: the first entry per lower-cased name, in
      order of first appearance, each from a non-noise line. */
  method ParseLabValues(text: string) returns (results: seq<ExtractedTest>)
    ensures results == FirstOccurrences(TextCandidates(text))
    ensures FirstOfEachKey(TextCandidates(text), results)
    ensures forall i, j :: 0 <= i < j < |results| ==> Key(results[i]) != Key(results[j])
    ensures forall i :: 0 <= i < |results| ==> WellParsed(results[i])
  {
    var lines := SplitLines(text);
    ghost var entries := LineEntries(lines);
    ghost var cs: seq<ExtractedTest> := [];
    var seen: set<string> := {};
    results := [];
    var n := 0;
    assert entries[..n] == [];
    while n < |lines|
      invariant n <= |lines|
      invariant cs == Present(entries[..n])
      invariant results == FirstOccurrences(cs)
      invariant forall x :: x in seen <==> x in Keys(cs)
    {
      PresentStep(entries, n);
      var entry := ParseLine(lines[n]);
      assert entry == entries[n];
      if entry.Some? {
        var key := Key(entry.value);
        DedupStep(cs, results, seen, entry.value);
        if key !in seen {
          results := results + [entry.value];
        }
        seen := seen + {key};
        cs := cs + [entry.value];
      }
      assert cs == Present(entries[..n + 1]);
      n := n + 1;
      assert cs == Present(entries[..n]);
    }
    assert entries[..n] == entries;
    CandidatesAllWellParsed(lines);
    FirstOccurrencesFacts(TextCandidates(text));
  }
}
