/**
 * ai_summary.py without the network: the rule-based summary and the
 * rule-based health guidance built from an analysis report, the splitting
 * of a model's markdown reply into named sections, and the choice between a
 * model's reply and the rule-based text. What the model would answer is a
 * parameter (`reply`); a missing or empty reply is how a failed call shows.
 * The advice tables are a parameter too, `AdviceRules.Tables` being the
 * ones ai_summary.py defines.
 */
module AiSummary {
  import opened Optional
  import opened Text
  import opened Analyzer
  import opened AdviceRules

  datatype HealthSummary = HealthSummary(
    overview: string,
    dietSuggestions: string,
    lifestyleRecommendations: string,
    generatedBy: string)

  /** Python truthiness of an optional string: present and not empty. */
  predicate Truthy(s: Option<string>) { s.Some? && s.value != "" }

  // ------------------------------------------------------------------
  // Advice for the abnormal tests
  // ------------------------------------------------------------------

  /** `rules.get(name, {}).get(direction)`, kept only when truthy. */
  function Advice(rules: map<string, map<string, string>>, t: AnalyzedTest): Option<string> {
    var d := StatusValue(t.status);
    if t.canonicalName in rules && d in rules[t.canonicalName] && rules[t.canonicalName][d] != ""
    then Some(rules[t.canonicalName][d])
    else None
  }

  /** One bullet, in the given shape, for each test that has advice. */
  function AdviceLines(rules: map<string, map<string, string>>, tests: seq<AnalyzedTest>,
                       bullet: (AnalyzedTest, string) -> string): (r: seq<string>)
    ensures |r| <= |tests|
    decreases |tests|
  {
    if |tests| == 0 then []
    else
      var init := AdviceLines(rules, tests[..|tests| - 1], bullet);
      var t := tests[|tests| - 1];
      match Advice(rules, t)
      case Some(a) => init + [bullet(t, a)]
      case None => init
  }

  /** The bullets are those of the tests with advice, one each, in order. */
  lemma {:induction false} AdviceLinesSpec(rules: map<string, map<string, string>>, tests: seq<AnalyzedTest>,
                                           bullet: (AnalyzedTest, string) -> string) returns (idx: seq<nat>)
    ensures |idx| == |AdviceLines(rules, tests, bullet)|
    ensures forall i :: 0 <= i < |idx| ==>
      idx[i] < |tests| && Advice(rules, tests[idx[i]]).Some?
      && AdviceLines(rules, tests, bullet)[i] == bullet(tests[idx[i]], Advice(rules, tests[idx[i]]).value)
    ensures forall i, j :: 0 <= i < j < |idx| ==> idx[i] < idx[j]
    ensures forall k :: 0 <= k < |tests| && Advice(rules, tests[k]).Some? ==> k in idx
    decreases |tests|
  {
    if |tests| == 0 {
      idx := [];
    } else {
      var n := |tests| - 1;
      var prev := AdviceLinesSpec(rules, tests[..n], bullet);
      assert forall k :: 0 <= k < n ==> tests[..n][k] == tests[k];
      if Advice(rules, tests[n]).Some? {
        idx := prev + [n];
      } else {
        idx := prev;
      }
    }
  }

  /** There are no bullets exactly when no test has advice. */
  lemma AdviceLinesEmpty(rules: map<string, map<string, string>>, tests: seq<AnalyzedTest>,
                         bullet: (AnalyzedTest, string) -> string)
    ensures |AdviceLines(rules, tests, bullet)| == 0 <==> forall k :: 0 <= k < |tests| ==> Advice(rules, tests[k]).None?
  {
    var idx := AdviceLinesSpec(rules, tests, bullet);
    if |idx| > 0 {
      assert Advice(rules, tests[idx[0]]).Some?;
    }
  }

  // ------------------------------------------------------------------
  // The rule-based summary
  //
  // Long fixed texts are written as concatenations of short pieces, so
  // that the verifier can read their first characters.
  // ------------------------------------------------------------------

  const AllNormalOverview: string :=
    "All recognized lab values " + "are within normal limits. "
    + "Your overall health indicators look good! Continue maintaining "
    + "a balanced diet and active lifestyle."

  const DefaultDiet: string := "- Maintain a balanced, nutrient‑rich diet."

  const DefaultLifestyle: string :=
    "- Stay active with 30 min of " + "moderate exercise daily.\n" + "- Sleep 7–8 hours per night."

  /** How the overview names an abnormal test. */
  function AttentionItem(t: AnalyzedTest): string {
    "**" + Title(t.canonicalName) + "** (" + StatusValue(t.status) + ")"
  }

  function AttentionItems(abnormal: seq<AnalyzedTest>): (r: seq<string>)
    ensures |r| == |abnormal|
    ensures forall i :: 0 <= i < |r| ==> r[i] == AttentionItem(abnormal[i])
  {
    seq(|abnormal|, i requires 0 <= i < |abnormal| => AttentionItem(abnormal[i]))
  }

  /** The opening of the overview that counts the tests. */
  function CountsLine(matched: nat, abnormal: nat): string {
    "Out of " + NatToString(matched) + " recognized tests, " + NatToString(abnormal) + " require attention: "
  }

  /** How the overview gives the score. */
  function ScoreText(score: int): string {
    "**" + IntToString(score) + "/100**"
  }

  /** The sentence that closes the overview. */
  function ScoreSentence(score: int): string {
    ". Your health score is " + ScoreText(score) + "."
  }

  /** The overview paragraph of `_rule_based_summary`. */
  function Overview(report: AnalysisReport): string {
    var abnormal := Abnormal(report.matched);
    if |abnormal| == 0 then AllNormalOverview
    else
      CountsLine(|report.matched|, |abnormal|)
      + (Join(AttentionItems(abnormal), ", ") + ScoreSentence(report.healthScore))
  }

  /** The first characters of the summary's fixed texts, which tell them
      apart from the texts built around them. */
  lemma SummaryTextShapes()
    ensures AllNormalOverview[0] == 'A'
    ensures DefaultDiet[2] == 'M'
    ensures DefaultLifestyle[2] == 'S'
  {
  }

  /** The first characters of the guidance's fixed texts. */
  lemma GuidanceTextShapes()
    ensures AllNormalExplanation[0] == 'A' && DefaultFood[0] == '-' && DefaultTips[0] == '-'
    ensures DefaultFood[2] == 'B' && DefaultTips[2] == '3' && DoctorNote[0] == '-'
    ensures ExplanationHeading[5] == 'S' && AllClear[5] == 'A'
  {
  }

  /** The overview is the fixed all-normal text exactly when no test is
      abnormal. */
  lemma OverviewAllNormal(report: AnalysisReport)
    ensures Overview(report) == AllNormalOverview
        <==> forall k :: 0 <= k < |report.matched| ==> report.matched[k].status == Status.Normal
  {
    AbnormalEmpty(report.matched);
    var abnormal := Abnormal(report.matched);
    if |abnormal| > 0 {
      var head := CountsLine(|report.matched|, |abnormal|);
      assert Overview(report)[0] == head[0] == 'O';
      SummaryTextShapes();
    }
  }

  /** Otherwise the overview opens with both counts. */
  lemma OverviewCounts(report: AnalysisReport)
    requires |Abnormal(report.matched)| > 0
    ensures StartsWith(Overview(report), CountsLine(|report.matched|, |Abnormal(report.matched)|))
  {
    var abnormal := Abnormal(report.matched);
    PrefixOfAppend(CountsLine(|report.matched|, |abnormal|),
                   Join(AttentionItems(abnormal), ", ") + ScoreSentence(report.healthScore));
  }

  /** Otherwise the overview gives the score out of 100. */
  lemma OverviewScore(report: AnalysisReport)
    requires |Abnormal(report.matched)| > 0
    ensures Contains(Overview(report), "**" + IntToString(report.healthScore) + "/100**")
  {
    var abnormal := Abnormal(report.matched);
    var score := ScoreText(report.healthScore);
    var sentence := ScoreSentence(report.healthScore);
    var at := |". Your health score is "|;
    assert sentence[at..at + |score|] == score;
    ContainsAt(sentence, score, at);
    ContainsRight(Join(AttentionItems(abnormal), ", "), sentence, score);
    ContainsRight(CountsLine(|report.matched|, |abnormal|), Join(AttentionItems(abnormal), ", ") + sentence, score);
  }

  /** Otherwise the overview names every abnormal test with its direction. */
  lemma OverviewItems(report: AnalysisReport)
    requires |Abnormal(report.matched)| > 0
    ensures forall i :: 0 <= i < |Abnormal(report.matched)| ==>
      Contains(Overview(report), AttentionItem(Abnormal(report.matched)[i]))
  {
    var abnormal := Abnormal(report.matched);
    var head := CountsLine(|report.matched|, |abnormal|);
    var items := Join(AttentionItems(abnormal), ", ");
    var sentence := ScoreSentence(report.healthScore);
    forall i | 0 <= i < |abnormal|
      ensures Contains(head + (items + sentence), AttentionItem(abnormal[i]))
    {
      JoinContains(AttentionItems(abnormal), ", ", i);
      ContainsLeft(items, sentence, AttentionItem(abnormal[i]));
      ContainsRight(head, items + sentence, AttentionItem(abnormal[i]));
    }
  }

  /** The bullet of the summary's diet and lifestyle sections. */
  function SummaryBullet(t: AnalyzedTest, advice: string): string {
    "- **" + Title(t.canonicalName) + "** (" + StatusValue(t.status) + "): " + advice
  }

  /** The bullets on separate lines, or the default text when there are none. */
  function Section(lines: seq<string>, default: string): string {
    if |lines| > 0 then Join(lines, "\n") else default
  }

  /** A section shows the default exactly when it has no bullet, and
      otherwise shows every bullet, each on its own line. */
  lemma SectionSpec(rules: map<string, map<string, string>>, tests: seq<AnalyzedTest>, default: string)
    requires |default| > 2 && default[2] != '*'
    ensures Section(AdviceLines(rules, tests, SummaryBullet), default) == default
        <==> forall k :: 0 <= k < |tests| ==> Advice(rules, tests[k]).None?
    ensures forall k :: 0 <= k < |tests| && Advice(rules, tests[k]).Some? ==>
      Contains(Section(AdviceLines(rules, tests, SummaryBullet), default),
               SummaryBullet(tests[k], Advice(rules, tests[k]).value))
  {
    var lines := AdviceLines(rules, tests, SummaryBullet);
    AdviceLinesEmpty(rules, tests, SummaryBullet);
    if |lines| > 0 {
      var idx := AdviceLinesSpec(rules, tests, SummaryBullet);
      assert lines[0][2] == '*';
      SectionNotDefault(lines, default);
    }
    SectionShowsBullets(rules, tests, default);
  }

  /** Bullets joined on lines open with a bullet, not with the default. */
  lemma SectionNotDefault(lines: seq<string>, default: string)
    requires |default| > 2 && default[2] != '*'
    requires |lines| > 0 && |lines[0]| > 2 && lines[0][2] == '*'
    ensures Section(lines, default) != default
  {
    JoinPartAt(lines, "\n", 0);
    assert lines[..0] == [];
    assert Join(lines, "\n")[2] != default[2];
  }

  /** Every bullet shows in its section. */
  lemma SectionShowsBullets(rules: map<string, map<string, string>>, tests: seq<AnalyzedTest>, default: string)
    ensures forall k :: 0 <= k < |tests| && Advice(rules, tests[k]).Some? ==>
      Contains(Section(AdviceLines(rules, tests, SummaryBullet), default),
               SummaryBullet(tests[k], Advice(rules, tests[k]).value))
  {
    var lines := AdviceLines(rules, tests, SummaryBullet);
    var idx := AdviceLinesSpec(rules, tests, SummaryBullet);
    forall k | 0 <= k < |tests| && Advice(rules, tests[k]).Some?
      ensures Contains(Section(lines, default), SummaryBullet(tests[k], Advice(rules, tests[k]).value))
    {
      var i :| 0 <= i < |idx| && idx[i] == k;
      JoinContains(lines, "\n", i);
    }
  }

  /** `_rule_based_summary(report)`. */
  function RuleBasedSummary(report: AnalysisReport, tables: AdviceTables): (r: HealthSummary)
    ensures r.generatedBy == "rule-based"
  {
    var abnormal := Abnormal(report.matched);
    HealthSummary(
      Overview(report),
      Section(AdviceLines(tables.diet, abnormal, SummaryBullet), DefaultDiet),
      Section(AdviceLines(tables.lifestyle, abnormal, SummaryBullet), DefaultLifestyle),
      "rule-based")
  }

  /** The diet section: the default exactly when no abnormal test has a diet
      rule, and otherwise a bullet for every abnormal test that has one. */
  lemma RuleBasedDiet(report: AnalysisReport, tables: AdviceTables)
    ensures RuleBasedSummary(report, tables).dietSuggestions == DefaultDiet
        <==> forall k :: 0 <= k < |Abnormal(report.matched)| ==> Advice(tables.diet, Abnormal(report.matched)[k]).None?
    ensures forall k :: 0 <= k < |Abnormal(report.matched)| && Advice(tables.diet, Abnormal(report.matched)[k]).Some? ==>
      Contains(RuleBasedSummary(report, tables).dietSuggestions,
               SummaryBullet(Abnormal(report.matched)[k], Advice(tables.diet, Abnormal(report.matched)[k]).value))
  {
    SummaryTextShapes();
    SectionSpec(tables.diet, Abnormal(report.matched), DefaultDiet);
  }

  /** The lifestyle section, by the same rule with the lifestyle table. */
  lemma RuleBasedLifestyle(report: AnalysisReport, tables: AdviceTables)
    ensures RuleBasedSummary(report, tables).lifestyleRecommendations == DefaultLifestyle
        <==> forall k :: 0 <= k < |Abnormal(report.matched)| ==> Advice(tables.lifestyle, Abnormal(report.matched)[k]).None?
    ensures forall k :: 0 <= k < |Abnormal(report.matched)| && Advice(tables.lifestyle, Abnormal(report.matched)[k]).Some? ==>
      Contains(RuleBasedSummary(report, tables).lifestyleRecommendations,
               SummaryBullet(Abnormal(report.matched)[k], Advice(tables.lifestyle, Abnormal(report.matched)[k]).value))
  {
    SummaryTextShapes();
    SectionSpec(tables.lifestyle, Abnormal(report.matched), DefaultLifestyle);
  }

  // ------------------------------------------------------------------
  // Splitting a model's reply into sections
  // ------------------------------------------------------------------

  /** The look-ahead `#{1,3}\s` at `j`: one to three `#` and then whitespace. */
  predicate HeadingAt(s: string, j: nat) {
    (j + 1 < |s| && s[j] == '#' && IsSpace(s[j + 1]))
    || (j + 2 < |s| && s[j] == '#' && s[j + 1] == '#' && IsSpace(s[j + 2]))
    || (j + 3 < |s| && s[j] == '#' && s[j + 1] == '#' && s[j + 2] == '#' && IsSpace(s[j + 3]))
  }

  /** The separator `\n(?=#{1,3}\s)` at `i`. */
  predicate BreakAt(s: string, i: nat) {
    i < |s| && s[i] == '\n' && HeadingAt(s, i + 1)
  }

  /** The look-ahead reads only what follows, so it survives cutting off a
      prefix, and cutting off a suffix never creates it. */
  lemma HeadingShift(s: string, d: nat, j: nat)
    requires d <= |s|
    ensures HeadingAt(s[d..], j) == HeadingAt(s, d + j)
  {
    if j + 1 < |s| - d {
      assert s[d..][j] == s[d + j] && s[d..][j + 1] == s[d + j + 1];
    }
    if j + 2 < |s| - d {
      assert s[d..][j + 2] == s[d + j + 2];
    }
    if j + 3 < |s| - d {
      assert s[d..][j + 3] == s[d + j + 3];
    }
  }

  lemma BreakShift(s: string, d: nat, k: nat)
    requires d <= |s|
    ensures BreakAt(s[d..], k) == BreakAt(s, d + k)
  {
    HeadingShift(s, d, k + 1);
    if k < |s| - d {
      assert s[d..][k] == s[d + k];
    }
  }

  lemma BreakPrefix(s: string, n: nat, k: nat)
    requires n <= |s| && BreakAt(s[..n], k)
    ensures BreakAt(s, k)
  {
    assert s[..n][k] == s[k] && s[..n][k + 1] == s[k + 1];
    if k + 2 < n {
      assert s[..n][k + 2] == s[k + 2];
    }
    if k + 3 < n {
      assert s[..n][k + 3] == s[k + 3];
    }
    if k + 4 < n {
      assert s[..n][k + 4] == s[k + 4];
    }
  }

  /** The first separator in `s`, or `|s|` when there is none. */
  function NextBreak(s: string): (i: nat)
    ensures i <= |s|
    ensures i < |s| ==> BreakAt(s, i)
    ensures forall k :: 0 <= k < i ==> !BreakAt(s, k)
    decreases |s|
  {
    if |s| == 0 then 0
    else if BreakAt(s, 0) then 0
    else
      var j := NextBreak(s[1..]);
      forall k | 1 <= k < 1 + j
        ensures !BreakAt(s, k)
      {
        BreakShift(s, 1, k - 1);
      }
      if j < |s| - 1 then BreakShift(s, 1, j); 1 + j else 1 + j
  }

  /** `re.split(r"\n(?=#{1,3}\s)", text)`. */
  function HeadingSplit(s: string): (r: seq<string>)
    ensures |r| >= 1
    decreases |s|
  {
    var i := NextBreak(s);
    if i == |s| then [s] else [s[..i]] + HeadingSplit(s[i + 1..])
  }

  /** Joining the pieces with the separator's newline gives back the reply. */
  lemma {:induction false} HeadingSplitJoin(s: string)
    ensures Join(HeadingSplit(s), "\n") == s
    decreases |s|
  {
    var i := NextBreak(s);
    if i < |s| {
      var rest := s[i + 1..];
      HeadingSplitJoin(rest);
      JoinCons(s[..i], HeadingSplit(rest), "\n");
      assert s == s[..i] + "\n" + rest;
    }
  }

  /** No piece holds a separator. */
  lemma {:induction false} HeadingSplitNoBreak(s: string)
    ensures forall p, k :: p in HeadingSplit(s) && 0 <= k < |p| ==> !BreakAt(p, k)
    decreases |s|
  {
    var i := NextBreak(s);
    if i < |s| {
      var rest := s[i + 1..];
      HeadingSplitNoBreak(rest);
      forall k | 0 <= k < i
        ensures !BreakAt(s[..i], k)
      {
        if BreakAt(s[..i], k) {
          BreakPrefix(s, i, k);
        }
      }
      assert HeadingSplit(s) == [s[..i]] + HeadingSplit(rest);
    }
  }

  /** Every piece after the first is where a separator was cut, so it
      begins with the `#` of the heading that followed the newline.  (The
      heading itself may be cut short: in "x\n#\n# a" the look-ahead after
      the first newline reads "#\n", so the middle piece is just "#".) */
  lemma {:induction false} HeadingSplitHeads(s: string)
    ensures forall i :: 1 <= i < |HeadingSplit(s)| ==>
      |HeadingSplit(s)[i]| > 0 && HeadingSplit(s)[i][0] == '#'
    decreases |s|
  {
    var i := NextBreak(s);
    if i < |s| {
      var rest := s[i + 1..];
      var tail := HeadingSplit(rest);
      HeadingSplitHeads(rest);
      HeadingShift(s, i + 1, 0);
      assert rest[0] == '#';
      var j := NextBreak(rest);
      assert j != 0;
      assert tail[0] == if j == |rest| then rest else rest[..j];
      assert HeadingSplit(s) == [s[..i]] + tail;
      assert forall j :: 1 <= j < |HeadingSplit(s)| ==> HeadingSplit(s)[j] == tail[j - 1];
    }
  }

  /** The section a piece of the reply opens, if any: the overview words
      first, then the diet words, then the lifestyle words; "health" counts
      only within the first 60 characters. */
  function PartKey(part: string): (r: Option<string>)
    ensures r.Some? ==> r.value in {"overview", "diet", "lifestyle"}
  {
    var lower := Lower(part);
    if Contains(lower, "overview") || Contains(lower, "summary")
       || Contains(lower[..if |lower| < 60 then |lower| else 60], "health")
    then Some("overview")
    else if Contains(lower, "diet") || Contains(lower, "nutrition") || Contains(lower, "food")
    then Some("diet")
    else if Contains(lower, "lifestyle") || Contains(lower, "exercise") || Contains(lower, "recommendation")
    then Some("lifestyle")
    else None
  }

  /** The key words are matched without regard to case. */
  lemma PartKeyIgnoresCase(part: string)
    ensures PartKey(Lower(part)) == PartKey(part)
  {
    LowerIdempotent(part);
  }

  /** The `setdefault` loop over the pieces and the sections they open:
      each piece that opens a section fills it with its stripped text unless
      an earlier piece already did.  Written from the back, an earlier piece
      overwrites whatever the later ones put there. */
  function Fill(keys: seq<Option<string>>, parts: seq<string>): (r: map<string, string>)
    requires |keys| == |parts|
    ensures forall key :: key in r ==> Some(key) in keys
    decreases |parts|
  {
    if |parts| == 0 then map[]
    else
      var rest := Fill(keys[1..], parts[1..]);
      match keys[0]
      case Some(key) => rest[key := Strip(parts[0])]
      case None => rest
  }

  /** A section is filled exactly when some piece opens it, and then by the
      first such piece. */
  lemma {:induction false} FillFirstWins(keys: seq<Option<string>>, parts: seq<string>, key: string) returns (i: nat)
    requires |keys| == |parts|
    ensures i <= |parts|
    ensures key in Fill(keys, parts) <==> i < |parts|
    ensures i < |parts| ==> keys[i] == Some(key) && Fill(keys, parts)[key] == Strip(parts[i])
    ensures forall j :: 0 <= j < i ==> keys[j] != Some(key)
    decreases |parts|
  {
    if |parts| == 0 {
      i := 0;
    } else if keys[0] == Some(key) {
      i := 0;
    } else {
      var prev := FillFirstWins(keys[1..], parts[1..], key);
      FillSkip(keys, parts, key, prev);
      i := prev + 1;
    }
  }

  /** A first piece that does not open the section leaves it to the rest. */
  lemma FillSkip(keys: seq<Option<string>>, parts: seq<string>, key: string, prev: nat)
    requires |keys| == |parts| > 0 && keys[0] != Some(key)
    requires prev <= |parts| - 1
    requires key in Fill(keys[1..], parts[1..]) <==> prev < |parts| - 1
    requires prev < |parts| - 1 ==> keys[1..][prev] == Some(key) && Fill(keys[1..], parts[1..])[key] == Strip(parts[1..][prev])
    requires forall j :: 0 <= j < prev ==> keys[1..][j] != Some(key)
    ensures key in Fill(keys, parts) <==> prev + 1 < |parts|
    ensures prev + 1 < |parts| ==> keys[prev + 1] == Some(key) && Fill(keys, parts)[key] == Strip(parts[prev + 1])
    ensures forall j :: 0 <= j < prev + 1 ==> keys[j] != Some(key)
  {
    forall j | 0 <= j < prev + 1
      ensures keys[j] != Some(key)
    {
      if j > 0 {
        assert keys[j] == keys[1..][j - 1];
      }
    }
  }

  /** The section each piece opens. */
  function PartKeys(parts: seq<string>): (r: seq<Option<string>>)
    ensures |r| == |parts|
    ensures forall i :: 0 <= i < |parts| ==> r[i] == PartKey(parts[i])
  {
    seq(|parts|, i requires 0 <= i < |parts| => PartKey(parts[i]))
  }

  /** `_split_ai_response(text)`: the sections the pieces fill, or the whole
      stripped reply as the overview when they fill none. */
  function SplitAiResponse(text: string): (r: map<string, string>)
    ensures r.Keys <= {"overview", "diet", "lifestyle"}
    ensures |r| > 0
  {
    var parts := HeadingSplit(text);
    var sections := Fill(PartKeys(parts), parts);
    if |sections| == 0 then map["overview" := Strip(text)] else sections
  }

  /** When no piece opens a section the reply becomes the overview;
      otherwise each section holds the first piece that opens it, and is
      missing when none does. */
  lemma SplitAiResponseSpec(text: string, key: string) returns (i: nat)
    ensures i <= |HeadingSplit(text)|
    ensures (forall j :: 0 <= j < |HeadingSplit(text)| ==> PartKeys(HeadingSplit(text))[j].None?)
      ==> SplitAiResponse(text) == map["overview" := Strip(text)]
    ensures (exists j :: 0 <= j < |HeadingSplit(text)| && PartKeys(HeadingSplit(text))[j].Some?) ==>
      (key in SplitAiResponse(text) <==> i < |HeadingSplit(text)|)
      && (i < |HeadingSplit(text)| ==>
            PartKeys(HeadingSplit(text))[i] == Some(key) && SplitAiResponse(text)[key] == Strip(HeadingSplit(text)[i]))
      && forall j :: 0 <= j < i ==> PartKeys(HeadingSplit(text))[j] != Some(key)
  {
    var parts := HeadingSplit(text);
    var keys := PartKeys(parts);
    i := FillFirstWins(keys, parts, key);
    if exists j :: 0 <= j < |parts| && keys[j].Some? {
      var j :| 0 <= j < |parts| && keys[j].Some?;
      var k := FillFirstWins(keys, parts, keys[j].value);
      assert keys[j].value in Fill(keys, parts);
    } else {
      assert forall key2 :: key2 !in Fill(keys, parts);
      assert Fill(keys, parts) == map[];
    }
  }

  // ------------------------------------------------------------------
  // generate_summary
  // ------------------------------------------------------------------

  const SeeOverview: string := "See overview for details."

  /** `d.get(key, default)`. */
  function Get(m: map<string, string>, key: string, default: string): string {
    if key in m then m[key] else default
  }

  /** `generate_summary(report, api_key)`, where `reply` stands for what the
      model call returns. Without a key, or without a usable reply, the
      summary is the rule-based one. */
  function GenerateSummary(report: AnalysisReport, apiKey: Option<string>, reply: Option<string>,
                           tables: AdviceTables): (r: HealthSummary)
    ensures !Truthy(apiKey) ==> r == RuleBasedSummary(report, tables)
    ensures r.generatedBy == "openai" <==> Truthy(apiKey) && Truthy(reply)
    ensures r.generatedBy == "rule-based" <==> !(Truthy(apiKey) && Truthy(reply))
  {
    if Truthy(apiKey) && Truthy(reply) then
      var sections := SplitAiResponse(reply.value);
      HealthSummary(
        Get(sections, "overview", reply.value),
        Get(sections, "diet", SeeOverview),
        Get(sections, "lifestyle", SeeOverview),
        "openai")
    else RuleBasedSummary(report, tables)
  }

  // ------------------------------------------------------------------
  // Health guidance
  // ------------------------------------------------------------------

  const ExplanationHeading: string := "## 🩺 Simple Explanation\n"
  const AllNormalExplanation: string :=
    "All your lab values are within " + "the normal range — great news!\n"
  const FoodHeading: string := "\n## 🥗 What Foods to Eat\n"
  const DefaultFood: string :=
    "- Balanced diet: " + "fruits, vegetables, whole grains, lean protein.\n"
  const LifestyleHeading: string := "\n## 🏃 Lifestyle Changes\n"
  const DefaultTips: string :=
    "- 30 min moderate exercise daily, " + "7‑8 h sleep, stay hydrated.\n"
  const DoctorHeading: string := "\n## ⚕️ When to Consult a Doctor\n"
  const DoctorNote: string :=
    "- Consult your doctor if values " + "are far outside normal range or you have symptoms. "
    + "*This report is educational only — not a diagnosis.*\n"

  const AllClear: string :=
    "## 🩺 All Clear!\n\n"
    + "All your lab values are within normal limits. "
    + "Keep up the great work with your current diet and lifestyle!\n\n"
    + "_Remember: regular check-ups are important. Consult your doctor "
    + "for routine health screenings._"

  /** The direction word of an explanation. */
  function Direction(s: Status): (r: string)
    ensures r == "low" <==> s == Status.Low
  {
    if s == Status.Low then "low" else "high"
  }

  /** The explanation bullet of an abnormal test; `fmt` renders a number as
      the report prints it. */
  function ExplanationLine(t: AnalyzedTest, fmt: real -> string): string {
    "- **" + Title(t.canonicalName) + "** is " + Direction(t.status)
    + " (" + fmt(t.value) + " vs " + fmt(t.minValue) + "–" + fmt(t.maxValue) + " " + t.unit + ").\n"
  }

  function Explanations(abnormal: seq<AnalyzedTest>, fmt: real -> string): (r: seq<string>)
    ensures |r| == if |abnormal| == 0 then 1 else |abnormal|
  {
    if |abnormal| == 0 then [AllNormalExplanation]
    else seq(|abnormal|, i requires 0 <= i < |abnormal| => ExplanationLine(abnormal[i], fmt))
  }

  /** The bullet of the guidance's food and lifestyle sections. */
  function GuidanceBullet(t: AnalyzedTest, advice: string): string {
    "- **" + Title(t.canonicalName) + ":** " + advice + "\n"
  }

  function OrDefault(lines: seq<string>, default: string): (r: seq<string>)
    ensures |r| == if |lines| == 0 then 1 else |lines|
  {
    if |lines| > 0 then lines else [default]
  }

  function FoodLines(abnormal: seq<AnalyzedTest>, tables: AdviceTables): seq<string> {
    OrDefault(AdviceLines(tables.diet, abnormal, GuidanceBullet), DefaultFood)
  }

  function TipLines(abnormal: seq<AnalyzedTest>, tables: AdviceTables): seq<string> {
    OrDefault(AdviceLines(tables.lifestyle, abnormal, GuidanceBullet), DefaultTips)
  }

  /** The four sections, each heading followed by its lines. */
  function Layout(explanations: seq<string>, food: seq<string>, tips: seq<string>): seq<string> {
    [ExplanationHeading] + explanations + [FoodHeading] + food + [LifestyleHeading] + tips
    + [DoctorHeading, DoctorNote]
  }

  /** The pieces `_rule_based_health_guidance` joins. */
  function GuidanceParts(abnormal: seq<AnalyzedTest>, fmt: real -> string, tables: AdviceTables): seq<string> {
    Layout(Explanations(abnormal, fmt), FoodLines(abnormal, tables), TipLines(abnormal, tables))
  }

  /** `_rule_based_health_guidance(abnormal, score)`; the score is not used. */
  function RuleBasedHealthGuidance(abnormal: seq<AnalyzedTest>, healthScore: int, fmt: real -> string,
                                   tables: AdviceTables): string {
    Join(GuidanceParts(abnormal, fmt, tables), "\n")
  }

  /** A line that is not a heading: it starts with neither `#` nor a newline. */
  predicate BodyLine(s: string) { |s| > 0 && s[0] != '#' && s[0] != '\n' }

  /** The headings stand at fixed places around the section bodies. */
  lemma LayoutHeadings(e: seq<string>, f: seq<string>, l: seq<string>)
    ensures |Layout(e, f, l)| == |e| + |f| + |l| + 5
    ensures Layout(e, f, l)[0] == ExplanationHeading
    ensures Layout(e, f, l)[1 + |e|] == FoodHeading
    ensures Layout(e, f, l)[2 + |e| + |f|] == LifestyleHeading
    ensures Layout(e, f, l)[3 + |e| + |f| + |l|] == DoctorHeading
  {
  }

  /** The headings stand at fixed places around the section bodies, and
      nowhere else. */
  lemma LayoutSpec(e: seq<string>, f: seq<string>, l: seq<string>)
    requires forall i :: 0 <= i < |e| ==> BodyLine(e[i])
    requires forall i :: 0 <= i < |f| ==> BodyLine(f[i])
    requires forall i :: 0 <= i < |l| ==> BodyLine(l[i])
    ensures |Layout(e, f, l)| == |e| + |f| + |l| + 5
    ensures Layout(e, f, l)[0] == ExplanationHeading
    ensures Layout(e, f, l)[1 + |e|] == FoodHeading
    ensures Layout(e, f, l)[2 + |e| + |f|] == LifestyleHeading
    ensures Layout(e, f, l)[3 + |e| + |f| + |l|] == DoctorHeading
    ensures Layout(e, f, l)[1..1 + |e|] == e
    ensures Layout(e, f, l)[2 + |e|..2 + |e| + |f|] == f
    ensures Layout(e, f, l)[3 + |e| + |f|..3 + |e| + |f| + |l|] == l
    ensures forall i :: 0 <= i < |Layout(e, f, l)| && !BodyLine(Layout(e, f, l)[i]) ==>
      i in {0, 1 + |e|, 2 + |e| + |f|, 3 + |e| + |f| + |l|}
  {
    var p := Layout(e, f, l);
    GuidanceTextShapes();
    forall i | 0 <= i < |p| && i !in {0, 1 + |e|, 2 + |e| + |f|, 3 + |e| + |f| + |l|}
      ensures BodyLine(p[i])
    {
      if i < 1 + |e| {
        assert p[i] == e[i - 1];
      } else if i < 2 + |e| + |f| {
        assert p[i] == f[i - 2 - |e|];
      } else if i < 3 + |e| + |f| + |l| {
        assert p[i] == l[i - 3 - |e| - |f|];
      } else {
        assert p[i] == DoctorNote;
      }
    }
  }

  /** The guidance's explanation section holds exactly one bullet per
      abnormal test, in order, with "low" for the low ones and "high" for
      the high ones; its food and lifestyle sections fall back to their
      default bullet exactly when no abnormal test has a rule; and the
      headings stand between the sections. */
  lemma GuidanceSpec(abnormal: seq<AnalyzedTest>, fmt: real -> string, tables: AdviceTables)
    requires |abnormal| > 0
    ensures var p := GuidanceParts(abnormal, fmt, tables);
      var f := |FoodLines(abnormal, tables)|;
      var l := |TipLines(abnormal, tables)|;
      && |p| == |abnormal| + f + l + 5
      && p[0] == ExplanationHeading
      && p[1 + |abnormal|] == FoodHeading
      && p[2 + |abnormal| + f] == LifestyleHeading
      && p[3 + |abnormal| + f + l] == DoctorHeading
      && (forall i :: 0 <= i < |abnormal| ==> p[1 + i] == ExplanationLine(abnormal[i], fmt))
  {
    var e := Explanations(abnormal, fmt);
    var food := FoodLines(abnormal, tables);
    var tips := TipLines(abnormal, tables);
    GuidanceBodies(abnormal, fmt, tables);
    LayoutSpec(e, food, tips);
    var p := Layout(e, food, tips);
    forall i | 0 <= i < |abnormal|
      ensures p[1 + i] == ExplanationLine(abnormal[i], fmt)
    {
      assert p[1..1 + |e|][i] == e[i];
    }
  }

  /** The food and lifestyle sections of the guidance are their default
      bullet exactly when no abnormal test has a rule in the table. */
  lemma GuidanceDefaults(abnormal: seq<AnalyzedTest>, tables: AdviceTables)
    ensures FoodLines(abnormal, tables) == [DefaultFood]
        <==> forall k :: 0 <= k < |abnormal| ==> Advice(tables.diet, abnormal[k]).None?
    ensures TipLines(abnormal, tables) == [DefaultTips]
        <==> forall k :: 0 <= k < |abnormal| ==> Advice(tables.lifestyle, abnormal[k]).None?
  {
    GuidanceTextShapes();
    GuidanceDefault(tables.diet, abnormal, DefaultFood);
    GuidanceDefault(tables.lifestyle, abnormal, DefaultTips);
  }

  /** Every section line of the guidance is a body line. */
  lemma GuidanceBodies(abnormal: seq<AnalyzedTest>, fmt: real -> string, tables: AdviceTables)
    ensures forall i :: 0 <= i < |Explanations(abnormal, fmt)| ==> BodyLine(Explanations(abnormal, fmt)[i])
    ensures forall i :: 0 <= i < |FoodLines(abnormal, tables)| ==> BodyLine(FoodLines(abnormal, tables)[i])
    ensures forall i :: 0 <= i < |TipLines(abnormal, tables)| ==> BodyLine(TipLines(abnormal, tables)[i])
  {
    GuidanceTextShapes();
    var d := AdviceLinesSpec(tables.diet, abnormal, GuidanceBullet);
    var t := AdviceLinesSpec(tables.lifestyle, abnormal, GuidanceBullet);
  }

  /** A guidance section is its default bullet exactly when no test has a
      rule in its table. */
  lemma GuidanceDefault(rules: map<string, map<string, string>>, abnormal: seq<AnalyzedTest>, default: string)
    requires |default| > 2 && default[2] != '*'
    ensures OrDefault(AdviceLines(rules, abnormal, GuidanceBullet), default) == [default]
        <==> forall k :: 0 <= k < |abnormal| ==> Advice(rules, abnormal[k]).None?
  {
    var lines := AdviceLines(rules, abnormal, GuidanceBullet);
    var idx := AdviceLinesSpec(rules, abnormal, GuidanceBullet);
    AdviceLinesEmpty(rules, abnormal, GuidanceBullet);
    if |lines| > 0 {
      assert lines[0][2] == '*';
      assert OrDefault(lines, default)[0] != default;
    }
  }

  /** In the guidance text the four headings appear in this order. */
  lemma GuidanceHeadingsInOrder(abnormal: seq<AnalyzedTest>, healthScore: int, fmt: real -> string, tables: AdviceTables)
    returns (h1: nat, h2: nat, h3: nat, h4: nat)
    ensures var g := RuleBasedHealthGuidance(abnormal, healthScore, fmt, tables);
      && h1 < h2 < h3 < h4
      && h4 + |DoctorHeading| <= |g|
      && g[h1..h1 + |ExplanationHeading|] == ExplanationHeading
      && g[h2..h2 + |FoodHeading|] == FoodHeading
      && g[h3..h3 + |LifestyleHeading|] == LifestyleHeading
      && g[h4..h4 + |DoctorHeading|] == DoctorHeading
  {
    h1, h2, h3, h4 := LayoutJoinHeadings(Explanations(abnormal, fmt), FoodLines(abnormal, tables),
                                         TipLines(abnormal, tables));
  }

  /** The four headings of a layout, in order, in its join. */
  lemma LayoutJoinHeadings(e: seq<string>, f: seq<string>, l: seq<string>) returns (h1: nat, h2: nat, h3: nat, h4: nat)
    ensures var g := Join(Layout(e, f, l), "\n");
      && h1 < h2 < h3 < h4
      && h4 + |DoctorHeading| <= |g|
      && g[h1..h1 + |ExplanationHeading|] == ExplanationHeading
      && g[h2..h2 + |FoodHeading|] == FoodHeading
      && g[h3..h3 + |LifestyleHeading|] == LifestyleHeading
      && g[h4..h4 + |DoctorHeading|] == DoctorHeading
  {
    LayoutHeadings(e, f, l);
    var p := Layout(e, f, l);
    var i2, i3, i4 := 1 + |e|, 2 + |e| + |f|, 3 + |e| + |f| + |l|;
    HeadingsAt(p, i2, i3, i4);
    h1, h2, h3, h4 := Width(p[..0], "\n"), Width(p[..i2], "\n"), Width(p[..i3], "\n"), Width(p[..i4], "\n");
  }

  /** Where the four headings of a layout fall in its join. */
  lemma HeadingsAt(p: seq<string>, i2: nat, i3: nat, i4: nat)
    requires 0 < i2 < i3 < i4 < |p|
    requires p[0] == ExplanationHeading && p[i2] == FoodHeading && p[i3] == LifestyleHeading && p[i4] == DoctorHeading
    ensures var g := Join(p, "\n");
      && Width(p[..0], "\n") < Width(p[..i2], "\n") < Width(p[..i3], "\n") < Width(p[..i4], "\n")
      && Width(p[..i4], "\n") + |DoctorHeading| <= |g|
      && g[Width(p[..0], "\n")..Width(p[..0], "\n") + |ExplanationHeading|] == ExplanationHeading
      && g[Width(p[..i2], "\n")..Width(p[..i2], "\n") + |FoodHeading|] == FoodHeading
      && g[Width(p[..i3], "\n")..Width(p[..i3], "\n") + |LifestyleHeading|] == LifestyleHeading
      && g[Width(p[..i4], "\n")..Width(p[..i4], "\n") + |DoctorHeading|] == DoctorHeading
  {
    JoinPartAt(p, "\n", 0);
    JoinPartAt(p, "\n", i2);
    JoinPartAt(p, "\n", i3);
    JoinPartAt(p, "\n", i4);
    WidthGrows(p, "\n", 0, i2);
    WidthGrows(p, "\n", i2, i3);
    WidthGrows(p, "\n", i3, i4);
  }

  /** `generate_health_guidance(report, api_key)`, where `reply` stands for
      what the model call returns. */
  function GenerateHealthGuidance(report: AnalysisReport, apiKey: Option<string>, reply: Option<string>,
                                  fmt: real -> string, tables: AdviceTables): (r: string)
    ensures (forall k :: 0 <= k < |report.matched| ==> report.matched[k].status == Status.Normal) ==> r == AllClear
    ensures !Truthy(apiKey) && |Abnormal(report.matched)| > 0 ==>
      r == RuleBasedHealthGuidance(Abnormal(report.matched), report.healthScore, fmt, tables)
  {
    var abnormal := Abnormal(report.matched);
    AbnormalEmpty(report.matched);
    if |abnormal| == 0 then AllClear
    else if Truthy(apiKey) && Truthy(reply) then reply.value
    else RuleBasedHealthGuidance(abnormal, report.healthScore, fmt, tables)
  }

  /** Without a key the guidance is the all-clear text exactly when no test
      is abnormal (and with one it is the all-clear text then too). */
  lemma GuidanceAllClear(report: AnalysisReport, apiKey: Option<string>, reply: Option<string>,
                         fmt: real -> string, tables: AdviceTables)
    ensures !Truthy(apiKey) ==>
      (GenerateHealthGuidance(report, apiKey, reply, fmt, tables) == AllClear
       <==> forall k :: 0 <= k < |report.matched| ==> report.matched[k].status == Status.Normal)
  {
    AbnormalEmpty(report.matched);
    var abnormal := Abnormal(report.matched);
    if !Truthy(apiKey) && |abnormal| > 0 {
      var p := GuidanceParts(abnormal, fmt, tables);
      var g := Join(p, "\n");
      JoinPartAt(p, "\n", 0);
      assert p[..0] == [];
      assert g[..|ExplanationHeading|] == ExplanationHeading;
      GuidanceTextShapes();
      assert g[5] != AllClear[5];
    }
  }
}
