/**
 * The spellings of the catalogue (canonical names and aliases, in table
 * order) written out in blocks of at most eighteen, with the facts that hold
 * of them by inspection: no spelling occurs twice, and every spelling is
 * non-empty, lower-case and free of surrounding whitespace. Each block is
 * compared with itself and with every later block, which keeps each proof
 * obligation small; the general lemmas assemble the blocks.
 */
module KeyBlocks {
  import opened Text

  /** No string occurs twice in `s`. */
  predicate Distinct(s: seq<string>)
  {
    forall i, j :: 0 <= i < j < |s| ==> s[i] != s[j]
  }

  /** No string of `a` occurs in `b`. */
  predicate Disjoint(a: seq<string>, b: seq<string>)
  {
    forall i, j :: 0 <= i < |a| && 0 <= j < |b| ==> a[i] != b[j]
  }

  /** A spelling that lower-casing and stripping leave unchanged. */
  predicate IsKey(s: string)
  {
    |s| > 0 && HasNoUpper(s) && IsStripped(s)
  }

  /** Every string of `s` is a key. */
  predicate AllKeys(s: seq<string>)
  {
    forall i :: 0 <= i < |s| ==> IsKey(s[i])
  }

  /** The blocks `bs[k..]` laid end to end. */
  function ConcatFrom(bs: seq<seq<string>>, k: nat): (r: seq<string>)
    requires k <= |bs|
    ensures k < |bs| ==> r == bs[k] + ConcatFrom(bs, k + 1)
    decreases |bs| - k
  {
    if k == |bs| then [] else bs[k] + ConcatFrom(bs, k + 1)
  }

  lemma {:induction false} InConcatFrom(x: string, bs: seq<seq<string>>, k: nat)
    requires k <= |bs| && x in ConcatFrom(bs, k)
    ensures exists m :: k <= m < |bs| && x in bs[m]
    decreases |bs| - k
  {
    if x !in bs[k] {
      InConcatFrom(x, bs, k + 1);
    }
  }

  lemma DistinctAppend(a: seq<string>, b: seq<string>)
    requires Distinct(a) && Distinct(b) && Disjoint(a, b)
    ensures Distinct(a + b)
  {
    forall i, j | 0 <= i < j < |a + b|
      ensures (a + b)[i] != (a + b)[j]
    {
      if j < |a| {
      } else if i >= |a| {
        assert (a + b)[i] == b[i - |a|] && (a + b)[j] == b[j - |a|];
      } else {
        assert (a + b)[j] == b[j - |a|];
      }
    }
  }

  lemma DisjointConcatFrom(a: seq<string>, bs: seq<seq<string>>, k: nat)
    requires k <= |bs|
    requires forall m :: k <= m < |bs| ==> Disjoint(a, bs[m])
    ensures Disjoint(a, ConcatFrom(bs, k))
  {
    forall i, j | 0 <= i < |a| && 0 <= j < |ConcatFrom(bs, k)|
      ensures a[i] != ConcatFrom(bs, k)[j]
    {
      var x := ConcatFrom(bs, k)[j];
      InConcatFrom(x, bs, k);
      var m :| k <= m < |bs| && x in bs[m];
      var n :| 0 <= n < |bs[m]| && bs[m][n] == x;
      assert Disjoint(a, bs[m]);
    }
  }

  /** Blocks free of repetition and pairwise disjoint concatenate to a list free of repetition. */
  lemma {:induction false} ConcatFromDistinct(bs: seq<seq<string>>, k: nat)
    requires k <= |bs|
    requires forall m :: 0 <= m < |bs| ==> Distinct(bs[m])
    requires forall m, l :: 0 <= m < l < |bs| ==> Disjoint(bs[m], bs[l])
    ensures Distinct(ConcatFrom(bs, k))
    decreases |bs| - k
  {
    if k < |bs| {
      ConcatFromDistinct(bs, k + 1);
      DisjointConcatFrom(bs[k], bs, k + 1);
      DistinctAppend(bs[k], ConcatFrom(bs, k + 1));
    }
  }

  lemma ConcatFromKeys(bs: seq<seq<string>>, k: nat)
    requires k <= |bs|
    requires forall m :: 0 <= m < |bs| ==> AllKeys(bs[m])
    ensures AllKeys(ConcatFrom(bs, k))
  {
    forall j | 0 <= j < |ConcatFrom(bs, k)|
      ensures IsKey(ConcatFrom(bs, k)[j])
    {
      var x := ConcatFrom(bs, k)[j];
      InConcatFrom(x, bs, k);
      var m :| k <= m < |bs| && x in bs[m];
      var n :| 0 <= n < |bs[m]| && bs[m][n] == x;
      assert AllKeys(bs[m]);
    }
  }


  /** The keys of the table, in order, cut into blocks. */
  const Blocks: seq<seq<string>> := [Block1, Block2, Block3, Block4, Block5, Block6, Block7, Block8, Block9, Block10, Block11, Block12, Block13, Block14, Block15, Block16, Block17]

  const Block1: seq<string> := ["hemoglobin", "hb", "hgb", "haemoglobin", "hematocrit", "hct", "pcv", "packed cell volume", "rbc", "red blood cells", "red blood cell count", "rbc count", "erythrocytes"]
  const Block2: seq<string> := ["wbc", "white blood cells", "white blood cell count", "wbc count", "leukocytes", "total wbc", "total leucocyte count", "tlc", "platelets", "platelet count", "plt", "thrombocytes"]
  const Block3: seq<string> := ["mcv", "mean corpuscular volume", "mch", "mean corpuscular hemoglobin", "mchc", "mean corpuscular hemoglobin concentration", "rdw", "red cell distribution width", "rdw-cv", "mpv", "mean platelet volume"]
  const Block4: seq<string> := ["total cholesterol", "cholesterol", "cholesterol total", "tc", "serum cholesterol", "ldl", "ldl cholesterol", "ldl-c", "low density lipoprotein", "bad cholesterol", "hdl"]
  const Block5: seq<string> := ["hdl cholesterol", "hdl-c", "high density lipoprotein", "good cholesterol", "triglycerides", "tg", "trigs", "triglyceride", "vldl", "vldl cholesterol", "very low density lipoprotein"]
  const Block6: seq<string> := ["sgot", "ast", "aspartate aminotransferase", "sgot (ast)", "sgpt", "alt", "alanine aminotransferase", "sgpt (alt)", "alkaline phosphatase", "alp", "alk phos"]
  const Block7: seq<string> := ["alkp", "total bilirubin", "bilirubin", "bilirubin total", "t. bilirubin", "tbil", "direct bilirubin", "conjugated bilirubin", "d. bilirubin", "dbil"]
  const Block8: seq<string> := ["albumin", "serum albumin", "alb", "globulin", "serum globulin", "total protein", "protein total", "tp", "serum protein", "ag ratio", "albumin/globulin ratio", "a/g ratio", "a:g ratio", "ggt", "gamma gt", "gamma-glutamyl transferase", "ggtp"]
  const Block9: seq<string> := ["creatinine", "serum creatinine", "creat", "s. creatinine", "bun", "blood urea nitrogen", "urea nitrogen", "urea", "blood urea", "serum urea", "uric acid", "serum uric acid", "urate", "egfr", "estimated gfr", "glomerular filtration rate", "estimated glomerular filtration rate"]
  const Block10: seq<string> := ["fasting glucose", "fasting blood sugar", "fbs", "glucose fasting", "fasting plasma glucose", "fpg", "blood sugar fasting", "random glucose", "random blood sugar", "rbs", "glucose random", "blood sugar random"]
  const Block11: seq<string> := ["hba1c", "glycated hemoglobin", "glycosylated hemoglobin", "a1c", "hemoglobin a1c", "hb a1c", "pp glucose", "postprandial glucose", "post prandial blood sugar", "ppbs", "glucose pp"]
  const Block12: seq<string> := ["tsh", "thyroid stimulating hormone", "thyrotropin", "t3", "triiodothyronine", "total t3", "serum t3", "t4", "thyroxine", "total t4", "serum t4", "free t3", "ft3", "free t4", "ft4", "free thyroxine"]
  const Block13: seq<string> := ["sodium", "na", "na+", "serum sodium", "potassium", "k", "k+", "serum potassium", "chloride", "cl", "cl-", "serum chloride"]
  const Block14: seq<string> := ["calcium", "ca", "serum calcium", "total calcium", "phosphorus", "phosphate", "serum phosphorus", "po4", "magnesium", "mg", "serum magnesium"]
  const Block15: seq<string> := ["iron", "serum iron", "fe", "ferritin", "serum ferritin", "tibc", "total iron binding capacity"]
  const Block16: seq<string> := ["vitamin d", "25-hydroxy vitamin d", "25(oh)d", "vit d", "vitamin d3", "vitamin b12", "b12", "cobalamin", "vit b12", "folate", "folic acid", "serum folate", "vitamin b9"]
  const Block17: seq<string> := ["esr", "erythrocyte sedimentation rate", "sed rate", "crp", "c-reactive protein", "c reactive protein", "hs-crp", "psa", "prostate specific antigen"]

  // No block repeats a key, and every key is normalised.
  lemma Block1Distinct() ensures Distinct(Block1) {}
  lemma Block1Key0() ensures IsKey("hemoglobin") {}
  lemma Block1Key1() ensures IsKey("hb") {}
  lemma Block1Key2() ensures IsKey("hgb") {}
  lemma Block1Key3() ensures IsKey("haemoglobin") {}
  lemma Block1Key4() ensures IsKey("hematocrit") {}
  lemma Block1Key5() ensures IsKey("hct") {}
  lemma Block1Key6() ensures IsKey("pcv") {}
  lemma Block1Key7() ensures IsKey("packed cell volume") {}
  lemma Block1Key8() ensures IsKey("rbc") {}
  lemma Block1Key9() ensures IsKey("red blood cells") {}
  lemma Block1Key10() ensures IsKey("red blood cell count") {}
  lemma Block1Key11() ensures IsKey("rbc count") {}
  lemma Block1Key12() ensures IsKey("erythrocytes") {}
  lemma Block1Keys() ensures AllKeys(Block1) {
    Block1Key0(); Block1Key1(); Block1Key2(); Block1Key3(); Block1Key4(); Block1Key5(); Block1Key6(); Block1Key7(); Block1Key8(); Block1Key9(); Block1Key10(); Block1Key11(); Block1Key12();
  }
  lemma Block2Distinct() ensures Distinct(Block2) {}
  lemma Block2Key0() ensures IsKey("wbc") {}
  lemma Block2Key1() ensures IsKey("white blood cells") {}
  lemma Block2Key2() ensures IsKey("white blood cell count") {}
  lemma Block2Key3() ensures IsKey("wbc count") {}
  lemma Block2Key4() ensures IsKey("leukocytes") {}
  lemma Block2Key5() ensures IsKey("total wbc") {}
  lemma Block2Key6() ensures IsKey("total leucocyte count") {}
  lemma Block2Key7() ensures IsKey("tlc") {}
  lemma Block2Key8() ensures IsKey("platelets") {}
  lemma Block2Key9() ensures IsKey("platelet count") {}
  lemma Block2Key10() ensures IsKey("plt") {}
  lemma Block2Key11() ensures IsKey("thrombocytes") {}
  lemma Block2Keys() ensures AllKeys(Block2) {
    Block2Key0(); Block2Key1(); Block2Key2(); Block2Key3(); Block2Key4(); Block2Key5(); Block2Key6(); Block2Key7(); Block2Key8(); Block2Key9(); Block2Key10(); Block2Key11();
  }
  lemma Block3Distinct() ensures Distinct(Block3) {}
  lemma Block3Key0() ensures IsKey("mcv") {}
  lemma Block3Key1() ensures IsKey("mean corpuscular volume") {}
  lemma Block3Key2() ensures IsKey("mch") {}
  lemma Block3Key3() ensures IsKey("mean corpuscular hemoglobin") {}
  lemma Block3Key4() ensures IsKey("mchc") {}
  lemma Block3Key5() ensures IsKey("mean corpuscular hemoglobin concentration") {}
  lemma Block3Key6() ensures IsKey("rdw") {}
  lemma Block3Key7() ensures IsKey("red cell distribution width") {}
  lemma Block3Key8() ensures IsKey("rdw-cv") {}
  lemma Block3Key9() ensures IsKey("mpv") {}
  lemma Block3Key10() ensures IsKey("mean platelet volume") {}
  lemma Block3Keys() ensures AllKeys(Block3) {
    Block3Key0(); Block3Key1(); Block3Key2(); Block3Key3(); Block3Key4(); Block3Key5(); Block3Key6(); Block3Key7(); Block3Key8(); Block3Key9(); Block3Key10();
  }
  lemma Block4Distinct() ensures Distinct(Block4) {}
  lemma Block4Key0() ensures IsKey("total cholesterol") {}
  lemma Block4Key1() ensures IsKey("cholesterol") {}
  lemma Block4Key2() ensures IsKey("cholesterol total") {}
  lemma Block4Key3() ensures IsKey("tc") {}
  lemma Block4Key4() ensures IsKey("serum cholesterol") {}
  lemma Block4Key5() ensures IsKey("ldl") {}
  lemma Block4Key6() ensures IsKey("ldl cholesterol") {}
  lemma Block4Key7() ensures IsKey("ldl-c") {}
  lemma Block4Key8() ensures IsKey("low density lipoprotein") {}
  lemma Block4Key9() ensures IsKey("bad cholesterol") {}
  lemma Block4Key10() ensures IsKey("hdl") {}
  lemma Block4Keys() ensures AllKeys(Block4) {
    Block4Key0(); Block4Key1(); Block4Key2(); Block4Key3(); Block4Key4(); Block4Key5(); Block4Key6(); Block4Key7(); Block4Key8(); Block4Key9(); Block4Key10();
  }
  lemma Block5Distinct() ensures Distinct(Block5) {}
  lemma Block5Key0() ensures IsKey("hdl cholesterol") {}
  lemma Block5Key1() ensures IsKey("hdl-c") {}
  lemma Block5Key2() ensures IsKey("high density lipoprotein") {}
  lemma Block5Key3() ensures IsKey("good cholesterol") {}
  lemma Block5Key4() ensures IsKey("triglycerides") {}
  lemma Block5Key5() ensures IsKey("tg") {}
  lemma Block5Key6() ensures IsKey("trigs") {}
  lemma Block5Key7() ensures IsKey("triglyceride") {}
  lemma Block5Key8() ensures IsKey("vldl") {}
  lemma Block5Key9() ensures IsKey("vldl cholesterol") {}
  lemma Block5Key10() ensures IsKey("very low density lipoprotein") {}
  lemma Block5Keys() ensures AllKeys(Block5) {
    Block5Key0(); Block5Key1(); Block5Key2(); Block5Key3(); Block5Key4(); Block5Key5(); Block5Key6(); Block5Key7(); Block5Key8(); Block5Key9(); Block5Key10();
  }
  lemma Block6Distinct() ensures Distinct(Block6) {}
  lemma Block6Key0() ensures IsKey("sgot") {}
  lemma Block6Key1() ensures IsKey("ast") {}
  lemma Block6Key2() ensures IsKey("aspartate aminotransferase") {}
  lemma Block6Key3() ensures IsKey("sgot (ast)") {}
  lemma Block6Key4() ensures IsKey("sgpt") {}
  lemma Block6Key5() ensures IsKey("alt") {}
  lemma Block6Key6() ensures IsKey("alanine aminotransferase") {}
  lemma Block6Key7() ensures IsKey("sgpt (alt)") {}
  lemma Block6Key8() ensures IsKey("alkaline phosphatase") {}
  lemma Block6Key9() ensures IsKey("alp") {}
  lemma Block6Key10() ensures IsKey("alk phos") {}
  lemma Block6Keys() ensures AllKeys(Block6) {
    Block6Key0(); Block6Key1(); Block6Key2(); Block6Key3(); Block6Key4(); Block6Key5(); Block6Key6(); Block6Key7(); Block6Key8(); Block6Key9(); Block6Key10();
  }
  lemma Block7Distinct() ensures Distinct(Block7) {}
  lemma Block7Key0() ensures IsKey("alkp") {}
  lemma Block7Key1() ensures IsKey("total bilirubin") {}
  lemma Block7Key2() ensures IsKey("bilirubin") {}
  lemma Block7Key3() ensures IsKey("bilirubin total") {}
  lemma Block7Key4() ensures IsKey("t. bilirubin") {}
  lemma Block7Key5() ensures IsKey("tbil") {}
  lemma Block7Key6() ensures IsKey("direct bilirubin") {}
  lemma Block7Key7() ensures IsKey("conjugated bilirubin") {}
  lemma Block7Key8() ensures IsKey("d. bilirubin") {}
  lemma Block7Key9() ensures IsKey("dbil") {}
  lemma Block7Keys() ensures AllKeys(Block7) {
    Block7Key0(); Block7Key1(); Block7Key2(); Block7Key3(); Block7Key4(); Block7Key5(); Block7Key6(); Block7Key7(); Block7Key8(); Block7Key9();
  }
  lemma Block8Distinct() ensures Distinct(Block8) {}
  lemma Block8Key0() ensures IsKey("albumin") {}
  lemma Block8Key1() ensures IsKey("serum albumin") {}
  lemma Block8Key2() ensures IsKey("alb") {}
  lemma Block8Key3() ensures IsKey("globulin") {}
  lemma Block8Key4() ensures IsKey("serum globulin") {}
  lemma Block8Key5() ensures IsKey("total protein") {}
  lemma Block8Key6() ensures IsKey("protein total") {}
  lemma Block8Key7() ensures IsKey("tp") {}
  lemma Block8Key8() ensures IsKey("serum protein") {}
  lemma Block8Key9() ensures IsKey("ag ratio") {}
  lemma Block8Key10() ensures IsKey("albumin/globulin ratio") {}
  lemma Block8Key11() ensures IsKey("a/g ratio") {}
  lemma Block8Key12() ensures IsKey("a:g ratio") {}
  lemma Block8Key13() ensures IsKey("ggt") {}
  lemma Block8Key14() ensures IsKey("gamma gt") {}
  lemma Block8Key15() ensures IsKey("gamma-glutamyl transferase") {}
  lemma Block8Key16() ensures IsKey("ggtp") {}
  lemma Block8Keys() ensures AllKeys(Block8) {
    Block8Key0(); Block8Key1(); Block8Key2(); Block8Key3(); Block8Key4(); Block8Key5(); Block8Key6(); Block8Key7(); Block8Key8(); Block8Key9(); Block8Key10(); Block8Key11(); Block8Key12(); Block8Key13(); Block8Key14(); Block8Key15(); Block8Key16();
  }
  lemma Block9Distinct() ensures Distinct(Block9) {}
  lemma Block9Key0() ensures IsKey("creatinine") {}
  lemma Block9Key1() ensures IsKey("serum creatinine") {}
  lemma Block9Key2() ensures IsKey("creat") {}
  lemma Block9Key3() ensures IsKey("s. creatinine") {}
  lemma Block9Key4() ensures IsKey("bun") {}
  lemma Block9Key5() ensures IsKey("blood urea nitrogen") {}
  lemma Block9Key6() ensures IsKey("urea nitrogen") {}
  lemma Block9Key7() ensures IsKey("urea") {}
  lemma Block9Key8() ensures IsKey("blood urea") {}
  lemma Block9Key9() ensures IsKey("serum urea") {}
  lemma Block9Key10() ensures IsKey("uric acid") {}
  lemma Block9Key11() ensures IsKey("serum uric acid") {}
  lemma Block9Key12() ensures IsKey("urate") {}
  lemma Block9Key13() ensures IsKey("egfr") {}
  lemma Block9Key14() ensures IsKey("estimated gfr") {}
  lemma Block9Key15() ensures IsKey("glomerular filtration rate") {}
  lemma Block9Key16() ensures IsKey("estimated glomerular filtration rate") {}
  lemma Block9Keys() ensures AllKeys(Block9) {
    Block9Key0(); Block9Key1(); Block9Key2(); Block9Key3(); Block9Key4(); Block9Key5(); Block9Key6(); Block9Key7(); Block9Key8(); Block9Key9(); Block9Key10(); Block9Key11(); Block9Key12(); Block9Key13(); Block9Key14(); Block9Key15(); Block9Key16();
  }
  lemma Block10Distinct() ensures Distinct(Block10) {}
  lemma Block10Key0() ensures IsKey("fasting glucose") {}
  lemma Block10Key1() ensures IsKey("fasting blood sugar") {}
  lemma Block10Key2() ensures IsKey("fbs") {}
  lemma Block10Key3() ensures IsKey("glucose fasting") {}
  lemma Block10Key4() ensures IsKey("fasting plasma glucose") {}
  lemma Block10Key5() ensures IsKey("fpg") {}
  lemma Block10Key6() ensures IsKey("blood sugar fasting") {}
  lemma Block10Key7() ensures IsKey("random glucose") {}
  lemma Block10Key8() ensures IsKey("random blood sugar") {}
  lemma Block10Key9() ensures IsKey("rbs") {}
  lemma Block10Key10() ensures IsKey("glucose random") {}
  lemma Block10Key11() ensures IsKey("blood sugar random") {}
  lemma Block10Keys() ensures AllKeys(Block10) {
    Block10Key0(); Block10Key1(); Block10Key2(); Block10Key3(); Block10Key4(); Block10Key5(); Block10Key6(); Block10Key7(); Block10Key8(); Block10Key9(); Block10Key10(); Block10Key11();
  }
  lemma Block11Distinct() ensures Distinct(Block11) {}
  lemma Block11Key0() ensures IsKey("hba1c") {}
  lemma Block11Key1() ensures IsKey("glycated hemoglobin") {}
  lemma Block11Key2() ensures IsKey("glycosylated hemoglobin") {}
  lemma Block11Key3() ensures IsKey("a1c") {}
  lemma Block11Key4() ensures IsKey("hemoglobin a1c") {}
  lemma Block11Key5() ensures IsKey("hb a1c") {}
  lemma Block11Key6() ensures IsKey("pp glucose") {}
  lemma Block11Key7() ensures IsKey("postprandial glucose") {}
  lemma Block11Key8() ensures IsKey("post prandial blood sugar") {}
  lemma Block11Key9() ensures IsKey("ppbs") {}
  lemma Block11Key10() ensures IsKey("glucose pp") {}
  lemma Block11Keys() ensures AllKeys(Block11) {
    Block11Key0(); Block11Key1(); Block11Key2(); Block11Key3(); Block11Key4(); Block11Key5(); Block11Key6(); Block11Key7(); Block11Key8(); Block11Key9(); Block11Key10();
  }
  lemma Block12Distinct() ensures Distinct(Block12) {}
  lemma Block12Key0() ensures IsKey("tsh") {}
  lemma Block12Key1() ensures IsKey("thyroid stimulating hormone") {}
  lemma Block12Key2() ensures IsKey("thyrotropin") {}
  lemma Block12Key3() ensures IsKey("t3") {}
  lemma Block12Key4() ensures IsKey("triiodothyronine") {}
  lemma Block12Key5() ensures IsKey("total t3") {}
  lemma Block12Key6() ensures IsKey("serum t3") {}
  lemma Block12Key7() ensures IsKey("t4") {}
  lemma Block12Key8() ensures IsKey("thyroxine") {}
  lemma Block12Key9() ensures IsKey("total t4") {}
  lemma Block12Key10() ensures IsKey("serum t4") {}
  lemma Block12Key11() ensures IsKey("free t3") {}
  lemma Block12Key12() ensures IsKey("ft3") {}
  lemma Block12Key13() ensures IsKey("free t4") {}
  lemma Block12Key14() ensures IsKey("ft4") {}
  lemma Block12Key15() ensures IsKey("free thyroxine") {}
  lemma Block12Keys() ensures AllKeys(Block12) {
    Block12Key0(); Block12Key1(); Block12Key2(); Block12Key3(); Block12Key4(); Block12Key5(); Block12Key6(); Block12Key7(); Block12Key8(); Block12Key9(); Block12Key10(); Block12Key11(); Block12Key12(); Block12Key13(); Block12Key14(); Block12Key15();
  }
  lemma Block13Distinct() ensures Distinct(Block13) {}
  lemma Block13Key0() ensures IsKey("sodium") {}
  lemma Block13Key1() ensures IsKey("na") {}
  lemma Block13Key2() ensures IsKey("na+") {}
  lemma Block13Key3() ensures IsKey("serum sodium") {}
  lemma Block13Key4() ensures IsKey("potassium") {}
  lemma Block13Key5() ensures IsKey("k") {}
  lemma Block13Key6() ensures IsKey("k+") {}
  lemma Block13Key7() ensures IsKey("serum potassium") {}
  lemma Block13Key8() ensures IsKey("chloride") {}
  lemma Block13Key9() ensures IsKey("cl") {}
  lemma Block13Key10() ensures IsKey("cl-") {}
  lemma Block13Key11() ensures IsKey("serum chloride") {}
  lemma Block13Keys() ensures AllKeys(Block13) {
    Block13Key0(); Block13Key1(); Block13Key2(); Block13Key3(); Block13Key4(); Block13Key5(); Block13Key6(); Block13Key7(); Block13Key8(); Block13Key9(); Block13Key10(); Block13Key11();
  }
  lemma Block14Distinct() ensures Distinct(Block14) {}
  lemma Block14Key0() ensures IsKey("calcium") {}
  lemma Block14Key1() ensures IsKey("ca") {}
  lemma Block14Key2() ensures IsKey("serum calcium") {}
  lemma Block14Key3() ensures IsKey("total calcium") {}
  lemma Block14Key4() ensures IsKey("phosphorus") {}
  lemma Block14Key5() ensures IsKey("phosphate") {}
  lemma Block14Key6() ensures IsKey("serum phosphorus") {}
  lemma Block14Key7() ensures IsKey("po4") {}
  lemma Block14Key8() ensures IsKey("magnesium") {}
  lemma Block14Key9() ensures IsKey("mg") {}
  lemma Block14Key10() ensures IsKey("serum magnesium") {}
  lemma Block14Keys() ensures AllKeys(Block14) {
    Block14Key0(); Block14Key1(); Block14Key2(); Block14Key3(); Block14Key4(); Block14Key5(); Block14Key6(); Block14Key7(); Block14Key8(); Block14Key9(); Block14Key10();
  }
  lemma Block15Distinct() ensures Distinct(Block15) {}
  lemma Block15Key0() ensures IsKey("iron") {}
  lemma Block15Key1() ensures IsKey("serum iron") {}
  lemma Block15Key2() ensures IsKey("fe") {}
  lemma Block15Key3() ensures IsKey("ferritin") {}
  lemma Block15Key4() ensures IsKey("serum ferritin") {}
  lemma Block15Key5() ensures IsKey("tibc") {}
  lemma Block15Key6() ensures IsKey("total iron binding capacity") {}
  lemma Block15Keys() ensures AllKeys(Block15) {
    Block15Key0(); Block15Key1(); Block15Key2(); Block15Key3(); Block15Key4(); Block15Key5(); Block15Key6();
  }
  lemma Block16Distinct() ensures Distinct(Block16) {}
  lemma Block16Key0() ensures IsKey("vitamin d") {}
  lemma Block16Key1() ensures IsKey("25-hydroxy vitamin d") {}
  lemma Block16Key2() ensures IsKey("25(oh)d") {}
  lemma Block16Key3() ensures IsKey("vit d") {}
  lemma Block16Key4() ensures IsKey("vitamin d3") {}
  lemma Block16Key5() ensures IsKey("vitamin b12") {}
  lemma Block16Key6() ensures IsKey("b12") {}
  lemma Block16Key7() ensures IsKey("cobalamin") {}
  lemma Block16Key8() ensures IsKey("vit b12") {}
  lemma Block16Key9() ensures IsKey("folate") {}
  lemma Block16Key10() ensures IsKey("folic acid") {}
  lemma Block16Key11() ensures IsKey("serum folate") {}
  lemma Block16Key12() ensures IsKey("vitamin b9") {}
  lemma Block16Keys() ensures AllKeys(Block16) {
    Block16Key0(); Block16Key1(); Block16Key2(); Block16Key3(); Block16Key4(); Block16Key5(); Block16Key6(); Block16Key7(); Block16Key8(); Block16Key9(); Block16Key10(); Block16Key11(); Block16Key12();
  }
  lemma Block17Distinct() ensures Distinct(Block17) {}
  lemma Block17Key0() ensures IsKey("esr") {}
  lemma Block17Key1() ensures IsKey("erythrocyte sedimentation rate") {}
  lemma Block17Key2() ensures IsKey("sed rate") {}
  lemma Block17Key3() ensures IsKey("crp") {}
  lemma Block17Key4() ensures IsKey("c-reactive protein") {}
  lemma Block17Key5() ensures IsKey("c reactive protein") {}
  lemma Block17Key6() ensures IsKey("hs-crp") {}
  lemma Block17Key7() ensures IsKey("psa") {}
  lemma Block17Key8() ensures IsKey("prostate specific antigen") {}
  lemma Block17Keys() ensures AllKeys(Block17) {
    Block17Key0(); Block17Key1(); Block17Key2(); Block17Key3(); Block17Key4(); Block17Key5(); Block17Key6(); Block17Key7(); Block17Key8();
  }

  // No key of a block occurs in a later block.
  lemma Block1Vs2() ensures Disjoint(Block1, Block2) {}
  lemma Block1Vs3() ensures Disjoint(Block1, Block3) {}
  lemma Block1Vs4() ensures Disjoint(Block1, Block4) {}
  lemma Block1Vs5() ensures Disjoint(Block1, Block5) {}
  lemma Block1Vs6() ensures Disjoint(Block1, Block6) {}
  lemma Block1Vs7() ensures Disjoint(Block1, Block7) {}
  lemma Block1Vs8() ensures Disjoint(Block1, Block8) {}
  lemma Block1Vs9() ensures Disjoint(Block1, Block9) {}
  lemma Block1Vs10() ensures Disjoint(Block1, Block10) {}
  lemma Block1Vs11() ensures Disjoint(Block1, Block11) {}
  lemma Block1Vs12() ensures Disjoint(Block1, Block12) {}
  lemma Block1Vs13() ensures Disjoint(Block1, Block13) {}
  lemma Block1Vs14() ensures Disjoint(Block1, Block14) {}
  lemma Block1Vs15() ensures Disjoint(Block1, Block15) {}
  lemma Block1Vs16() ensures Disjoint(Block1, Block16) {}
  lemma Block1Vs17() ensures Disjoint(Block1, Block17) {}
  lemma Block2Vs3() ensures Disjoint(Block2, Block3) {}
  lemma Block2Vs4() ensures Disjoint(Block2, Block4) {}
  lemma Block2Vs5() ensures Disjoint(Block2, Block5) {}
  lemma Block2Vs6() ensures Disjoint(Block2, Block6) {}
  lemma Block2Vs7() ensures Disjoint(Block2, Block7) {}
  lemma Block2Vs8() ensures Disjoint(Block2, Block8) {}
  lemma Block2Vs9() ensures Disjoint(Block2, Block9) {}
  lemma Block2Vs10() ensures Disjoint(Block2, Block10) {}
  lemma Block2Vs11() ensures Disjoint(Block2, Block11) {}
  lemma Block2Vs12() ensures Disjoint(Block2, Block12) {}
  lemma Block2Vs13() ensures Disjoint(Block2, Block13) {}
  lemma Block2Vs14() ensures Disjoint(Block2, Block14) {}
  lemma Block2Vs15() ensures Disjoint(Block2, Block15) {}
  lemma Block2Vs16() ensures Disjoint(Block2, Block16) {}
  lemma Block2Vs17() ensures Disjoint(Block2, Block17) {}
  lemma Block3Vs4() ensures Disjoint(Block3, Block4) {}
  lemma Block3Vs5() ensures Disjoint(Block3, Block5) {}
  lemma Block3Vs6() ensures Disjoint(Block3, Block6) {}
  lemma Block3Vs7() ensures Disjoint(Block3, Block7) {}
  lemma Block3Vs8() ensures Disjoint(Block3, Block8) {}
  lemma Block3Vs9() ensures Disjoint(Block3, Block9) {}
  lemma Block3Vs10() ensures Disjoint(Block3, Block10) {}
  lemma Block3Vs11() ensures Disjoint(Block3, Block11) {}
  lemma Block3Vs12() ensures Disjoint(Block3, Block12) {}
  lemma Block3Vs13() ensures Disjoint(Block3, Block13) {}
  lemma Block3Vs14() ensures Disjoint(Block3, Block14) {}
  lemma Block3Vs15() ensures Disjoint(Block3, Block15) {}
  lemma Block3Vs16() ensures Disjoint(Block3, Block16) {}
  lemma Block3Vs17() ensures Disjoint(Block3, Block17) {}
  lemma Block4Vs5() ensures Disjoint(Block4, Block5) {}
  lemma Block4Vs6() ensures Disjoint(Block4, Block6) {}
  lemma Block4Vs7() ensures Disjoint(Block4, Block7) {}
  lemma Block4Vs8() ensures Disjoint(Block4, Block8) {}
  lemma Block4Vs9() ensures Disjoint(Block4, Block9) {}
  lemma Block4Vs10() ensures Disjoint(Block4, Block10) {}
  lemma Block4Vs11() ensures Disjoint(Block4, Block11) {}
  lemma Block4Vs12() ensures Disjoint(Block4, Block12) {}
  lemma Block4Vs13() ensures Disjoint(Block4, Block13) {}
  lemma Block4Vs14() ensures Disjoint(Block4, Block14) {}
  lemma Block4Vs15() ensures Disjoint(Block4, Block15) {}
  lemma Block4Vs16() ensures Disjoint(Block4, Block16) {}
  lemma Block4Vs17() ensures Disjoint(Block4, Block17) {}
  lemma Block5Vs6() ensures Disjoint(Block5, Block6) {}
  lemma Block5Vs7() ensures Disjoint(Block5, Block7) {}
  lemma Block5Vs8() ensures Disjoint(Block5, Block8) {}
  lemma Block5Vs9() ensures Disjoint(Block5, Block9) {}
  lemma Block5Vs10() ensures Disjoint(Block5, Block10) {}
  lemma Block5Vs11() ensures Disjoint(Block5, Block11) {}
  lemma Block5Vs12() ensures Disjoint(Block5, Block12) {}
  lemma Block5Vs13() ensures Disjoint(Block5, Block13) {}
  lemma Block5Vs14() ensures Disjoint(Block5, Block14) {}
  lemma Block5Vs15() ensures Disjoint(Block5, Block15) {}
  lemma Block5Vs16() ensures Disjoint(Block5, Block16) {}
  lemma Block5Vs17() ensures Disjoint(Block5, Block17) {}
  lemma Block6Vs7() ensures Disjoint(Block6, Block7) {}
  lemma Block6Vs8() ensures Disjoint(Block6, Block8) {}
  lemma Block6Vs9() ensures Disjoint(Block6, Block9) {}
  lemma Block6Vs10() ensures Disjoint(Block6, Block10) {}
  lemma Block6Vs11() ensures Disjoint(Block6, Block11) {}
  lemma Block6Vs12() ensures Disjoint(Block6, Block12) {}
  lemma Block6Vs13() ensures Disjoint(Block6, Block13) {}
  lemma Block6Vs14() ensures Disjoint(Block6, Block14) {}
  lemma Block6Vs15() ensures Disjoint(Block6, Block15) {}
  lemma Block6Vs16() ensures Disjoint(Block6, Block16) {}
  lemma Block6Vs17() ensures Disjoint(Block6, Block17) {}
  lemma Block7Vs8() ensures Disjoint(Block7, Block8) {}
  lemma Block7Vs9() ensures Disjoint(Block7, Block9) {}
  lemma Block7Vs10() ensures Disjoint(Block7, Block10) {}
  lemma Block7Vs11() ensures Disjoint(Block7, Block11) {}
  lemma Block7Vs12() ensures Disjoint(Block7, Block12) {}
  lemma Block7Vs13() ensures Disjoint(Block7, Block13) {}
  lemma Block7Vs14() ensures Disjoint(Block7, Block14) {}
  lemma Block7Vs15() ensures Disjoint(Block7, Block15) {}
  lemma Block7Vs16() ensures Disjoint(Block7, Block16) {}
  lemma Block7Vs17() ensures Disjoint(Block7, Block17) {}
  lemma Block8Vs9() ensures Disjoint(Block8, Block9) {}
  lemma Block8Vs10() ensures Disjoint(Block8, Block10) {}
  lemma Block8Vs11() ensures Disjoint(Block8, Block11) {}
  lemma Block8Vs12() ensures Disjoint(Block8, Block12) {}
  lemma Block8Vs13() ensures Disjoint(Block8, Block13) {}
  lemma Block8Vs14() ensures Disjoint(Block8, Block14) {}
  lemma Block8Vs15() ensures Disjoint(Block8, Block15) {}
  lemma Block8Vs16() ensures Disjoint(Block8, Block16) {}
  lemma Block8Vs17() ensures Disjoint(Block8, Block17) {}
  lemma Block9Vs10() ensures Disjoint(Block9, Block10) {}
  lemma Block9Vs11() ensures Disjoint(Block9, Block11) {}
  lemma Block9Vs12() ensures Disjoint(Block9, Block12) {}
  lemma Block9Vs13() ensures Disjoint(Block9, Block13) {}
  lemma Block9Vs14() ensures Disjoint(Block9, Block14) {}
  lemma Block9Vs15() ensures Disjoint(Block9, Block15) {}
  lemma Block9Vs16() ensures Disjoint(Block9, Block16) {}
  lemma Block9Vs17() ensures Disjoint(Block9, Block17) {}
  lemma Block10Vs11() ensures Disjoint(Block10, Block11) {}
  lemma Block10Vs12() ensures Disjoint(Block10, Block12) {}
  lemma Block10Vs13() ensures Disjoint(Block10, Block13) {}
  lemma Block10Vs14() ensures Disjoint(Block10, Block14) {}
  lemma Block10Vs15() ensures Disjoint(Block10, Block15) {}
  lemma Block10Vs16() ensures Disjoint(Block10, Block16) {}
  lemma Block10Vs17() ensures Disjoint(Block10, Block17) {}
  lemma Block11Vs12() ensures Disjoint(Block11, Block12) {}
  lemma Block11Vs13() ensures Disjoint(Block11, Block13) {}
  lemma Block11Vs14() ensures Disjoint(Block11, Block14) {}
  lemma Block11Vs15() ensures Disjoint(Block11, Block15) {}
  lemma Block11Vs16() ensures Disjoint(Block11, Block16) {}
  lemma Block11Vs17() ensures Disjoint(Block11, Block17) {}
  lemma Block12Vs13() ensures Disjoint(Block12, Block13) {}
  lemma Block12Vs14() ensures Disjoint(Block12, Block14) {}
  lemma Block12Vs15() ensures Disjoint(Block12, Block15) {}
  lemma Block12Vs16() ensures Disjoint(Block12, Block16) {}
  lemma Block12Vs17() ensures Disjoint(Block12, Block17) {}
  lemma Block13Vs14() ensures Disjoint(Block13, Block14) {}
  lemma Block13Vs15() ensures Disjoint(Block13, Block15) {}
  lemma Block13Vs16() ensures Disjoint(Block13, Block16) {}
  lemma Block13Vs17() ensures Disjoint(Block13, Block17) {}
  lemma Block14Vs15() ensures Disjoint(Block14, Block15) {}
  lemma Block14Vs16() ensures Disjoint(Block14, Block16) {}
  lemma Block14Vs17() ensures Disjoint(Block14, Block17) {}
  lemma Block15Vs16() ensures Disjoint(Block15, Block16) {}
  lemma Block15Vs17() ensures Disjoint(Block15, Block17) {}
  lemma Block16Vs17() ensures Disjoint(Block16, Block17) {}

  lemma BlocksFacts()
    ensures forall k :: 0 <= k < |Blocks| ==> Distinct(Blocks[k]) && AllKeys(Blocks[k])
  {
    Block1Distinct(); Block1Keys();
    Block2Distinct(); Block2Keys();
    Block3Distinct(); Block3Keys();
    Block4Distinct(); Block4Keys();
    Block5Distinct(); Block5Keys();
    Block6Distinct(); Block6Keys();
    Block7Distinct(); Block7Keys();
    Block8Distinct(); Block8Keys();
    Block9Distinct(); Block9Keys();
    Block10Distinct(); Block10Keys();
    Block11Distinct(); Block11Keys();
    Block12Distinct(); Block12Keys();
    Block13Distinct(); Block13Keys();
    Block14Distinct(); Block14Keys();
    Block15Distinct(); Block15Keys();
    Block16Distinct(); Block16Keys();
    Block17Distinct(); Block17Keys();
  }

  lemma Block1VsLater()
    ensures forall l :: 1 <= l < |Blocks| ==> Disjoint(Blocks[0], Blocks[l])
  {
    Block1Vs2(); Block1Vs3(); Block1Vs4(); Block1Vs5(); Block1Vs6(); Block1Vs7(); Block1Vs8(); Block1Vs9(); Block1Vs10(); Block1Vs11(); Block1Vs12(); Block1Vs13(); Block1Vs14(); Block1Vs15(); Block1Vs16(); Block1Vs17();
  }

  lemma Block2VsLater()
    ensures forall l :: 2 <= l < |Blocks| ==> Disjoint(Blocks[1], Blocks[l])
  {
    Block2Vs3(); Block2Vs4(); Block2Vs5(); Block2Vs6(); Block2Vs7(); Block2Vs8(); Block2Vs9(); Block2Vs10(); Block2Vs11(); Block2Vs12(); Block2Vs13(); Block2Vs14(); Block2Vs15(); Block2Vs16(); Block2Vs17();
  }

  lemma Block3VsLater()
    ensures forall l :: 3 <= l < |Blocks| ==> Disjoint(Blocks[2], Blocks[l])
  {
    Block3Vs4(); Block3Vs5(); Block3Vs6(); Block3Vs7(); Block3Vs8(); Block3Vs9(); Block3Vs10(); Block3Vs11(); Block3Vs12(); Block3Vs13(); Block3Vs14(); Block3Vs15(); Block3Vs16(); Block3Vs17();
  }

  lemma Block4VsLater()
    ensures forall l :: 4 <= l < |Blocks| ==> Disjoint(Blocks[3], Blocks[l])
  {
    Block4Vs5(); Block4Vs6(); Block4Vs7(); Block4Vs8(); Block4Vs9(); Block4Vs10(); Block4Vs11(); Block4Vs12(); Block4Vs13(); Block4Vs14(); Block4Vs15(); Block4Vs16(); Block4Vs17();
  }

  lemma Block5VsLater()
    ensures forall l :: 5 <= l < |Blocks| ==> Disjoint(Blocks[4], Blocks[l])
  {
    Block5Vs6(); Block5Vs7(); Block5Vs8(); Block5Vs9(); Block5Vs10(); Block5Vs11(); Block5Vs12(); Block5Vs13(); Block5Vs14(); Block5Vs15(); Block5Vs16(); Block5Vs17();
  }

  lemma Block6VsLater()
    ensures forall l :: 6 <= l < |Blocks| ==> Disjoint(Blocks[5], Blocks[l])
  {
    Block6Vs7(); Block6Vs8(); Block6Vs9(); Block6Vs10(); Block6Vs11(); Block6Vs12(); Block6Vs13(); Block6Vs14(); Block6Vs15(); Block6Vs16(); Block6Vs17();
  }

  lemma Block7VsLater()
    ensures forall l :: 7 <= l < |Blocks| ==> Disjoint(Blocks[6], Blocks[l])
  {
    Block7Vs8(); Block7Vs9(); Block7Vs10(); Block7Vs11(); Block7Vs12(); Block7Vs13(); Block7Vs14(); Block7Vs15(); Block7Vs16(); Block7Vs17();
  }

  lemma Block8VsLater()
    ensures forall l :: 8 <= l < |Blocks| ==> Disjoint(Blocks[7], Blocks[l])
  {
    Block8Vs9(); Block8Vs10(); Block8Vs11(); Block8Vs12(); Block8Vs13(); Block8Vs14(); Block8Vs15(); Block8Vs16(); Block8Vs17();
  }

  lemma Block9VsLater()
    ensures forall l :: 9 <= l < |Blocks| ==> Disjoint(Blocks[8], Blocks[l])
  {
    Block9Vs10(); Block9Vs11(); Block9Vs12(); Block9Vs13(); Block9Vs14(); Block9Vs15(); Block9Vs16(); Block9Vs17();
  }

  lemma Block10VsLater()
    ensures forall l :: 10 <= l < |Blocks| ==> Disjoint(Blocks[9], Blocks[l])
  {
    Block10Vs11(); Block10Vs12(); Block10Vs13(); Block10Vs14(); Block10Vs15(); Block10Vs16(); Block10Vs17();
  }

  lemma Block11VsLater()
    ensures forall l :: 11 <= l < |Blocks| ==> Disjoint(Blocks[10], Blocks[l])
  {
    Block11Vs12(); Block11Vs13(); Block11Vs14(); Block11Vs15(); Block11Vs16(); Block11Vs17();
  }

  lemma Block12VsLater()
    ensures forall l :: 12 <= l < |Blocks| ==> Disjoint(Blocks[11], Blocks[l])
  {
    Block12Vs13(); Block12Vs14(); Block12Vs15(); Block12Vs16(); Block12Vs17();
  }

  lemma Block13VsLater()
    ensures forall l :: 13 <= l < |Blocks| ==> Disjoint(Blocks[12], Blocks[l])
  {
    Block13Vs14(); Block13Vs15(); Block13Vs16(); Block13Vs17();
  }

  lemma Block14VsLater()
    ensures forall l :: 14 <= l < |Blocks| ==> Disjoint(Blocks[13], Blocks[l])
  {
    Block14Vs15(); Block14Vs16(); Block14Vs17();
  }

  lemma Block15VsLater()
    ensures forall l :: 15 <= l < |Blocks| ==> Disjoint(Blocks[14], Blocks[l])
  {
    Block15Vs16(); Block15Vs17();
  }

  lemma Block16VsLater()
    ensures forall l :: 16 <= l < |Blocks| ==> Disjoint(Blocks[15], Blocks[l])
  {
    Block16Vs17();
  }

  /** `ConcatFrom(bs, 0)` on 17 blocks, unfolded. */
  lemma ConcatAllBlocks(bs: seq<seq<string>>)
    requires |bs| == 17
    ensures ConcatFrom(bs, 0) == bs[0] + (bs[1] + (bs[2] + (bs[3] + (bs[4] + (bs[5] + (bs[6] + (bs[7] + (bs[8] + (bs[9] + (bs[10] + (bs[11] + (bs[12] + (bs[13] + (bs[14] + (bs[15] + (bs[16]))))))))))))))))
  {
    assert ConcatFrom(bs, 0) == bs[0] + ConcatFrom(bs, 1);
    assert ConcatFrom(bs, 1) == bs[1] + ConcatFrom(bs, 2);
    assert ConcatFrom(bs, 2) == bs[2] + ConcatFrom(bs, 3);
    assert ConcatFrom(bs, 3) == bs[3] + ConcatFrom(bs, 4);
    assert ConcatFrom(bs, 4) == bs[4] + ConcatFrom(bs, 5);
    assert ConcatFrom(bs, 5) == bs[5] + ConcatFrom(bs, 6);
    assert ConcatFrom(bs, 6) == bs[6] + ConcatFrom(bs, 7);
    assert ConcatFrom(bs, 7) == bs[7] + ConcatFrom(bs, 8);
    assert ConcatFrom(bs, 8) == bs[8] + ConcatFrom(bs, 9);
    assert ConcatFrom(bs, 9) == bs[9] + ConcatFrom(bs, 10);
    assert ConcatFrom(bs, 10) == bs[10] + ConcatFrom(bs, 11);
    assert ConcatFrom(bs, 11) == bs[11] + ConcatFrom(bs, 12);
    assert ConcatFrom(bs, 12) == bs[12] + ConcatFrom(bs, 13);
    assert ConcatFrom(bs, 13) == bs[13] + ConcatFrom(bs, 14);
    assert ConcatFrom(bs, 14) == bs[14] + ConcatFrom(bs, 15);
    assert ConcatFrom(bs, 15) == bs[15] + ConcatFrom(bs, 16);
    assert ConcatFrom(bs, 16) == bs[16] + ConcatFrom(bs, 17);
  }

  /** Regrouping the section key lists into blocks. */
  lemma Regroup(k1: seq<string>, k2: seq<string>, k3: seq<string>, k4: seq<string>, k5: seq<string>, k6: seq<string>, k7: seq<string>, k8: seq<string>, k9: seq<string>, k10: seq<string>, k11: seq<string>, k12: seq<string>, k13: seq<string>,
                b1: seq<string>, b2: seq<string>, b3: seq<string>, b4: seq<string>, b5: seq<string>, b6: seq<string>, b7: seq<string>, b8: seq<string>, b9: seq<string>, b10: seq<string>, b11: seq<string>, b12: seq<string>, b13: seq<string>, b14: seq<string>, b15: seq<string>, b16: seq<string>, b17: seq<string>)
    requires k1 == b1 + b2
    requires k2 == b3
    requires k3 == b4 + b5
    requires k4 == b6 + b7
    requires k5 == b8
    requires k6 == b9
    requires k7 == b10 + b11
    requires k8 == b12
    requires k9 == b13 + b14
    requires k10 == b15
    requires k11 == b16
    requires k12 + k13 == b17
    ensures k1 + k2 + k3 + k4 + k5 + k6 + k7 + k8 + k9 + k10 + k11 + k12 + k13 == b1 + (b2 + (b3 + (b4 + (b5 + (b6 + (b7 + (b8 + (b9 + (b10 + (b11 + (b12 + (b13 + (b14 + (b15 + (b16 + (b17))))))))))))))))
  {
  }

  /** The blocks laid end to end. */
  lemma BlocksConcat()
    ensures ConcatFrom(Blocks, 0) == Block1 + (Block2 + (Block3 + (Block4 + (Block5 + (Block6 + (Block7 + (Block8 + (Block9 + (Block10 + (Block11 + (Block12 + (Block13 + (Block14 + (Block15 + (Block16 + (Block17))))))))))))))))
  {
    ConcatAllBlocks(Blocks);
  }

  /** The blocks together repeat no key, and every key is normalised. */
  lemma BlockKeys()
    ensures Distinct(ConcatFrom(Blocks, 0)) && AllKeys(ConcatFrom(Blocks, 0))
  {
    BlocksFacts();
    Block1VsLater(); Block2VsLater(); Block3VsLater(); Block4VsLater(); Block5VsLater(); Block6VsLater(); Block7VsLater(); Block8VsLater(); Block9VsLater(); Block10VsLater(); Block11VsLater(); Block12VsLater(); Block13VsLater(); Block14VsLater(); Block15VsLater(); Block16VsLater();
    assert forall k, l :: 0 <= k < l < |Blocks| ==> Disjoint(Blocks[k], Blocks[l]);
    ConcatFromDistinct(Blocks, 0);
    ConcatFromKeys(Blocks, 0);
  }
}

