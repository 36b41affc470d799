/**
 * The reference catalogue (`NORMAL_RANGES` in normal_ranges.py): canonical
 * lower-case test name -> inclusive normal bounds, display unit and the
 * alternate spellings found on reports. The table is kept in declaration
 * order, panel by panel, because the alias index is built by walking it.
 */
module RangeTable {

  /** `ReferenceRange`: inclusive bounds of the "Normal" classification. */
  datatype ReferenceRange = ReferenceRange(minValue: real, maxValue: real, unit: string, aliases: seq<string>)

  /** One `canonical: ReferenceRange(...)` item of the table. */
  datatype Entry = Entry(canonical: string, range: ReferenceRange)

  // Complete Blood Count (CBC), first half
  const CompleteBloodCount1: seq<Entry> := [
    Entry("hemoglobin", ReferenceRange(12.0, 17.5, "g/dL", ["hb", "hgb", "haemoglobin"])),
    Entry("hematocrit", ReferenceRange(36.0, 50.0, "%", ["hct", "pcv", "packed cell volume"])),
    Entry("rbc", ReferenceRange(4.0, 6.0, "million/µL", ["red blood cells", "red blood cell count", "rbc count", "erythrocytes"])),
    Entry("wbc", ReferenceRange(4.0, 11.0, "thousand/µL", ["white blood cells", "white blood cell count", "wbc count", "leukocytes", "total wbc", "total leucocyte count", "tlc"])),
    Entry("platelets", ReferenceRange(150.0, 400.0, "thousand/µL", ["platelet count", "plt", "thrombocytes"]))
  ]

  // Complete Blood Count (CBC), second half
  const CompleteBloodCount2: seq<Entry> := [
    Entry("mcv", ReferenceRange(80.0, 100.0, "fL", ["mean corpuscular volume"])),
    Entry("mch", ReferenceRange(27.0, 33.0, "pg", ["mean corpuscular hemoglobin"])),
    Entry("mchc", ReferenceRange(32.0, 36.0, "g/dL", ["mean corpuscular hemoglobin concentration"])),
    Entry("rdw", ReferenceRange(11.5, 14.5, "%", ["red cell distribution width", "rdw-cv"])),
    Entry("mpv", ReferenceRange(7.5, 11.5, "fL", ["mean platelet volume"]))
  ]

  // Lipid Panel
  const LipidPanel: seq<Entry> := [
    Entry("total cholesterol", ReferenceRange(0.0, 200.0, "mg/dL", ["cholesterol", "cholesterol total", "tc", "serum cholesterol"])),
    Entry("ldl", ReferenceRange(0.0, 100.0, "mg/dL", ["ldl cholesterol", "ldl-c", "low density lipoprotein", "bad cholesterol"])),
    Entry("hdl", ReferenceRange(40.0, 60.0, "mg/dL", ["hdl cholesterol", "hdl-c", "high density lipoprotein", "good cholesterol"])),
    Entry("triglycerides", ReferenceRange(0.0, 150.0, "mg/dL", ["tg", "trigs", "triglyceride"])),
    Entry("vldl", ReferenceRange(2.0, 30.0, "mg/dL", ["vldl cholesterol", "very low density lipoprotein"]))
  ]

  // Liver Function Tests (LFT), first half
  const LiverFunction1: seq<Entry> := [
    Entry("sgot", ReferenceRange(5.0, 40.0, "U/L", ["ast", "aspartate aminotransferase", "sgot (ast)"])),
    Entry("sgpt", ReferenceRange(7.0, 56.0, "U/L", ["alt", "alanine aminotransferase", "sgpt (alt)"])),
    Entry("alkaline phosphatase", ReferenceRange(44.0, 147.0, "U/L", ["alp", "alk phos", "alkp"])),
    Entry("total bilirubin", ReferenceRange(0.1, 1.2, "mg/dL", ["bilirubin", "bilirubin total", "t. bilirubin", "tbil"])),
    Entry("direct bilirubin", ReferenceRange(0.0, 0.3, "mg/dL", ["conjugated bilirubin", "d. bilirubin", "dbil"]))
  ]

  // Liver Function Tests (LFT), second half
  const LiverFunction2: seq<Entry> := [
    Entry("albumin", ReferenceRange(3.5, 5.5, "g/dL", ["serum albumin", "alb"])),
    Entry("globulin", ReferenceRange(2.0, 3.5, "g/dL", ["serum globulin"])),
    Entry("total protein", ReferenceRange(6.0, 8.3, "g/dL", ["protein total", "tp", "serum protein"])),
    Entry("ag ratio", ReferenceRange(1.0, 2.5, "", ["albumin/globulin ratio", "a/g ratio", "a:g ratio"])),
    Entry("ggt", ReferenceRange(0.0, 45.0, "U/L", ["gamma gt", "gamma-glutamyl transferase", "ggtp"]))
  ]

  // Kidney / Renal Function
  const KidneyFunction: seq<Entry> := [
    Entry("creatinine", ReferenceRange(0.6, 1.2, "mg/dL", ["serum creatinine", "creat", "s. creatinine"])),
    Entry("bun", ReferenceRange(7.0, 20.0, "mg/dL", ["blood urea nitrogen", "urea nitrogen"])),
    Entry("urea", ReferenceRange(15.0, 45.0, "mg/dL", ["blood urea", "serum urea"])),
    Entry("uric acid", ReferenceRange(3.0, 7.0, "mg/dL", ["serum uric acid", "urate"])),
    Entry("egfr", ReferenceRange(90.0, 120.0, "mL/min/1.73m²", ["estimated gfr", "glomerular filtration rate", "estimated glomerular filtration rate"]))
  ]

  // Diabetes / Metabolic
  const DiabetesMetabolic: seq<Entry> := [
    Entry("fasting glucose", ReferenceRange(70.0, 100.0, "mg/dL", ["fasting blood sugar", "fbs", "glucose fasting", "fasting plasma glucose", "fpg", "blood sugar fasting"])),
    Entry("random glucose", ReferenceRange(70.0, 140.0, "mg/dL", ["random blood sugar", "rbs", "glucose random", "blood sugar random"])),
    Entry("hba1c", ReferenceRange(4.0, 5.6, "%", ["glycated hemoglobin", "glycosylated hemoglobin", "a1c", "hemoglobin a1c", "hb a1c"])),
    Entry("pp glucose", ReferenceRange(70.0, 140.0, "mg/dL", ["postprandial glucose", "post prandial blood sugar", "ppbs", "glucose pp"]))
  ]

  // Thyroid Panel
  const ThyroidPanel: seq<Entry> := [
    Entry("tsh", ReferenceRange(0.4, 4.0, "mIU/L", ["thyroid stimulating hormone", "thyrotropin"])),
    Entry("t3", ReferenceRange(80.0, 200.0, "ng/dL", ["triiodothyronine", "total t3", "serum t3"])),
    Entry("t4", ReferenceRange(5.0, 12.0, "µg/dL", ["thyroxine", "total t4", "serum t4"])),
    Entry("free t3", ReferenceRange(2.3, 4.2, "pg/mL", ["ft3"])),
    Entry("free t4", ReferenceRange(0.8, 1.8, "ng/dL", ["ft4", "free thyroxine"]))
  ]

  // Electrolytes
  const Electrolytes: seq<Entry> := [
    Entry("sodium", ReferenceRange(136.0, 145.0, "mEq/L", ["na", "na+", "serum sodium"])),
    Entry("potassium", ReferenceRange(3.5, 5.0, "mEq/L", ["k", "k+", "serum potassium"])),
    Entry("chloride", ReferenceRange(98.0, 106.0, "mEq/L", ["cl", "cl-", "serum chloride"])),
    Entry("calcium", ReferenceRange(8.5, 10.5, "mg/dL", ["ca", "serum calcium", "total calcium"])),
    Entry("phosphorus", ReferenceRange(2.5, 4.5, "mg/dL", ["phosphate", "serum phosphorus", "po4"])),
    Entry("magnesium", ReferenceRange(1.7, 2.2, "mg/dL", ["mg", "serum magnesium"]))
  ]

  // Iron Studies
  const IronStudies: seq<Entry> := [
    Entry("iron", ReferenceRange(60.0, 170.0, "µg/dL", ["serum iron", "fe"])),
    Entry("ferritin", ReferenceRange(12.0, 300.0, "ng/mL", ["serum ferritin"])),
    Entry("tibc", ReferenceRange(250.0, 370.0, "µg/dL", ["total iron binding capacity"]))
  ]

  // Vitamins
  const Vitamins: seq<Entry> := [
    Entry("vitamin d", ReferenceRange(30.0, 100.0, "ng/mL", ["25-hydroxy vitamin d", "25(oh)d", "vit d", "vitamin d3"])),
    Entry("vitamin b12", ReferenceRange(200.0, 900.0, "pg/mL", ["b12", "cobalamin", "vit b12"])),
    Entry("folate", ReferenceRange(2.7, 17.0, "ng/mL", ["folic acid", "serum folate", "vitamin b9"]))
  ]

  // Inflammation / Cardiac
  const InflammationCardiac: seq<Entry> := [
    Entry("esr", ReferenceRange(0.0, 20.0, "mm/hr", ["erythrocyte sedimentation rate", "sed rate"])),
    Entry("crp", ReferenceRange(0.0, 3.0, "mg/L", ["c-reactive protein", "c reactive protein", "hs-crp"]))
  ]

  // Prostate
  const Prostate: seq<Entry> := [
    Entry("psa", ReferenceRange(0.0, 4.0, "ng/mL", ["prostate specific antigen"]))
  ]

  /** `NORMAL_RANGES`, in declaration order. */
  const Table: seq<Entry> :=
    CompleteBloodCount1 + CompleteBloodCount2 + LipidPanel + LiverFunction1 + LiverFunction2
    + KidneyFunction + DiabetesMetabolic + ThyroidPanel + Electrolytes + IronStudies + Vitamins
    + InflammationCardiac + Prostate

  /** The spellings an entry answers to: its canonical name, then its aliases. */
  function Keys(e: Entry): seq<string>
  {
    [e.canonical] + e.range.aliases
  }

  /** The spellings of `es`, entry by entry. */
  function KeysOf(es: seq<Entry>): seq<string>
  {
    if |es| == 0 then [] else Keys(es[0]) + KeysOf(es[1..])
  }
}
