/**
 * Facts about the catalogue that hold by inspection of its data: every
 * canonical name and alias occurs once in the whole table (so no spelling is
 * claimed by two tests), every one of them is already in the form `lookup`
 * normalises to, and every range has 0 <= min <= max.
 */
module RangeTableFacts {
  import opened Text
  import opened RangeTable
  import opened KeyBlocks

  /** A range whose bounds are ordered and not negative. */
  predicate RangeOk(e: Entry)
  {
    0.0 <= e.range.minValue <= e.range.maxValue
  }

  lemma {:induction false} KeysOfAppend(a: seq<Entry>, b: seq<Entry>)
    ensures KeysOf(a + b) == KeysOf(a) + KeysOf(b)
    decreases |a|
  {
    if |a| == 0 {
      assert a + b == b;
    } else {
      assert (a + b)[0] == a[0];
      assert (a + b)[1..] == a[1..] + b;
      KeysOfAppend(a[1..], b);
      calc {
        KeysOf(a + b);
        Keys(a[0]) + KeysOf(a[1..] + b);
        Keys(a[0]) + (KeysOf(a[1..]) + KeysOf(b));
        (Keys(a[0]) + KeysOf(a[1..])) + KeysOf(b);
      }
    }
  }


  // The keys of each section, as blocks.
  lemma CompleteBloodCount1Keys() ensures KeysOf(CompleteBloodCount1) == Block1 + Block2 {}
  lemma CompleteBloodCount2Keys() ensures KeysOf(CompleteBloodCount2) == Block3 {}
  lemma LipidPanelKeys() ensures KeysOf(LipidPanel) == Block4 + Block5 {}
  lemma LiverFunction1Keys() ensures KeysOf(LiverFunction1) == Block6 + Block7 {}
  lemma LiverFunction2Keys() ensures KeysOf(LiverFunction2) == Block8 {}
  lemma KidneyFunctionKeys() ensures KeysOf(KidneyFunction) == Block9 {}
  lemma DiabetesMetabolicKeys() ensures KeysOf(DiabetesMetabolic) == Block10 + Block11 {}
  lemma ThyroidPanelKeys() ensures KeysOf(ThyroidPanel) == Block12 {}
  lemma ElectrolytesKeys() ensures KeysOf(Electrolytes) == Block13 + Block14 {}
  lemma IronStudiesKeys() ensures KeysOf(IronStudies) == Block15 {}
  lemma VitaminsKeys() ensures KeysOf(Vitamins) == Block16 {}
  lemma InflammationCardiacKeys() ensures KeysOf(InflammationCardiac) + KeysOf(Prostate) == Block17 {}

  lemma TableKeysBySection()
    ensures KeysOf(Table) == KeysOf(CompleteBloodCount1) + KeysOf(CompleteBloodCount2) + KeysOf(LipidPanel) + KeysOf(LiverFunction1) + KeysOf(LiverFunction2) + KeysOf(KidneyFunction) + KeysOf(DiabetesMetabolic) + KeysOf(ThyroidPanel) + KeysOf(Electrolytes) + KeysOf(IronStudies) + KeysOf(Vitamins) + KeysOf(InflammationCardiac) + KeysOf(Prostate)
  {
    KeysOfAppend(CompleteBloodCount1, CompleteBloodCount2);
    KeysOfAppend(CompleteBloodCount1 + CompleteBloodCount2, LipidPanel);
    KeysOfAppend(CompleteBloodCount1 + CompleteBloodCount2 + LipidPanel, LiverFunction1);
    KeysOfAppend(CompleteBloodCount1 + CompleteBloodCount2 + LipidPanel + LiverFunction1, LiverFunction2);
    KeysOfAppend(CompleteBloodCount1 + CompleteBloodCount2 + LipidPanel + LiverFunction1 + LiverFunction2, KidneyFunction);
    KeysOfAppend(CompleteBloodCount1 + CompleteBloodCount2 + LipidPanel + LiverFunction1 + LiverFunction2 + KidneyFunction, DiabetesMetabolic);
    KeysOfAppend(CompleteBloodCount1 + CompleteBloodCount2 + LipidPanel + LiverFunction1 + LiverFunction2 + KidneyFunction + DiabetesMetabolic, ThyroidPanel);
    KeysOfAppend(CompleteBloodCount1 + CompleteBloodCount2 + LipidPanel + LiverFunction1 + LiverFunction2 + KidneyFunction + DiabetesMetabolic + ThyroidPanel, Electrolytes);
    KeysOfAppend(CompleteBloodCount1 + CompleteBloodCount2 + LipidPanel + LiverFunction1 + LiverFunction2 + KidneyFunction + DiabetesMetabolic + ThyroidPanel + Electrolytes, IronStudies);
    KeysOfAppend(CompleteBloodCount1 + CompleteBloodCount2 + LipidPanel + LiverFunction1 + LiverFunction2 + KidneyFunction + DiabetesMetabolic + ThyroidPanel + Electrolytes + IronStudies, Vitamins);
    KeysOfAppend(CompleteBloodCount1 + CompleteBloodCount2 + LipidPanel + LiverFunction1 + LiverFunction2 + KidneyFunction + DiabetesMetabolic + ThyroidPanel + Electrolytes + IronStudies + Vitamins, InflammationCardiac);
    KeysOfAppend(CompleteBloodCount1 + CompleteBloodCount2 + LipidPanel + LiverFunction1 + LiverFunction2 + KidneyFunction + DiabetesMetabolic + ThyroidPanel + Electrolytes + IronStudies + Vitamins + InflammationCardiac, Prostate);
  }

  /** The section key lists, regrouped into blocks. */
  lemma SectionsAreBlocks()
    ensures KeysOf(CompleteBloodCount1) + KeysOf(CompleteBloodCount2) + KeysOf(LipidPanel) + KeysOf(LiverFunction1) + KeysOf(LiverFunction2) + KeysOf(KidneyFunction) + KeysOf(DiabetesMetabolic) + KeysOf(ThyroidPanel) + KeysOf(Electrolytes) + KeysOf(IronStudies) + KeysOf(Vitamins) + KeysOf(InflammationCardiac) + KeysOf(Prostate)
         == Block1 + (Block2 + (Block3 + (Block4 + (Block5 + (Block6 + (Block7 + (Block8 + (Block9 + (Block10 + (Block11 + (Block12 + (Block13 + (Block14 + (Block15 + (Block16 + (Block17))))))))))))))))
  {
    CompleteBloodCount1Keys(); CompleteBloodCount2Keys(); LipidPanelKeys(); LiverFunction1Keys(); LiverFunction2Keys(); KidneyFunctionKeys(); DiabetesMetabolicKeys(); ThyroidPanelKeys(); ElectrolytesKeys(); IronStudiesKeys(); VitaminsKeys(); InflammationCardiacKeys();
    Regroup(KeysOf(CompleteBloodCount1), KeysOf(CompleteBloodCount2), KeysOf(LipidPanel), KeysOf(LiverFunction1), KeysOf(LiverFunction2), KeysOf(KidneyFunction), KeysOf(DiabetesMetabolic), KeysOf(ThyroidPanel), KeysOf(Electrolytes), KeysOf(IronStudies), KeysOf(Vitamins), KeysOf(InflammationCardiac), KeysOf(Prostate),
            Block1, Block2, Block3, Block4, Block5, Block6, Block7, Block8, Block9, Block10, Block11, Block12, Block13, Block14, Block15, Block16, Block17);
  }

  lemma TableKeysAreBlocks()
    ensures KeysOf(Table) == ConcatFrom(Blocks, 0)
  {
    TableKeysBySection();
    SectionsAreBlocks();
    BlocksConcat();
  }

  /** Every key of the catalogue occurs exactly once, and is normalised. */
  lemma TableKeys()
    ensures Distinct(KeysOf(Table)) && AllKeys(KeysOf(Table))
  {
    BlockKeys();
    TableKeysAreBlocks();
  }

  // Every range of each section is well ordered.
  lemma CompleteBloodCount1Ranges() ensures forall e :: e in CompleteBloodCount1 ==> RangeOk(e) {}
  lemma CompleteBloodCount2Ranges() ensures forall e :: e in CompleteBloodCount2 ==> RangeOk(e) {}
  lemma LipidPanelRanges() ensures forall e :: e in LipidPanel ==> RangeOk(e) {}
  lemma LiverFunction1Ranges() ensures forall e :: e in LiverFunction1 ==> RangeOk(e) {}
  lemma LiverFunction2Ranges() ensures forall e :: e in LiverFunction2 ==> RangeOk(e) {}
  lemma KidneyFunctionRanges() ensures forall e :: e in KidneyFunction ==> RangeOk(e) {}
  lemma DiabetesMetabolicRanges() ensures forall e :: e in DiabetesMetabolic ==> RangeOk(e) {}
  lemma ThyroidPanelRanges() ensures forall e :: e in ThyroidPanel ==> RangeOk(e) {}
  lemma ElectrolytesRanges() ensures forall e :: e in Electrolytes ==> RangeOk(e) {}
  lemma IronStudiesRanges() ensures forall e :: e in IronStudies ==> RangeOk(e) {}
  lemma VitaminsRanges() ensures forall e :: e in Vitamins ==> RangeOk(e) {}
  lemma InflammationCardiacRanges() ensures forall e :: e in InflammationCardiac ==> RangeOk(e) {}
  lemma ProstateRanges() ensures forall e :: e in Prostate ==> RangeOk(e) {}

  lemma TableRanges()
    ensures forall e :: e in Table ==> RangeOk(e)
  {
    CompleteBloodCount1Ranges(); CompleteBloodCount2Ranges(); LipidPanelRanges(); LiverFunction1Ranges(); LiverFunction2Ranges(); KidneyFunctionRanges(); DiabetesMetabolicRanges(); ThyroidPanelRanges(); ElectrolytesRanges(); IronStudiesRanges(); VitaminsRanges(); InflammationCardiacRanges(); ProstateRanges();
  }
}
