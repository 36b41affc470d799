/**
 * The catalogue as the rest of the system sees it (normal_ranges.py): the
 * `NORMAL_RANGES` dictionary, the reverse alias index `_ALIAS_MAP` built by
 * walking the table, and `lookup`, which strips and lower-cases a name and
 * resolves it through the index.
 *
 * The general lemmas hold for any table whose spellings are distinct and
 * already normalised; `RangeTableFacts.TableKeys` establishes both for the
 * real table, and the lemmas at the end of the module combine the two.
 */
module NormalRanges {
  import opened Optional
  import opened Text
  import opened RangeTable
  import opened KeyBlocks
  import opened RangeTableFacts

  // ------------------------------------------------------------------
  // Building the dictionaries
  // ------------------------------------------------------------------

  /** The dictionary a table of entries denotes: canonical name -> range, a
      later entry replacing an earlier one with the same name. */
  function RangesOf(es: seq<Entry>): (m: map<string, ReferenceRange>)
    decreases |es|
  {
    if |es| == 0 then map[]
    else RangesOf(es[..|es| - 1])[es[|es| - 1].canonical := es[|es| - 1].range]
  }

  /** The aliases of one entry, lower-cased. */
  function LowerAll(aliases: seq<string>): (r: seq<string>)
    ensures |r| == |aliases|
    ensures forall j :: 0 <= j < |aliases| ==> r[j] == Lower(aliases[j])
  {
    seq(|aliases|, j requires 0 <= j < |aliases| => Lower(aliases[j]))
  }

  /** The inner loop of `_build_alias_map`: each alias, lower-cased, is
      pointed at `canonical`, one after the other. */
  function AddAliases(m: map<string, string>, aliases: seq<string>, canonical: string): (r: map<string, string>)
    decreases |aliases|
  {
    if |aliases| == 0 then m
    else AddAliases(m[Lower(aliases[0]) := canonical], aliases[1..], canonical)
  }

  /** `_build_alias_map` over the entries `es`, in order: the canonical name
      is pointed at itself, then its aliases at it; later writes win. */
  function AliasMapOf(es: seq<Entry>): (m: map<string, string>)
    decreases |es|
  {
    if |es| == 0 then map[]
    else
      var e := es[|es| - 1];
      AddAliases(AliasMapOf(es[..|es| - 1])[e.canonical := e.canonical], e.range.aliases, e.canonical)
  }

  /** `NORMAL_RANGES`. */
  const Catalogue: map<string, ReferenceRange> := RangesOf(Table)

  /** `_ALIAS_MAP`. */
  const AliasMap: map<string, string> := AliasMapOf(Table)

  /** `lookup`: the stripped, lower-cased name resolved through the alias
      index to its canonical name and that name's range. */
  function Lookup(name: string): (r: Option<(string, ReferenceRange)>)
    ensures r.Some? ==> r.value.0 in Catalogue && r.value.1 == Catalogue[r.value.0]
  {
    var key := Lower(Strip(name));
    if key in AliasMap then
      AliasMapValues(Table);
      Some((AliasMap[key], Catalogue[AliasMap[key]]))
    else None
  }

  // ------------------------------------------------------------------
  // General facts about the construction
  // ------------------------------------------------------------------

  /** Every key of the dictionary comes from an entry carrying that name and
      that range (the last such entry). */
  lemma {:induction false} RangesOfOwner(es: seq<Entry>, c: string) returns (i: nat)
    requires c in RangesOf(es)
    ensures i < |es| && es[i].canonical == c && RangesOf(es)[c] == es[i].range
    decreases |es|
  {
    var n := |es| - 1;
    if es[n].canonical == c {
      i := n;
    } else {
      i := RangesOfOwner(es[..n], c);
    }
  }

  /** Every entry's canonical name is a key of the dictionary. */
  lemma {:induction false} RangesOfHas(es: seq<Entry>, i: nat)
    requires i < |es|
    ensures es[i].canonical in RangesOf(es)
    decreases |es|
  {
    var n := |es| - 1;
    if i < n {
      RangesOfHas(es[..n], i);
    }
  }

  /** What the inner loop leaves: the aliases point at `canonical`, and every
      other key keeps its old target. */
  lemma {:induction false} AddAliasesSpec(m: map<string, string>, aliases: seq<string>, canonical: string)
    ensures forall k :: k in AddAliases(m, aliases, canonical) <==> k in m || k in LowerAll(aliases)
    ensures forall k :: k in LowerAll(aliases) ==> AddAliases(m, aliases, canonical)[k] == canonical
    ensures forall k :: k in m && k !in LowerAll(aliases) ==> AddAliases(m, aliases, canonical)[k] == m[k]
    decreases |aliases|
  {
    if |aliases| > 0 {
      var m' := m[Lower(aliases[0]) := canonical];
      AddAliasesSpec(m', aliases[1..], canonical);
      assert LowerAll(aliases) == [Lower(aliases[0])] + LowerAll(aliases[1..]);
    }
  }

  /** Every target of the alias index is a key of the dictionary, so the
      second subscript in `lookup` cannot fail. */
  lemma {:induction false} AliasMapValues(es: seq<Entry>)
    ensures forall k :: k in AliasMapOf(es) ==> AliasMapOf(es)[k] in RangesOf(es)
    decreases |es|
  {
    if |es| > 0 {
      var n := |es| - 1;
      var e := es[n];
      var m0 := AliasMapOf(es[..n]);
      AliasMapValues(es[..n]);
      AddAliasesSpec(m0[e.canonical := e.canonical], e.range.aliases, e.canonical);
    }
  }

  // ------------------------------------------------------------------
  // Spellings of a table
  // ------------------------------------------------------------------

  lemma KeysOfOne(e: Entry)
    ensures KeysOf([e]) == Keys(e)
  {
    assert [e][1..] == [];
  }

  /** The spellings of a table are those of all but its last entry, then
      those of the last. */
  lemma KeysOfSnoc(es: seq<Entry>)
    requires |es| > 0
    ensures KeysOf(es) == KeysOf(es[..|es| - 1]) + Keys(es[|es| - 1])
  {
    var n := |es| - 1;
    var init, last := es[..n], es[n..];
    assert init + last == es;
    assert last == [es[n]];
    KeysOfAppend(init, last);
    KeysOfOne(es[n]);
  }

  lemma {:induction false} KeysOfContains(es: seq<Entry>, i: nat)
    requires i < |es|
    ensures forall k :: k in Keys(es[i]) ==> k in KeysOf(es)
    decreases |es|
  {
    var n := |es| - 1;
    KeysOfSnoc(es);
    if i < n {
      KeysOfContains(es[..n], i);
    }
  }

  lemma DistinctSplit(a: seq<string>, b: seq<string>)
    requires Distinct(a + b)
    ensures Distinct(a) && Distinct(b)
    ensures forall x :: x in a ==> x !in b
  {
    forall i, j | 0 <= i < j < |a|
      ensures a[i] != a[j]
    {
      assert (a + b)[i] == a[i] && (a + b)[j] == a[j];
    }
    forall i, j | 0 <= i < j < |b|
      ensures b[i] != b[j]
    {
      assert (a + b)[|a| + i] == b[i] && (a + b)[|a| + j] == b[j];
    }
    forall x | x in a
      ensures x !in b
    {
      var i :| 0 <= i < |a| && a[i] == x;
      forall j | 0 <= j < |b|
        ensures b[j] != x
      {
        assert (a + b)[i] == a[i] && (a + b)[|a| + j] == b[j];
      }
    }
  }

  lemma AllKeysSplit(a: seq<string>, b: seq<string>)
    requires AllKeys(a + b)
    ensures AllKeys(a) && AllKeys(b)
  {
    forall j | 0 <= j < |a|
      ensures IsKey(a[j])
    {
      assert (a + b)[j] == a[j];
    }
    forall j | 0 <= j < |b|
      ensures IsKey(b[j])
    {
      assert (a + b)[|a| + j] == b[j];
    }
  }

  /** A normalised spelling is its own lookup key. */
  lemma KeyNormalised(k: string)
    requires IsKey(k)
    ensures Lower(Strip(k)) == k
  {
    StripOfStripped(k);
    LowerOfLowercase(k);
  }

  /** Lower-casing leaves the aliases of a normalised entry as they are. */
  lemma LowerAllKeys(e: Entry)
    requires AllKeys(Keys(e))
    ensures LowerAll(e.range.aliases) == e.range.aliases
  {
    forall j | 0 <= j < |e.range.aliases|
      ensures Lower(e.range.aliases[j]) == e.range.aliases[j]
    {
      assert Keys(e)[j + 1] == e.range.aliases[j];
      LowerOfLowercase(e.range.aliases[j]);
    }
  }

  // ------------------------------------------------------------------
  // The alias index of a table with distinct, normalised spellings
  // ------------------------------------------------------------------

  /** The index answers exactly the spellings of the table. */
  lemma {:induction false} AliasMapKeys(es: seq<Entry>)
    requires AllKeys(KeysOf(es))
    ensures forall k :: k in AliasMapOf(es) <==> k in KeysOf(es)
    decreases |es|
  {
    if |es| > 0 {
      var n := |es| - 1;
      var e := es[n];
      KeysOfSnoc(es);
      AllKeysSplit(KeysOf(es[..n]), Keys(e));
      AliasMapKeys(es[..n]);
      LowerAllKeys(e);
      AddAliasesSpec(AliasMapOf(es[..n])[e.canonical := e.canonical], e.range.aliases, e.canonical);
    }
  }

  /** Each spelling of an entry leads to that entry's canonical name: no
      later entry overwrites it, because no spelling belongs to two entries. */
  lemma {:induction false} AliasMapOwner(es: seq<Entry>, i: nat)
    requires Distinct(KeysOf(es)) && AllKeys(KeysOf(es))
    requires i < |es|
    ensures forall k :: k in Keys(es[i]) ==> k in AliasMapOf(es) && AliasMapOf(es)[k] == es[i].canonical
    decreases |es|
  {
    var n := |es| - 1;
    var e := es[n];
    var m0 := AliasMapOf(es[..n]);
    KeysOfSnoc(es);
    DistinctSplit(KeysOf(es[..n]), Keys(e));
    AllKeysSplit(KeysOf(es[..n]), Keys(e));
    LowerAllKeys(e);
    AddAliasesSpec(m0[e.canonical := e.canonical], e.range.aliases, e.canonical);
    if i < n {
      AliasMapOwner(es[..n], i);
      KeysOfContains(es[..n], i);
      assert es[..n][i] == es[i];
      forall k | k in Keys(es[i])
        ensures k !in Keys(e)
      {
        assert k in KeysOf(es[..n]);
      }
    }
  }

  /** Two different entries share no spelling. */
  lemma {:induction false} KeysApart(es: seq<Entry>, i: nat, j: nat)
    requires Distinct(KeysOf(es))
    requires i < j < |es|
    ensures forall k :: k in Keys(es[i]) ==> k !in Keys(es[j])
    ensures es[i].canonical != es[j].canonical
    decreases |es|
  {
    var n := |es| - 1;
    KeysOfSnoc(es);
    DistinctSplit(KeysOf(es[..n]), Keys(es[n]));
    assert es[..n][i] == es[i];
    assert es[i].canonical in Keys(es[i]) && es[j].canonical in Keys(es[j]);
    if j == n {
      KeysOfContains(es[..n], i);
    } else {
      assert es[..n][j] == es[j];
      KeysApart(es[..n], i, j);
    }
  }

  /** No canonical name is carried by two entries. */
  lemma CanonicalUnique(es: seq<Entry>, i: nat, j: nat)
    requires Distinct(KeysOf(es))
    requires i < |es| && j < |es| && es[i].canonical == es[j].canonical
    ensures i == j
  {
    if i < j {
      KeysApart(es, i, j);
      assert false;
    } else if j < i {
      KeysApart(es, j, i);
      assert false;
    }
  }

  /** With distinct spellings the dictionary holds every entry's own range. */
  lemma RangesOfEntry(es: seq<Entry>, i: nat)
    requires Distinct(KeysOf(es))
    requires i < |es|
    ensures es[i].canonical in RangesOf(es) && RangesOf(es)[es[i].canonical] == es[i].range
  {
    RangesOfHas(es, i);
    var j := RangesOfOwner(es, es[i].canonical);
    CanonicalUnique(es, i, j);
  }

  // ------------------------------------------------------------------
  // Properties of `lookup` on the catalogue
  // ------------------------------------------------------------------

  /** Every canonical name resolves to itself and its own range. */
  lemma CanonicalLookup()
    ensures forall c :: c in Catalogue ==> Lookup(c) == Some((c, Catalogue[c]))
  {
    TableKeys();
    forall c | c in Catalogue
      ensures Lookup(c) == Some((c, Catalogue[c]))
    {
      var i := RangesOfOwner(Table, c);
      AliasMapOwner(Table, i);
      KeysOfContains(Table, i);
      assert c in Keys(Table[i]);
      KeyNormalised(c);
    }
  }

  /** An alias resolves exactly as its canonical name does. */
  lemma AliasLookup()
    ensures forall c, a :: c in Catalogue && a in Catalogue[c].aliases ==> Lookup(a) == Lookup(c)
  {
    TableKeys();
    CanonicalLookup();
    forall c, a | c in Catalogue && a in Catalogue[c].aliases
      ensures Lookup(a) == Lookup(c)
    {
      var i := RangesOfOwner(Table, c);
      AliasMapOwner(Table, i);
      KeysOfContains(Table, i);
      assert a in Keys(Table[i]);
      KeyNormalised(a);
    }
  }

  /** Case and surrounding whitespace make no difference. */
  lemma LookupNormalises(s: string)
    ensures Lookup(s) == Lookup(Lower(Strip(s)))
  {
    StripLower(Strip(s));
    StripIdempotent(s);
    LowerIdempotent(Strip(s));
  }

  /** A name is found exactly when its normalised form is one of the table's
      spellings: there is no partial or fuzzy matching. */
  lemma LookupFound(s: string)
    ensures Lookup(s).Some? <==> Lower(Strip(s)) in KeysOf(Table)
  {
    TableKeys();
    AliasMapKeys(Table);
  }

  /** What `lookup` returns is a catalogue entry, and looking up its name
      again gives the same answer. */
  lemma LookupClosed(s: string)
    ensures Lookup(s).Some? ==> Lookup(Lookup(s).value.0) == Lookup(s)
  {
    CanonicalLookup();
  }

  /** No range of the catalogue is inverted or negative. */
  lemma CatalogueRanges()
    ensures forall c :: c in Catalogue ==> 0.0 <= Catalogue[c].minValue <= Catalogue[c].maxValue
  {
    TableRanges();
    forall c | c in Catalogue
      ensures 0.0 <= Catalogue[c].minValue <= Catalogue[c].maxValue
    {
      var i := RangesOfOwner(Table, c);
      assert RangeOk(Table[i]);
    }
  }

  /** The canonical names are the catalogue's keys, each with its own range. */
  lemma CatalogueEntries()
    ensures forall i :: 0 <= i < |Table| ==> Table[i].canonical in Catalogue && Catalogue[Table[i].canonical] == Table[i].range
  {
    TableKeys();
    forall i | 0 <= i < |Table|
      ensures Table[i].canonical in Catalogue && Catalogue[Table[i].canonical] == Table[i].range
    {
      RangesOfEntry(Table, i);
    }
  }

  lemma FastingGlucoseKey()
    ensures Lower(Strip("Fasting Glucose")) == "fasting glucose"
  {
    StripOfStripped("Fasting Glucose");
    var l := Lower("Fasting Glucose");
    assert l[0] == 'f' && l[8] == 'g';
  }

  lemma FastingGlucoseEntry()
    ensures "fasting glucose" in Catalogue
    ensures Catalogue["fasting glucose"] == DiabetesMetabolic[0].range
  {
    CatalogueEntries();
    assert Table[30] == DiabetesMetabolic[0];
  }

  /** A name as a report prints it finds the fasting glucose entry. */
  lemma FastingGlucoseLookup()
    ensures Lookup("Fasting Glucose").Some?
    ensures Lookup("Fasting Glucose").value.0 == "fasting glucose"
    ensures Lookup("Fasting Glucose").value.1.minValue == 70.0
    ensures Lookup("Fasting Glucose").value.1.maxValue == 100.0
    ensures Lookup("Fasting Glucose").value.1.unit == "mg/dL"
  {
    FastingGlucoseKey();
    LookupNormalises("Fasting Glucose");
    FastingGlucoseEntry();
    CanonicalLookup();
  }
}
