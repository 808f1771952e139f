/**
  `find_dream_symbols`: scan the catalog, in catalog order, against the
  lower-cased dream text.  Each symbol that occurs in the text yields one
  result with its general meaning; independently, each of its context
  phrases that occurs yields one more result labelled "symbol (phrase)".
  Nothing is de-duplicated and nothing can fail.
 */
module Matcher {
  import opened Text
  import opened Catalog

  /** One element of `found_symbols`: its label, meaning and contexts. */
  datatype MatchResult = MatchResult(symbol: string, meaning: string, contexts: seq<Context>)

  /** The label `f"{symbol} ({context})"`. */
  function ContextLabel(symbol: string, phrase: string): string {
    symbol + " (" + phrase + ")"
  }

  /** The result for a symbol found as a whole. */
  function SymbolResult(e: SymbolEntry): MatchResult {
    MatchResult(e.symbol, e.meaning, e.contexts)
  }

  /** The result for context `c` of symbol `symbol`. */
  function ContextResult(symbol: string, c: Context): MatchResult {
    MatchResult(ContextLabel(symbol, c.phrase), c.meaning, [])
  }

  function SymbolHits(e: SymbolEntry, text: string): seq<MatchResult> {
    if Contains(text, e.symbol) then [SymbolResult(e)] else []
  }

  function ContextHits(symbol: string, contexts: seq<Context>, text: string): seq<MatchResult>
    decreases |contexts|
  {
    if contexts == [] then []
    else
      var c := contexts[|contexts| - 1];
      ContextHits(symbol, contexts[..|contexts| - 1], text)
      + (if Contains(text, c.phrase) then [ContextResult(symbol, c)] else [])
  }

  /** What one catalog entry contributes, the whole symbol first. */
  function EntryHits(e: SymbolEntry, text: string): seq<MatchResult> {
    SymbolHits(e, text) + ContextHits(e.symbol, e.contexts, text)
  }

  /** The results for the whole catalog against already lower-cased text. */
  function Matches(catalog: seq<SymbolEntry>, text: string): seq<MatchResult>
    decreases |catalog|
  {
    if catalog == [] then []
    else Matches(catalog[..|catalog| - 1], text) + EntryHits(catalog[|catalog| - 1], text)
  }

  lemma MatchesStep(catalog: seq<SymbolEntry>, i: nat, text: string)
    requires i < |catalog|
    ensures Matches(catalog[..i + 1], text) == Matches(catalog[..i], text) + EntryHits(catalog[i], text)
  {
    assert catalog[..i + 1][..i] == catalog[..i];
  }

  lemma ContextHitsStep(symbol: string, contexts: seq<Context>, j: nat, text: string)
    requires j < |contexts|
    ensures ContextHits(symbol, contexts[..j + 1], text)
            == ContextHits(symbol, contexts[..j], text)
               + (if Contains(text, contexts[j].phrase) then [ContextResult(symbol, contexts[j])] else [])
  {
    assert contexts[..j + 1][..j] == contexts[..j];
  }

  /** The inner loop of `find_dream_symbols`: append one result for each
      context phrase of `symbol` that occurs in the lower-cased text. */
  method AppendContextHits(found: seq<MatchResult>, symbol: string, contexts: seq<Context>, dreamLower: string)
    returns (found': seq<MatchResult>)
    ensures found' == found + ContextHits(symbol, contexts, dreamLower)
  {
    found' := found;
    for j := 0 to |contexts|
      invariant found' == found + ContextHits(symbol, contexts[..j], dreamLower)
    {
      var c := contexts[j];
      ContextHitsStep(symbol, contexts, j, dreamLower);
      if Contains(dreamLower, c.phrase) {
        found' := found' + [ContextResult(symbol, c)];
      }
    }
    assert contexts[..|contexts|] == contexts;
  }

  /** `find_dream_symbols(dream_text, symbols_db)`. */
  method FindDreamSymbols(dreamText: string, catalog: seq<SymbolEntry>) returns (found: seq<MatchResult>)
    ensures found == Matches(catalog, Lower(dreamText))
  {
    found := [];
    var dreamLower := Lower(dreamText);
    for i := 0 to |catalog|
      invariant found == Matches(catalog[..i], dreamLower)
    {
      var entry := catalog[i];
      MatchesStep(catalog, i, dreamLower);
      if Contains(dreamLower, entry.symbol) {
        found := found + [SymbolResult(entry)];
      }
      found := AppendContextHits(found, entry.symbol, entry.contexts, dreamLower);
    }
    assert catalog[..|catalog|] == catalog;
  }

  /** Result `r` is produced by entry `e`: either `e`'s symbol occurs and `r`
      is its general result, or one of its context phrases occurs and `r` is
      that context's result (whether or not the symbol itself occurs). */
  predicate Explains(e: SymbolEntry, r: MatchResult, text: string) {
    (Contains(text, e.symbol) && r == SymbolResult(e))
    || exists c :: c in e.contexts && Contains(text, c.phrase) && r == ContextResult(e.symbol, c)
  }

  lemma {:induction false} ContextHitsMembership(symbol: string, contexts: seq<Context>, text: string, r: MatchResult)
    ensures r in ContextHits(symbol, contexts, text)
            <==> exists c :: c in contexts && Contains(text, c.phrase) && r == ContextResult(symbol, c)
    decreases |contexts|
  {
    if contexts != [] {
      var init := contexts[..|contexts| - 1];
      ContextHitsMembership(symbol, init, text, r);
      assert contexts == init + [contexts[|contexts| - 1]];
    }
  }

  /** A result appears exactly when some catalog entry explains it. */
  lemma {:induction false} MatchesMembership(catalog: seq<SymbolEntry>, text: string, r: MatchResult)
    ensures r in Matches(catalog, text) <==> exists e :: e in catalog && Explains(e, r, text)
    decreases |catalog|
  {
    if catalog != [] {
      var init, last := catalog[..|catalog| - 1], catalog[|catalog| - 1];
      MatchesMembership(init, text, r);
      ContextHitsMembership(last.symbol, last.contexts, text, r);
      assert catalog == init + [last];
      assert r in EntryHits(last, text) <==> Explains(last, r, text);
      assert (exists e :: e in catalog && Explains(e, r, text))
             <==> (exists e :: e in init && Explains(e, r, text)) || Explains(last, r, text);
    }
  }

  /** Results come in catalog order: the results of any leading part of the
      catalog are a prefix of the results of the whole catalog. */
  lemma {:induction false} MatchesInCatalogOrder(catalog: seq<SymbolEntry>, k: nat, text: string)
    requires k <= |catalog|
    ensures Matches(catalog[..k], text) <= Matches(catalog, text)
    decreases |catalog| - k
  {
    if k == |catalog| {
      assert catalog[..k] == catalog;
    } else {
      var init := catalog[..|catalog| - 1];
      assert catalog[..k] == init[..k];
      MatchesInCatalogOrder(init, k, text);
    }
  }

  /** Text in which no symbol and no context phrase occurs yields nothing, and
      only such text does. */
  predicate NothingOccurs(catalog: seq<SymbolEntry>, text: string) {
    forall e :: e in catalog ==>
      !Contains(text, e.symbol) && forall c :: c in e.contexts ==> !Contains(text, c.phrase)
  }

  lemma EmptyIffNothingOccurs(catalog: seq<SymbolEntry>, text: string)
    ensures Matches(catalog, text) == [] <==> NothingOccurs(catalog, text)
  {
    if Matches(catalog, text) == [] {
      forall e | e in catalog
        ensures !Contains(text, e.symbol) && forall c :: c in e.contexts ==> !Contains(text, c.phrase)
      {
        MatchesMembership(catalog, text, SymbolResult(e));
        forall c | c in e.contexts ensures !Contains(text, c.phrase) {
          MatchesMembership(catalog, text, ContextResult(e.symbol, c));
        }
      }
    } else {
      var r := Matches(catalog, text)[0];
      MatchesMembership(catalog, text, r);
    }
  }

  /** The most results an entry list can give: one per symbol and one per context. */
  function Capacity(catalog: seq<SymbolEntry>): nat
    decreases |catalog|
  {
    if catalog == [] then 0
    else Capacity(catalog[..|catalog| - 1]) + 1 + |catalog[|catalog| - 1].contexts|
  }

  lemma {:induction false} ContextHitsBound(symbol: string, contexts: seq<Context>, text: string)
    ensures |ContextHits(symbol, contexts, text)| <= |contexts|
    decreases |contexts|
  {
    if contexts != [] {
      ContextHitsBound(symbol, contexts[..|contexts| - 1], text);
    }
  }

  /** At most one result per symbol plus one per context phrase. */
  lemma {:induction false} MatchesBound(catalog: seq<SymbolEntry>, text: string)
    ensures |Matches(catalog, text)| <= Capacity(catalog)
    decreases |catalog|
  {
    if catalog != [] {
      var last := catalog[|catalog| - 1];
      MatchesBound(catalog[..|catalog| - 1], text);
      ContextHitsBound(last.symbol, last.contexts, text);
    }
  }

  /** Only the text is lower-cased: a symbol or phrase that holds a capital
      letter can never be found, whatever the dream says. */
  lemma CapitalNeverMatches(needle: string, dreamText: string)
    requires exists k :: 0 <= k < |needle| && IsUpper(needle[k])
    ensures !Contains(Lower(dreamText), needle)
  {
    if Contains(Lower(dreamText), needle) {
      ContainedInLowerHasNoUpper(dreamText, needle);
    }
  }

  /** A symbol and one of its phrases both in the text give both results,
      the general one first. */
  lemma SymbolAndContextBothFound(e: SymbolEntry, c: Context, text: string)
    requires c in e.contexts && Contains(text, e.symbol) && Contains(text, c.phrase)
    ensures EntryHits(e, text)[0] == SymbolResult(e)
    ensures ContextResult(e.symbol, c) in EntryHits(e, text)
  {
    ContextHitsMembership(e.symbol, e.contexts, text, ContextResult(e.symbol, c));
  }

  /** Capitals in the dream do not matter: it is lower-cased before matching. */
  lemma SampleDreamLowered()
    ensures Lower("Saya bermimpi Terbang lalu jatuh") == "saya bermimpi terbang lalu jatuh"
  {
    var dream, text := "Saya bermimpi Terbang lalu jatuh", "saya bermimpi terbang lalu jatuh";
    assert forall i :: 0 <= i < |dream| ==> Lower(dream)[i] == text[i];
  }

  lemma SampleDreamMentionsTerbang()
    ensures Contains("saya bermimpi terbang lalu jatuh", "terbang")
  {
    assert OccursAt("saya bermimpi terbang lalu jatuh", "terbang", 14);
    ContainsSpec("saya bermimpi terbang lalu jatuh", "terbang");
  }

  lemma SampleDreamMentionsJatuh()
    ensures Contains("saya bermimpi terbang lalu jatuh", "jatuh")
  {
    assert OccursAt("saya bermimpi terbang lalu jatuh", "jatuh", 27);
    ContainsSpec("saya bermimpi terbang lalu jatuh", "jatuh");
  }

  /** A one-entry catalog whose symbol has one context: when both occur, the
      general result comes first and the context result second. */
  lemma OneSymbolOneContext(e: SymbolEntry, text: string)
    requires |e.contexts| == 1
    requires Contains(text, e.symbol) && Contains(text, e.contexts[0].phrase)
    ensures Matches([e], text) == [SymbolResult(e), ContextResult(e.symbol, e.contexts[0])]
  {
    assert e.contexts[..0] == [];
    assert ContextHits(e.symbol, e.contexts, text) == [ContextResult(e.symbol, e.contexts[0])];
    assert [e][..0] == [];
    assert Matches([e], text) == EntryHits(e, text);
  }

  /** The catalog entry "terbang" with the context "jatuh" against the
      lower-cased dream "saya bermimpi terbang lalu jatuh": exactly the two
      results, in order. */
  lemma FlyingThenFalling()
    ensures
      var terbang := SymbolEntry("terbang", "freedom", [Context("jatuh", "loss of control")]);
      Matches([terbang], "saya bermimpi terbang lalu jatuh")
      == [MatchResult("terbang", "freedom", [Context("jatuh", "loss of control")]),
          MatchResult("terbang (jatuh)", "loss of control", [])]
  {
    var text := "saya bermimpi terbang lalu jatuh";
    SampleDreamMentionsTerbang();
    SampleDreamMentionsJatuh();
    var terbang := SymbolEntry("terbang", "freedom", [Context("jatuh", "loss of control")]);
    OneSymbolOneContext(terbang, text);
    assert ContextLabel("terbang", "jatuh") == "terbang (jatuh)";
  }
}
