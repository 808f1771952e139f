/**
  The symbol catalog: `load_dream_symbols` turns the rows of the symbol
  file into a dictionary keyed by symbol name.  A Python dictionary keeps
  insertion order, and assigning to a key that is already present replaces
  its value in place, so the catalog is modelled as a sequence of entries
  with distinct symbol names, in order of first appearance.
 */
module Catalog {
  import opened Wrappers

  /** One (context phrase -> meaning) pair of a symbol's `contexts` mapping. */
  datatype Context = Context(phrase: string, meaning: string)

  /** A symbol with its general meaning and its context-specific meanings;
      also the shape of one already-parsed row of the symbol file. */
  datatype SymbolEntry = SymbolEntry(symbol: string, meaning: string, contexts: seq<Context>)

  /** The symbol file: absent (`FileNotFoundError`) or its parsed rows. */
  datatype SymbolFile = Missing | Rows(rows: seq<SymbolEntry>)

  predicate Distinct(catalog: seq<SymbolEntry>) {
    forall i, j :: 0 <= i < j < |catalog| ==> catalog[i].symbol != catalog[j].symbol
  }

  function SymbolSet(catalog: seq<SymbolEntry>): set<string> {
    set e | e in catalog :: e.symbol
  }

  /** The symbol names in catalog order. */
  function Symbols(catalog: seq<SymbolEntry>): (r: seq<string>)
    ensures |r| == |catalog|
  {
    seq(|catalog|, i requires 0 <= i < |catalog| => catalog[i].symbol)
  }

  /** Where `symbol` sits in the catalog, if it is there. */
  function IndexOf(catalog: seq<SymbolEntry>, symbol: string): (r: Option<nat>)
    ensures r.Some? ==> r.value < |catalog| && catalog[r.value].symbol == symbol
    ensures r.None? <==> symbol !in SymbolSet(catalog)
  {
    if catalog == [] then None
    else if catalog[0].symbol == symbol then Some(0)
    else
      match IndexOf(catalog[1..], symbol)
      case Some(j) => Some(j + 1)
      case None =>
        assert catalog == [catalog[0]] + catalog[1..];
        None
  }

  /** `symbols[row['symbol']] = {...}`: a new symbol is added at the end; a
      known one keeps its position and takes the row's meaning and contexts. */
  function Assign(catalog: seq<SymbolEntry>, row: SymbolEntry): (r: seq<SymbolEntry>)
    ensures row in r
    ensures |catalog| <= |r| && Symbols(catalog) == Symbols(r)[..|catalog|]
    ensures row.symbol in SymbolSet(catalog) ==> |r| == |catalog|
    ensures row.symbol !in SymbolSet(catalog) ==> r == catalog + [row]
    ensures SymbolSet(r) == SymbolSet(catalog) + {row.symbol}
    ensures forall e :: e in catalog && e.symbol != row.symbol ==> e in r
    ensures Distinct(catalog) ==> Distinct(r)
  {
    match IndexOf(catalog, row.symbol)
    case Some(j) =>
      var r := catalog[j := row];
      assert r[j] == row;
      assert forall e :: e in catalog && e.symbol != row.symbol ==> e in r by {
        forall e | e in catalog && e.symbol != row.symbol ensures e in r {
          var k :| 0 <= k < |catalog| && catalog[k] == e;
          assert r[k] == e;
        }
      }
      assert SymbolSet(r) == SymbolSet(catalog) + {row.symbol} by {
        forall s | s in SymbolSet(catalog) ensures s in SymbolSet(r) {
          var e :| e in catalog && e.symbol == s;
          if s != row.symbol { assert e in r; } else { assert row in r; }
        }
      }
      r
    case None =>
      var r := catalog + [row];
      assert Symbols(catalog) == Symbols(r)[..|catalog|];
      r
  }

  /** The dictionary after the loop has assigned every row in file order. */
  function Build(rows: seq<SymbolEntry>): (catalog: seq<SymbolEntry>)
    decreases |rows|
  {
    if rows == [] then [] else Assign(Build(rows[..|rows| - 1]), rows[|rows| - 1])
  }

  /** Row `i` is the last row of the file that names its symbol. */
  predicate LastFor(rows: seq<SymbolEntry>, i: int)
    requires 0 <= i < |rows|
  {
    forall j :: i < j < |rows| ==> rows[j].symbol != rows[i].symbol
  }

  /** The catalog has each symbol of the file exactly once. */
  lemma {:induction false} BuildSymbols(rows: seq<SymbolEntry>)
    ensures Distinct(Build(rows))
    ensures SymbolSet(Build(rows)) == set r | r in rows :: r.symbol
    decreases |rows|
  {
    if rows != [] {
      var init, last := rows[..|rows| - 1], rows[|rows| - 1];
      BuildSymbols(init);
      assert rows == init + [last];
    }
  }

  /** For each symbol the catalog holds the last row of the file that names
      it: a later duplicate overwrites an earlier one. */
  lemma {:induction false} BuildLastWins(rows: seq<SymbolEntry>, i: nat)
    requires i < |rows| && LastFor(rows, i)
    ensures rows[i] in Build(rows)
    decreases |rows|
  {
    var init := rows[..|rows| - 1];
    if i < |init| {
      assert LastFor(init, i);
      BuildLastWins(init, i);
    }
  }

  /** Loading more rows never moves a symbol: the symbols of a prefix of the
      file come first, in the same order (first-appearance order). */
  lemma {:induction false} BuildKeepsOrder(rows: seq<SymbolEntry>, p: nat)
    requires p <= |rows|
    ensures |Build(rows[..p])| <= |Build(rows)|
    ensures Symbols(Build(rows[..p])) == Symbols(Build(rows))[..|Build(rows[..p])|]
    decreases |rows| - p
  {
    if p < |rows| {
      var init := rows[..|rows| - 1];
      assert rows[..p] == init[..p];
      BuildKeepsOrder(init, p);
    } else {
      assert rows[..p] == rows;
    }
  }

  /** `load_dream_symbols`: the row loop over the file, or the empty catalog
      when the file is missing. */
  method LoadDreamSymbols(file: SymbolFile) returns (catalog: seq<SymbolEntry>)
    ensures file.Missing? ==> catalog == []
    ensures file.Rows? ==> catalog == Build(file.rows)
  {
    catalog := [];
    if file.Rows? {
      var rows := file.rows;
      for i := 0 to |rows|
        invariant catalog == Build(rows[..i])
      {
        assert rows[..i + 1][..i] == rows[..i];
        catalog := Assign(catalog, rows[i]);
      }
      assert rows[..|rows|] == rows;
    }
  }
}
