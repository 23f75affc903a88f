/**
 * The stock-management routes over their in-memory store: the filtered,
 * sorted and paginated listing, create, update, delete, toggle, the import
 * of the default stocks, and the per-market statistics. Record ids (the
 * source draws `uuid4` values) and clock readings are inputs.
 */
module StockRoutes {
  import opened Common
  import opened Sorting
  import opened StockModels
  import opened MarketStats

  const SymbolExists := "symbol already exists"
  const NoSuchStock := "stock not found"

  // ---------------------------------------------------------------------
  // The store
  // ---------------------------------------------------------------------

  /** `_stocks_data`: records by id, and the ids in insertion order (the
      order a dictionary gives its values in). */
  datatype StoreState = StoreState(stocks: map<string, Stock>, order: seq<string>)

  /** Each id is listed once, every listed id is stored, and every stored
      record sits under its own id. */
  predicate ValidState(st: StoreState)
  {
    (forall i :: 0 <= i < |st.order| ==> st.order[i] in st.stocks) &&
    (forall i, j :: 0 <= i < j < |st.order| ==> st.order[i] != st.order[j]) &&
    (forall k :: k in st.stocks ==> k in st.order && st.stocks[k].id == k)
  }

  /** `list(_stocks_data.values())` */
  function Values(stocks: map<string, Stock>, order: seq<string>): (r: seq<Stock>)
    requires forall i :: 0 <= i < |order| ==> order[i] in stocks
    ensures |r| == |order|
    ensures forall i :: 0 <= i < |order| ==> r[i] == stocks[order[i]]
  {
    if order == [] then [] else [stocks[order[0]]] + Values(stocks, order[1..])
  }

  function ValuesOf(st: StoreState): seq<Stock>
    requires ValidState(st)
  {
    Values(st.stocks, st.order)
  }

  /** The listing holds exactly the stored records. */
  lemma ValuesMembers(st: StoreState, s: Stock)
    requires ValidState(st)
    ensures s in ValuesOf(st) <==> exists k :: k in st.stocks && st.stocks[k] == s
  {
    var vs := ValuesOf(st);
    if s in vs {
      var i :| 0 <= i < |vs| && vs[i] == s;
      assert st.order[i] in st.stocks;
    }
    if exists k :: k in st.stocks && st.stocks[k] == s {
      var k :| k in st.stocks && st.stocks[k] == s;
      var i :| 0 <= i < |st.order| && st.order[i] == k;
      assert vs[i] == s;
    }
  }

  /** Some record listed in `order` has this symbol, looking at each in
      turn as the routes do. */
  predicate TakenIn(stocks: map<string, Stock>, order: seq<string>, symbol: string)
  {
    order != [] && ((order[0] in stocks && stocks[order[0]].symbol == symbol) || TakenIn(stocks, order[1..], symbol))
  }

  predicate SymbolTaken(st: StoreState, symbol: string)
  {
    TakenIn(st.stocks, st.order, symbol)
  }

  lemma {:induction false} TakenInIff(stocks: map<string, Stock>, order: seq<string>, symbol: string)
    ensures TakenIn(stocks, order, symbol) <==>
      exists i :: 0 <= i < |order| && order[i] in stocks && stocks[order[i]].symbol == symbol
  {
    if order != [] {
      TakenInIff(stocks, order[1..], symbol);
      if exists i :: 0 <= i < |order| && order[i] in stocks && stocks[order[i]].symbol == symbol {
        var i :| 0 <= i < |order| && order[i] in stocks && stocks[order[i]].symbol == symbol;
        if i > 0 {
          assert order[1..][i - 1] == order[i];
        }
      }
      if TakenIn(stocks, order[1..], symbol) {
        var i :| 0 <= i < |order[1..]| && order[1..][i] in stocks && stocks[order[1..][i]].symbol == symbol;
        assert order[i + 1] == order[1..][i];
      }
    }
  }

  /** In a valid store a symbol is taken exactly when some stored record
      has it. */
  lemma SymbolTakenIff(st: StoreState, symbol: string)
    requires ValidState(st)
    ensures SymbolTaken(st, symbol) <==> exists k :: k in st.stocks && st.stocks[k].symbol == symbol
  {
    TakenInIff(st.stocks, st.order, symbol);
    if exists k :: k in st.stocks && st.stocks[k].symbol == symbol {
      var k :| k in st.stocks && st.stocks[k].symbol == symbol;
      var i :| 0 <= i < |st.order| && st.order[i] == k;
    }
  }

  /** No two stored records share a symbol. */
  predicate UniqueSymbols(st: StoreState)
  {
    forall a, b :: a in st.stocks && b in st.stocks && a != b ==> st.stocks[a].symbol != st.stocks[b].symbol
  }

  /** `_stocks_data[stock.id] = stock` */
  function Stored(st: StoreState, s: Stock): StoreState
  {
    StoreState(st.stocks[s.id := s], if s.id in st.stocks then st.order else st.order + [s.id])
  }

  lemma StoredValid(st: StoreState, s: Stock)
    requires ValidState(st)
    ensures ValidState(Stored(st, s))
  {
  }

  // ---------------------------------------------------------------------
  // create_stock
  // ---------------------------------------------------------------------

  /** `create_stock` with the duplicate check made on the symbol as it will
      be stored. */
  function Created(st: StoreState, q: StockCreate, id: string, now: int): (Result<string>, StoreState)
  {
    if SymbolTaken(st, ValidateSymbol(q.symbol)) then (Err(400, SymbolExists), st)
    else (Ok(id), Stored(st, NewStock(id, q, None, now)))
  }

  /** The duplicate check as written compares stored symbols with the
      request's symbol upper-cased but not stripped. */
  predicate AcceptsAsWritten(st: StoreState, q: StockCreate)
  {
    !SymbolTaken(st, Upper(q.symbol))
  }

  /** A store holding a symbol accepts, as written, the same symbol with a
      space in front, and the record it then adds carries that symbol too. */
  lemma PaddedSymbolAccepted(v: string, first: Stock, q: StockCreate)
    requires ValidateSymbol(v) == v && first.symbol == v && q.symbol == " " + v
    ensures AcceptsAsWritten(Stored(StoreState(map[], []), first), q)
    ensures ValidateSymbol(q.symbol) == v
  {
    ValidateSymbolIdempotent(v);
    assert Upper(v) == v;
    assert Upper(q.symbol) == " " + v by {
      forall i | 0 <= i < |q.symbol| ensures Upper(q.symbol)[i] == (" " + v)[i] {
        if i > 0 {
          assert q.symbol[i] == v[i - 1] && Upper(v)[i - 1] == UpperChar(v[i - 1]);
        }
      }
    }
    assert |" " + v| != |v|;
    var st := Stored(StoreState(map[], []), first);
    assert st.order == [first.id] && st.order[1..] == [];
    assert st.stocks[first.id].symbol != Upper(q.symbol);
    assert !TakenIn(st.stocks, st.order[1..], Upper(q.symbol));
    assert !TakenIn(st.stocks, st.order, Upper(q.symbol));
    var u := Upper(q.symbol);
    assert u[1..] == v && IsSpace(u[0]);
    assert StripLeft(u) == StripLeft(v);
    assert Strip(u) == Strip(Upper(v));
  }

  /** A store holding `2330` accepts ` 2330` as written, whose record then
      carries the symbol `2330` a second time; the corrected create
      refuses it with 400. */
  lemma DuplicateSymbolAsWritten()
    ensures var first := NewStock("a", MinimalCreate("2330", "TSMC", Tse, Technology), None, 0);
      var st := Stored(StoreState(map[], []), first);
      var q := MinimalCreate(" 2330", "TSMC", Tse, Technology);
      AcceptsAsWritten(st, q) && NewStock("b", q, None, 0).symbol == first.symbol &&
      Created(st, q, "b", 0).0 == Err(400, SymbolExists)
  {
    NormalSymbol("2330");
    var first := NewStock("a", MinimalCreate("2330", "TSMC", Tse, Technology), None, 0);
    var q := MinimalCreate(" 2330", "TSMC", Tse, Technology);
    assert " 2330" == " " + "2330";
    PaddedSymbolAccepted("2330", first, q);
    var st := Stored(StoreState(map[], []), first);
    assert st.stocks["a"].symbol == ValidateSymbol(q.symbol);
  }

  /** The corrected create adds a record exactly when no stored record has
      the symbol it will store, under the id given, tracked and with the
      symbol normalised; it keeps the store valid. */
  lemma CreatedFacts(st: StoreState, q: StockCreate, id: string, now: int)
    requires ValidState(st)
    ensures var (r, st') := Created(st, q, id, now);
      ValidState(st') &&
      (r.Err? <==> SymbolTaken(st, ValidateSymbol(q.symbol))) &&
      (r.Err? ==> r.status == 400 && st' == st) &&
      (r.Ok? ==> r.value == id && st'.stocks == st.stocks[id := NewStock(id, q, None, now)])
  {
    StoredValid(st, NewStock(id, q, None, now));
  }

  /** The corrected create keeps stored symbols unique. */
  lemma CreatedKeepsUnique(st: StoreState, q: StockCreate, id: string, now: int)
    requires ValidState(st) && UniqueSymbols(st)
    ensures UniqueSymbols(Created(st, q, id, now).1)
  {
    var sym := ValidateSymbol(q.symbol);
    if !SymbolTaken(st, sym) {
      SymbolTakenIff(st, sym);
      var s := NewStock(id, q, None, now);
      var st' := Stored(st, s);
      forall a, b | a in st'.stocks && b in st'.stocks && a != b
        ensures st'.stocks[a].symbol != st'.stocks[b].symbol
      {
        if a != id && b != id {
          assert st'.stocks[a] == st.stocks[a] && st'.stocks[b] == st.stocks[b];
        } else if a == id {
          assert st'.stocks[b] == st.stocks[b];
        } else {
          assert st'.stocks[a] == st.stocks[a];
        }
      }
    }
  }

  // ---------------------------------------------------------------------
  // update_stock, delete_stock, toggle_stock_active
  // ---------------------------------------------------------------------

  function Updated(st: StoreState, id: string, u: StockUpdate, now: int): (Result<Stock>, StoreState)
  {
    if id !in st.stocks then (Err(404, NoSuchStock), st)
    else
      var s := ApplyUpdate(st.stocks[id], u, now);
      (Ok(s), StoreState(st.stocks[id := s], st.order))
  }

  function Deleted(st: StoreState, id: string): (Result<string>, StoreState)
  {
    if id !in st.stocks then (Err(404, NoSuchStock), st)
    else (Ok(st.stocks[id].name), StoreState(st.stocks - {id}, Without(st.order, id)))
  }

  function Toggled(st: StoreState, id: string, now: int): (Result<bool>, StoreState)
  {
    if id !in st.stocks then (Err(404, NoSuchStock), st)
    else
      var s := st.stocks[id];
      var t := s.(isActive := !s.isActive, updatedAt := now);
      (Ok(t.isActive), StoreState(st.stocks[id := t], st.order))
  }

  /** An unknown id is 404 and changes nothing; otherwise only that record
      changes, keeping its id and symbol, so the store stays valid and
      symbols stay unique. */
  lemma UpdatedFacts(st: StoreState, id: string, u: StockUpdate, now: int)
    requires ValidState(st)
    ensures var (r, st') := Updated(st, id, u, now);
      ValidState(st') && (UniqueSymbols(st) ==> UniqueSymbols(st')) &&
      (r.Err? <==> id !in st.stocks) && (r.Err? ==> r.status == 404 && st' == st) &&
      (r.Ok? ==> st'.stocks == st.stocks[id := ApplyUpdate(st.stocks[id], u, now)] && st'.order == st.order)
  {
    if id in st.stocks {
      ApplyUpdateFacts(st.stocks[id], u, now);
    }
  }

  /** The list with every occurrence of `x` left out, in order. */
  function Without(s: seq<string>, x: string): (r: seq<string>)
    ensures forall y :: y in r <==> y in s && y != x
  {
    if s == [] then []
    else if s[0] == x then Without(s[1..], x)
    else
      assert forall y :: y in s <==> y == s[0] || y in s[1..];
      [s[0]] + Without(s[1..], x)
  }

  /** Leaving an element out of a list of distinct elements keeps them
      distinct. */
  lemma {:induction false} WithoutDistinct(s: seq<string>, x: string)
    requires Distinct(s)
    ensures Distinct(Without(s, x))
  {
    if s != [] {
      var tail := s[1..];
      assert forall a, b :: 0 <= a < b < |tail| ==> tail[a] == s[a + 1] && tail[b] == s[b + 1];
      WithoutDistinct(tail, x);
      var rest := Without(tail, x);
      if s[0] != x {
        assert s[0] !in tail by {
          forall m | 0 <= m < |tail| ensures tail[m] != s[0] {
            assert tail[m] == s[m + 1];
          }
        }
        var r := [s[0]] + rest;
        assert Without(s, x) == r;
        forall a, b | 0 <= a < b < |r| ensures r[a] != r[b] {
          if a == 0 {
            assert r[b] == rest[b - 1] && rest[b - 1] in rest;
            assert rest[b - 1] in tail;
          } else {
            assert r[a] == rest[a - 1] && r[b] == rest[b - 1];
          }
        }
      } else {
        assert Without(s, x) == rest;
      }
    }
  }

  /** Deleting removes exactly that id, from the records and from the
      order, and leaves every other record as it was; an unknown id is 404
      and changes nothing. */
  lemma DeletedFacts(st: StoreState, id: string)
    requires ValidState(st)
    ensures var (r, st') := Deleted(st, id);
      ValidState(st') && (UniqueSymbols(st) ==> UniqueSymbols(st')) &&
      (r.Err? <==> id !in st.stocks) && (r.Err? ==> r.status == 404 && st' == st) &&
      (r.Ok? ==> r.value == st.stocks[id].name && st'.stocks.Keys == st.stocks.Keys - {id} && id !in st'.order &&
                 forall k :: k in st'.stocks ==> st'.stocks[k] == st.stocks[k])
  {
    if id in st.stocks {
      WithoutDistinct(st.order, id);
      var order' := Without(st.order, id);
      assert forall i :: 0 <= i < |order'| ==> order'[i] in order';
    }
  }

  /** Toggling flips that record's tracking flag and its update time only,
      and reports the new flag; toggling twice restores the flag. */
  lemma ToggledFacts(st: StoreState, id: string, now: int, later: int)
    requires ValidState(st)
    ensures var (r, st') := Toggled(st, id, now);
      ValidState(st') && (UniqueSymbols(st) ==> UniqueSymbols(st')) &&
      (r.Err? <==> id !in st.stocks) && (r.Err? ==> r.status == 404 && st' == st) &&
      (r.Ok? ==> r.value == !st.stocks[id].isActive && st'.order == st.order &&
                 st'.stocks == st.stocks[id := st.stocks[id].(isActive := r.value, updatedAt := now)])
    ensures id in st.stocks ==>
      Toggled(Toggled(st, id, now).1, id, later).1.stocks == st.stocks[id := st.stocks[id].(updatedAt := later)]
  {
  }

  // ---------------------------------------------------------------------
  // import_stocks_data
  // ---------------------------------------------------------------------

  /** The three stocks the import offers, each with its market value. */
  const DefaultStocks: seq<(StockCreate, real)> := [
    (StockCreate("2330", "台積電", Tse, Technology, Some("半導體"), Some("全球最大的晶圓代工製造商"), None,
                 ["藍籌股", "半導體", "台股"], None), 15000000.0),
    (StockCreate("2317", "鴻海", Tse, Electronics, Some("電子製造服務"), Some("全球最大的電子製造服務商"), None,
                 ["代工", "電子製造", "蘋果供應鏈"], None), 2100000.0),
    (StockCreate("2454", "聯發科", Tse, Technology, Some("半導體"), Some("全球手機晶片主要供應商"), None,
                 ["IC設計", "手機晶片", "5G"], None), 900000.0)]

  /** What one default stock brings to the import: the symbol it is looked
      up under, as written in the list, and the record stored when that
      symbol is free. */
  datatype ImportItem = ImportItem(symbol: string, stock: Stock)

  /** The list to import as items; the `k`-th stock, if added, takes the
      `k`-th id. */
  function ImportItems(defaults: seq<(StockCreate, real)>, ids: seq<string>, now: int): (r: seq<ImportItem>)
    requires |ids| == |defaults|
    ensures |r| == |defaults|
    ensures forall k :: 0 <= k < |r| ==>
      r[k] == ImportItem(defaults[k].0.symbol, NewStock(ids[k], defaults[k].0, Some(defaults[k].1), now))
  {
    seq(|defaults|, k requires 0 <= k < |defaults| =>
      ImportItem(defaults[k].0.symbol, NewStock(ids[k], defaults[k].0, Some(defaults[k].1), now)))
  }

  /** One step of the import: add the stock unless its symbol is taken. */
  function ImportOne(st: StoreState, count: nat, item: ImportItem): (StoreState, nat)
  {
    if SymbolTaken(st, item.symbol) then (st, count) else (Stored(st, item.stock), count + 1)
  }

  /** The store and the count after the first `n` items. */
  function ImportedUpTo(st: StoreState, items: seq<ImportItem>, n: nat): (StoreState, nat)
    requires n <= |items|
  {
    if n == 0 then (st, 0)
    else
      var prev := ImportedUpTo(st, items, n - 1);
      ImportOne(prev.0, prev.1, items[n - 1])
  }

  /** `import_stocks_data`: the default stocks, in order. */
  function Imported(st: StoreState, ids: seq<string>, now: int): (StoreState, nat)
    requires |ids| == |DefaultStocks|
  {
    ImportedUpTo(st, ImportItems(DefaultStocks, ids, now), |DefaultStocks|)
  }

  /** Every item's record carries the symbol it is looked up under. */
  predicate NormalSymbols(items: seq<ImportItem>)
  {
    forall k :: 0 <= k < |items| ==> items[k].stock.symbol == items[k].symbol
  }

  /** No item's id is stored yet, and no two items share one. */
  predicate FreshIds(st: StoreState, items: seq<ImportItem>)
  {
    (forall k :: 0 <= k < |items| ==> items[k].stock.id !in st.stocks) &&
    (forall i, j :: 0 <= i < j < |items| ==> items[i].stock.id != items[j].stock.id)
  }

  /** Every symbol of the list is already in stored form. */
  predicate StoredForms(defaults: seq<(StockCreate, real)>)
  {
    forall k :: 0 <= k < |defaults| ==> ValidateSymbol(defaults[k].0.symbol) == defaults[k].0.symbol
  }

  /** The default stocks' symbols are already in stored form. */
  lemma DefaultStoredForms()
    ensures StoredForms(DefaultStocks)
  {
    forall k | 0 <= k < |DefaultStocks|
      ensures ValidateSymbol(DefaultStocks[k].0.symbol) == DefaultStocks[k].0.symbol
    {
      NormalSymbol(DefaultStocks[k].0.symbol);
    }
  }

  /** A list in stored form with fresh, distinct ids makes fresh items
      whose records carry the symbols they are looked up under. */
  lemma ItemsFacts(st: StoreState, defaults: seq<(StockCreate, real)>, ids: seq<string>, now: int)
    requires |ids| == |defaults| && StoredForms(defaults)
    requires forall k :: 0 <= k < |ids| ==> ids[k] !in st.stocks
    requires Distinct(ids)
    ensures NormalSymbols(ImportItems(defaults, ids, now))
    ensures FreshIds(st, ImportItems(defaults, ids, now))
  {
  }

  /** Importing keeps the store valid and counts at most one per stock. */
  lemma {:induction false} ImportedValid(st: StoreState, items: seq<ImportItem>, n: nat)
    requires ValidState(st) && n <= |items|
    requires forall k :: 0 <= k < |items| ==> items[k].stock.id !in st.stocks
    ensures ValidState(ImportedUpTo(st, items, n).0)
    ensures ImportedUpTo(st, items, n).1 <= n
  {
    if n > 0 {
      ImportedValid(st, items, n - 1);
      var prev := ImportedUpTo(st, items, n - 1);
      if !SymbolTaken(prev.0, items[n - 1].symbol) {
        StoredValid(prev.0, items[n - 1].stock);
      }
    }
  }

  /** Importing stores nothing under an id that is neither stored before
      nor an item's. */
  lemma {:induction false} ImportedAvoids(st: StoreState, items: seq<ImportItem>, n: nat, key: string)
    requires n <= |items| && key !in st.stocks
    requires forall k :: 0 <= k < n ==> items[k].stock.id != key
    ensures key !in ImportedUpTo(st, items, n).0.stocks
  {
    if n > 0 {
      ImportedAvoids(st, items, n - 1, key);
    }
  }

  /** The `n`-th item's id is fresh for the store the first `n` steps
      leave. */
  lemma ImportedIdFresh(st: StoreState, items: seq<ImportItem>, n: nat)
    requires FreshIds(st, items) && n < |items|
    ensures items[n].stock.id !in ImportedUpTo(st, items, n).0.stocks
  {
    ImportedAvoids(st, items, n, items[n].stock.id);
  }

  /** Adding a record under a fresh id keeps every taken symbol taken and
      takes the record's own. */
  lemma StoredTakes(st: StoreState, s: Stock, sym: string)
    requires ValidState(st) && s.id !in st.stocks
    ensures SymbolTaken(Stored(st, s), sym) <==> SymbolTaken(st, sym) || s.symbol == sym
  {
    var st' := Stored(st, s);
    StoredValid(st, s);
    SymbolTakenIff(st, sym);
    SymbolTakenIff(st', sym);
    if SymbolTaken(st, sym) {
      var k :| k in st.stocks && st.stocks[k].symbol == sym;
      assert st'.stocks[k] == st.stocks[k];
    }
    if s.symbol == sym {
      assert st'.stocks[s.id] == s;
    }
    if SymbolTaken(st', sym) && s.symbol != sym {
      var k :| k in st'.stocks && st'.stocks[k].symbol == sym;
      assert k != s.id && st'.stocks[k] == st.stocks[k];
    }
  }

  /** A step of the import with a fresh id keeps every taken symbol taken,
      and takes the item's own symbol when its record carries it. */
  lemma ImportOneTakes(st: StoreState, count: nat, item: ImportItem, sym: string)
    requires ValidState(st) && item.stock.id !in st.stocks
    requires SymbolTaken(st, sym) || (sym == item.symbol && item.stock.symbol == item.symbol)
    ensures SymbolTaken(ImportOne(st, count, item).0, sym)
  {
    if !SymbolTaken(st, item.symbol) {
      StoredTakes(st, item.stock, sym);
    }
  }

  /** Importing fresh items keeps what the store or the first `m` steps
      took. */
  lemma {:induction false} ImportedLaterKeeps(st: StoreState, items: seq<ImportItem>, m: nat, n: nat, sym: string)
    requires ValidState(st) && FreshIds(st, items) && m <= n <= |items|
    requires SymbolTaken(ImportedUpTo(st, items, m).0, sym)
    ensures SymbolTaken(ImportedUpTo(st, items, n).0, sym)
  {
    if n > m {
      var prev := ImportedUpTo(st, items, n - 1);
      assert SymbolTaken(prev.0, sym) by {
        ImportedLaterKeeps(st, items, m, n - 1, sym);
      }
      assert ValidState(prev.0) && items[n - 1].stock.id !in prev.0.stocks by {
        ImportedValid(st, items, n - 1);
        ImportedIdFresh(st, items, n - 1);
      }
      ImportOneTakes(prev.0, prev.1, items[n - 1], sym);
    }
  }

  /** Importing fresh items leaves every item's symbol stored. */
  lemma ImportedTakesItems(st: StoreState, items: seq<ImportItem>, n: nat, k: int)
    requires ValidState(st) && FreshIds(st, items) && NormalSymbols(items)
    requires 0 <= k < n <= |items|
    ensures SymbolTaken(ImportedUpTo(st, items, n).0, items[k].symbol)
  {
    var prev := ImportedUpTo(st, items, k);
    assert ValidState(prev.0) && items[k].stock.id !in prev.0.stocks by {
      ImportedValid(st, items, k);
      ImportedIdFresh(st, items, k);
    }
    ImportOneTakes(prev.0, prev.1, items[k], items[k].symbol);
    ImportedLaterKeeps(st, items, k + 1, n, items[k].symbol);
  }

  /** Importing twice adds nothing the second time, whatever ids the second
      import draws. */
  lemma ImportIdempotent(st: StoreState, ids: seq<string>, ids2: seq<string>, now: int, later: int)
    requires ValidState(st) && |ids| == |DefaultStocks| && |ids2| == |DefaultStocks|
    requires forall k :: 0 <= k < |ids| ==> ids[k] !in st.stocks
    requires Distinct(ids)
    ensures var st' := Imported(st, ids, now).0;
      Imported(st', ids2, later) == (st', 0)
  {
    var items := ImportItems(DefaultStocks, ids, now);
    var items2 := ImportItems(DefaultStocks, ids2, later);
    DefaultStoredForms();
    ItemsFacts(st, DefaultStocks, ids, now);
    var st' := Imported(st, ids, now).0;
    forall k | 0 <= k < |items2| ensures SymbolTaken(st', items2[k].symbol) {
      ImportedTakesItems(st, items, |items|, k);
    }
    AllTakenImportsNothing(st', items2, |items2|);
  }

  /** With every item's symbol stored the import changes nothing. */
  lemma {:induction false} AllTakenImportsNothing(st: StoreState, items: seq<ImportItem>, n: nat)
    requires n <= |items|
    requires forall k :: 0 <= k < |items| ==> SymbolTaken(st, items[k].symbol)
    ensures ImportedUpTo(st, items, n) == (st, 0)
  {
    if n > 0 {
      AllTakenImportsNothing(st, items, n - 1);
    }
  }

  // ---------------------------------------------------------------------
  // get_stocks_list
  // ---------------------------------------------------------------------

  /** The listing's query; FastAPI answers 422 when a bound fails. */
  datatype ListQuery = ListQuery(
    page: int, pageSize: int, search: Option<string>, market: Option<MarketType>,
    category: Option<StockCategory>, isActive: Option<bool>, sortBy: string, desc: bool)

  const DefaultListQuery := ListQuery(1, 50, None, None, None, None, "symbol", false)

  datatype StockPage =
    | StockPage(data: seq<Stock>, count: nat, page: int, pageSize: int, totalPages: int, hasNext: bool, hasPrev: bool)
    | Unprocessable

  /** Every filter the query gives is met; the search is a
      case-insensitive part of the symbol or of the name. */
  predicate Matches(q: ListQuery, s: Stock)
  {
    (q.search.None? || q.search.value == "" ||
     Contains(Lower(s.symbol), Lower(q.search.value)) || Contains(Lower(s.name), Lower(q.search.value))) &&
    (q.market.None? || s.market == q.market.value) &&
    (q.category.None? || s.category == q.category.value) &&
    (q.isActive.None? || s.isActive == q.isActive.value)
  }

  function SymbolKey(s: Stock): SortKey { Text(s.symbol) }
  function NameKey(s: Stock): SortKey { Text(s.name) }
  function CreatedKey(s: Stock): SortKey { Num(s.createdAt as real) }
  function UpdatedKey(s: Stock): SortKey { Num(s.updatedAt as real) }

  function SortedStocks(ss: seq<Stock>, sortBy: string, desc: bool): seq<Stock>
  {
    if sortBy == "symbol" then SortBy(ss, SymbolKey, desc)
    else if sortBy == "name" then SortBy(ss, NameKey, desc)
    else if sortBy == "created_at" then SortBy(ss, CreatedKey, desc)
    else if sortBy == "updated_at" then SortBy(ss, UpdatedKey, desc)
    else ss
  }

  /** The matching records in listing order. */
  function Selected(st: StoreState, q: ListQuery): seq<Stock>
    requires ValidState(st)
  {
    Filter(ValuesOf(st), s => Matches(q, s))
  }

  /** `get_stocks_list` */
  function StocksList(st: StoreState, q: ListQuery): StockPage
    requires ValidState(st)
  {
    if q.page < 1 || q.pageSize < 1 || q.pageSize > 200 then Unprocessable
    else
      PageOf(SortedStocks(Selected(st, q), q.sortBy, q.desc), q.page, q.pageSize)
  }

  /** The answer for one page of a sorted listing. */
  function PageOf(listed: seq<Stock>, page: int, size: int): StockPage
    requires size >= 1
  {
    var data := PageData(listed, page, size);
    var totalPages := CeilDiv(|listed|, size);
    StockPage(data, |data|, page, size, totalPages, page < totalPages, page > 1)
  }

  /** `listed[(page - 1) * size:(page - 1) * size + size]` */
  function PageData<T>(listed: seq<T>, page: int, size: int): seq<T>
  {
    var start := ListStart(page, size);
    PySlice(listed, start, start + size)
  }

  /** `(page - 1) * page_size` */
  function ListStart(page: int, size: int): (start: int)
    ensures page >= 1 && size >= 0 ==> start >= 0
  {
    NonNegativeProduct(page - 1, size);
    (page - 1) * size
  }

  lemma NonNegativeProduct(a: int, b: int)
    ensures a >= 0 && b >= 0 ==> a * b >= 0
  {
  }

  /** The listing answers 422 exactly when the page is below 1 or the
      page size outside 1..200. */
  lemma StocksListRejects(st: StoreState, q: ListQuery)
    requires ValidState(st)
    ensures StocksList(st, q).Unprocessable? <==> q.page < 1 || q.pageSize < 1 || q.pageSize > 200
  {
  }

  /** Sorting keeps the records and orders them by the field asked for. */
  lemma SortedStocksFacts(ss: seq<Stock>, sortBy: string, desc: bool)
    ensures multiset(SortedStocks(ss, sortBy, desc)) == multiset(ss)
    ensures forall s :: s in SortedStocks(ss, sortBy, desc) <==> s in ss
    ensures sortBy == "symbol" ==> SortedBy(SortedStocks(ss, sortBy, desc), SymbolKey, desc)
    ensures sortBy == "name" ==> SortedBy(SortedStocks(ss, sortBy, desc), NameKey, desc)
    ensures sortBy == "created_at" ==> SortedBy(SortedStocks(ss, sortBy, desc), CreatedKey, desc)
    ensures sortBy == "updated_at" ==> SortedBy(SortedStocks(ss, sortBy, desc), UpdatedKey, desc)
    ensures sortBy !in ["symbol", "name", "created_at", "updated_at"] ==> SortedStocks(ss, sortBy, desc) == ss
  {
    var r := SortedStocks(ss, sortBy, desc);
    forall s ensures s in r <==> s in ss {
      assert s in r <==> s in multiset(r);
      assert s in ss <==> s in multiset(ss);
    }
  }

  /** A listed record is a stored record meeting every filter, and every
      such record is on some page. */
  lemma StocksListMembers(st: StoreState, q: ListQuery, s: Stock)
    requires ValidState(st)
    ensures s in SortedStocks(Selected(st, q), q.sortBy, q.desc) <==>
      Matches(q, s) && exists k :: k in st.stocks && st.stocks[k] == s
    ensures var r := StocksList(st, q);
      r.StockPage? && s in r.data ==> Matches(q, s) && exists k :: k in st.stocks && st.stocks[k] == s
  {
    var listed := SortedStocks(Selected(st, q), q.sortBy, q.desc);
    SortedStocksFacts(Selected(st, q), q.sortBy, q.desc);
    FilterMembers(ValuesOf(st), s => Matches(q, s));
    ValuesMembers(st, s);
    if q.page >= 1 && q.pageSize >= 1 {
      PageMembers(listed, q.page, q.pageSize);
    }
  }

  /** A page holds elements of the listing. */
  lemma PageMembers<T>(listed: seq<T>, page: int, size: int)
    requires page >= 1 && size >= 1
    ensures forall x :: x in PageData(listed, page, size) ==> x in listed
  {
    PySliceOfNonNegative(listed, ListStart(page, size), size);
  }

  /** A page is the slice [(page-1)*size, page*size) of the listing, cut at
      its end. */
  lemma PageSlice<T>(listed: seq<T>, page: int, size: int)
    requires page >= 1 && size >= 1
    ensures var data := PageData(listed, page, size);
      var start := (page - 1) * size;
      |data| <= size &&
      (start + size <= |listed| ==> data == listed[start..start + size]) &&
      (start <= |listed| < start + size ==> data == listed[start..]) &&
      (start > |listed| ==> data == [])
  {
    PySliceOfNonNegative(listed, ListStart(page, size), size);
  }

  /** A listing of `|listed|` items has ceil(|listed|/size) pages, none when
      it is empty, and every page before the last is full. */
  lemma PageCount<T>(listed: seq<T>, page: int, size: int)
    requires page >= 1 && size >= 1
    ensures var pages := CeilDiv(|listed|, size);
      pages * size >= |listed| > (pages - 1) * size &&
      (|listed| == 0 <==> pages == 0) &&
      (page < pages ==> |PageData(listed, page, size)| == size)
  {
    var n := CeilDiv(|listed|, size);
    PageSlice(listed, page, size);
    if page < n {
      PageBeforeLastIsFull(page, size, n, |listed|);
    }
    PagesOfNothing(|listed|, size);
  }

  /** The page is the requested page of the listing and the count its
      length; there are ceil(total/size) pages, none when the listing is
      empty; a next page exists exactly before the last, a previous one
      exactly after the first, and every page before the last is full. */
  lemma PageOfFacts(listed: seq<Stock>, page: int, size: int)
    requires page >= 1 && size >= 1
    ensures var r := PageOf(listed, page, size);
      var total := |listed|;
      r.StockPage? && r.data == PageData(listed, page, size) && r.count == |r.data| &&
      r.totalPages * size >= total > (r.totalPages - 1) * size &&
      (total == 0 <==> r.totalPages == 0) &&
      (r.hasNext <==> page < r.totalPages) && (r.hasPrev <==> page > 1) &&
      (page < r.totalPages ==> |r.data| == size)
  {
    PageCount(listed, page, size);
  }

  lemma PagesOfNothing(total: nat, size: int)
    requires size >= 1
    ensures total == 0 <==> CeilDiv(total, size) == 0
  {
    var n := CeilDiv(total, size);
    assert size * (n - 1) < total <= size * n;
    if n >= 1 {
      assert size * n >= size;
    }
  }

  lemma PageBeforeLastIsFull(page: int, size: int, pages: int, total: int)
    requires 1 <= page <= pages - 1 && size >= 1 && size * (pages - 1) < total
    ensures (page - 1) * size + size <= total
  {
    assert (page - 1) * size + size == page * size;
    assert page * size <= (pages - 1) * size;
  }

  // ---------------------------------------------------------------------
  // get_market_statistics
  // ---------------------------------------------------------------------

  /** What a stock contributes to the statistics. The source keys them by
      `stock.market.value` and `stock.category.value`, which are one-to-one
      with the enumerations. */
  function EntryOf(s: Stock): Entry<MarketType, StockCategory>
  {
    Entry(s.market, s.category, s.isActive)
  }

  function Entries(ss: seq<Stock>): (r: seq<Entry<MarketType, StockCategory>>)
    ensures |r| == |ss| && forall i :: 0 <= i < |ss| ==> r[i] == EntryOf(ss[i])
  {
    seq(|ss|, i requires 0 <= i < |ss| => EntryOf(ss[i]))
  }

  /** `market_stats` for the stored records. */
  function MarketStatsOf(st: StoreState): map<MarketType, MarketStat<StockCategory>>
    requires ValidState(st)
  {
    Tally(Entries(ValuesOf(st)))
  }

  /** Every category once: the categories of a market's entry add up to its
      count, and it has no more tracked stocks than stocks. */
  lemma MarketStatsSums(st: StoreState, m: MarketType)
    requires ValidState(st) && m in MarketStatsOf(st)
    ensures MarketStatsOf(st)[m].activeCount <= MarketStatsOf(st)[m].count
    ensures CategorySum(MarketStatsOf(st)[m].categories, AllCategories) == MarketStatsOf(st)[m].count
  {
    CategoriesOnce();
    TallySums(Entries(ValuesOf(st)), m, AllCategories);
  }

  /** The category list names each category once. */
  lemma CategoriesOnce()
    ensures EveryCategoryOnce(AllCategories)
  {
    forall c: StockCategory ensures c in AllCategories {
      AllCategoriesListed(c);
    }
    AllCategoriesListed(OtherCategory);
  }

  /** What the markets' statistics report holds. */
  datatype MarketStatistics = MarketStatistics(stats: map<MarketType, MarketStat<StockCategory>>, totalMarkets: nat)

  // ---------------------------------------------------------------------
  // The routes over the store
  // ---------------------------------------------------------------------

  class StockStore {
    var stocks: map<string, Stock>
    var order: seq<string>

    function State(): StoreState
      reads this
    {
      StoreState(stocks, order)
    }

    ghost predicate Valid()
      reads this
    {
      ValidState(State())
    }

    /** An empty store. */
    constructor ()
      ensures State() == StoreState(map[], []) && Valid()
    {
      stocks := map[];
      order := [];
    }

    /** Whether a stored record has the symbol, looking at each in turn. */
    method HasSymbol(symbol: string) returns (found: bool)
      requires Valid()
      ensures found <==> SymbolTaken(State(), symbol)
    {
      for i := 0 to |order|
        invariant TakenIn(stocks, order, symbol) == TakenIn(stocks, order[i..], symbol)
      {
        assert order[i..][1..] == order[i + 1..];
        if stocks[order[i]].symbol == symbol {
          return true;
        }
      }
      found := false;
    }

    method CreateStock(q: StockCreate, id: string, now: int) returns (r: Result<string>)
      requires Valid()
      modifies this
      ensures (r, State()) == Created(old(State()), q, id, now)
    {
      var taken := HasSymbol(ValidateSymbol(q.symbol));
      if taken {
        return Err(400, SymbolExists);
      }
      var s := NewStock(id, q, None, now);
      ghost var before := State();
      assert Created(before, q, id, now) == (Ok(id), Stored(before, s));
      if id !in stocks {
        order := order + [id];
      }
      stocks := stocks[id := s];
      r := Ok(id);
      assert State() == Stored(before, s);
    }

    method UpdateStock(id: string, u: StockUpdate, now: int) returns (r: Result<Stock>)
      modifies this
      ensures (r, State()) == Updated(old(State()), id, u, now)
    {
      if id !in stocks {
        return Err(404, NoSuchStock);
      }
      var s := ApplyUpdate(stocks[id], u, now);
      stocks := stocks[id := s];
      r := Ok(s);
    }

    method DeleteStock(id: string) returns (r: Result<string>)
      modifies this
      ensures (r, State()) == Deleted(old(State()), id)
    {
      if id !in stocks {
        return Err(404, NoSuchStock);
      }
      var name := stocks[id].name;
      stocks := stocks - {id};
      order := Without(order, id);
      r := Ok(name);
    }

    method ToggleStockActive(id: string, now: int) returns (r: Result<bool>)
      modifies this
      ensures (r, State()) == Toggled(old(State()), id, now)
    {
      if id !in stocks {
        return Err(404, NoSuchStock);
      }
      var s := stocks[id];
      s := s.(isActive := !s.isActive);
      s := s.(updatedAt := now);
      stocks := stocks[id := s];
      r := Ok(s.isActive);
    }

    /** `import_stocks_data`: each default stock in turn, unless its
        symbol is already stored. */
    method ImportStocksData(ids: seq<string>, now: int) returns (count: nat)
      requires Valid() && |ids| == |DefaultStocks|
      modifies this
      ensures (State(), count) == Imported(old(State()), ids, now)
    {
      var items := ImportItems(DefaultStocks, ids, now);
      count := ImportAll(items);
    }

    /** The import's loop: each item's record is added under its id unless
        the item's symbol is already stored. */
    method ImportAll(items: seq<ImportItem>) returns (count: nat)
      requires Valid()
      modifies this
      ensures (State(), count) == ImportedUpTo(old(State()), items, |items|)
    {
      count := 0;
      for k := 0 to |items|
        invariant (State(), count) == ImportedUpTo(old(State()), items, k)
        invariant Valid()
      {
        var item := items[k];
        var present := HasSymbol(item.symbol);
        if !present {
          var s := item.stock;
          StoredValid(State(), s);
          if s.id !in stocks {
            order := order + [s.id];
          }
          stocks := stocks[s.id := s];
          count := count + 1;
        }
      }
    }

    /** `get_stocks_list` on the current records. */
    function ListStocks(q: ListQuery): StockPage
      requires Valid()
      reads this
    {
      StocksList(State(), q)
    }

    method GetMarketStatistics() returns (r: MarketStatistics)
      requires Valid()
      ensures r.stats == MarketStatsOf(State()) && r.totalMarkets == |r.stats|
    {
      var vs := Values(stocks, order);
      ghost var es := Entries(vs);
      var stats: map<MarketType, MarketStat<StockCategory>> := map[];
      for i := 0 to |vs|
        invariant stats == Tally(es[..i])
      {
        TallyStep(es, i);
        stats := CountStock(stats, EntryOf(vs[i]));
      }
      assert es[..|vs|] == es;
      r := MarketStatistics(stats, |stats|);
    }
  }
}
