/**
 * The stock-analysis data model: the closed enumerations, the basic stock
 * record with its symbol normalisation and defaults, the create and update
 * requests, and a transaction's net amount.
 */
module StockModels {
  import opened Common

  // ---------------------------------------------------------------------
  // Enumerations, each with the text value it is written as
  // ---------------------------------------------------------------------

  datatype MarketType = Tse | Otc | Emerging | Us | Hk | OtherMarket

  function MarketValue(m: MarketType): string
  {
    match m
    case Tse => "tse"
    case Otc => "otc"
    case Emerging => "emerging"
    case Us => "us"
    case Hk => "hk"
    case OtherMarket => "other"
  }

  /** `MarketType(v)`: `None` where the enumeration raises. */
  function MarketFrom(v: string): (r: Option<MarketType>)
    ensures r.Some? ==> MarketValue(r.value) == v
  {
    if v == "tse" then Some(Tse)
    else if v == "otc" then Some(Otc)
    else if v == "emerging" then Some(Emerging)
    else if v == "us" then Some(Us)
    else if v == "hk" then Some(Hk)
    else if v == "other" then Some(OtherMarket)
    else None
  }

  /** Every market reads back from its value, so the values tell the
      markets apart; text that is no value reads as no market. */
  lemma MarketRoundTrip(m: MarketType)
    ensures MarketFrom(MarketValue(m)) == Some(m)
  {
  }

  datatype StockCategory =
    Technology | Finance | Traditional | Biotech | Electronics | Energy | Construction | Food | Textile | Chemical | OtherCategory

  /** Every category, in declaration order. */
  const AllCategories: seq<StockCategory> :=
    [Technology, Finance, Traditional, Biotech, Electronics, Energy, Construction, Food, Textile, Chemical, OtherCategory]

  function CategoryValue(c: StockCategory): string
  {
    match c
    case Technology => "technology"
    case Finance => "finance"
    case Traditional => "traditional"
    case Biotech => "biotech"
    case Electronics => "electronics"
    case Energy => "energy"
    case Construction => "construction"
    case Food => "food"
    case Textile => "textile"
    case Chemical => "chemical"
    case OtherCategory => "other"
  }

  function CategoryFrom(v: string): (r: Option<StockCategory>)
    ensures r.Some? ==> CategoryValue(r.value) == v
  {
    if v == "technology" then Some(Technology)
    else if v == "finance" then Some(Finance)
    else if v == "traditional" then Some(Traditional)
    else if v == "biotech" then Some(Biotech)
    else if v == "electronics" then Some(Electronics)
    else if v == "energy" then Some(Energy)
    else if v == "construction" then Some(Construction)
    else if v == "food" then Some(Food)
    else if v == "textile" then Some(Textile)
    else if v == "chemical" then Some(Chemical)
    else if v == "other" then Some(OtherCategory)
    else None
  }

  lemma CategoryRoundTrip(c: StockCategory)
    ensures CategoryFrom(CategoryValue(c)) == Some(c)
  {
  }

  /** The category list names each category exactly once. */
  lemma AllCategoriesListed(c: StockCategory)
    ensures c in AllCategories
    ensures forall i, j :: 0 <= i < j < |AllCategories| ==> AllCategories[i] != AllCategories[j]
  {
  }

  datatype TransactionType = Buy | Sell | Dividend | ShareSplit | ShareMerge

  function TransactionValue(t: TransactionType): string
  {
    match t
    case Buy => "buy"
    case Sell => "sell"
    case Dividend => "dividend"
    case ShareSplit => "split"
    case ShareMerge => "merge"
  }

  function TransactionFrom(v: string): (r: Option<TransactionType>)
    ensures r.Some? ==> TransactionValue(r.value) == v
  {
    if v == "buy" then Some(Buy)
    else if v == "sell" then Some(Sell)
    else if v == "dividend" then Some(Dividend)
    else if v == "split" then Some(ShareSplit)
    else if v == "merge" then Some(ShareMerge)
    else None
  }

  lemma TransactionRoundTrip(t: TransactionType)
    ensures TransactionFrom(TransactionValue(t)) == Some(t)
  {
  }

  datatype AnalysisType = Technical | Fundamental | News | Sentiment

  function AnalysisValue(a: AnalysisType): string
  {
    match a
    case Technical => "technical"
    case Fundamental => "fundamental"
    case News => "news"
    case Sentiment => "sentiment"
  }

  function AnalysisFrom(v: string): (r: Option<AnalysisType>)
    ensures r.Some? ==> AnalysisValue(r.value) == v
  {
    if v == "technical" then Some(Technical)
    else if v == "fundamental" then Some(Fundamental)
    else if v == "news" then Some(News)
    else if v == "sentiment" then Some(Sentiment)
    else None
  }

  lemma AnalysisRoundTrip(a: AnalysisType)
    ensures AnalysisFrom(AnalysisValue(a)) == Some(a)
  {
  }

  datatype TrendDirection = Bullish | Bearish | Neutral | UnknownTrend

  function TrendValue(t: TrendDirection): string
  {
    match t
    case Bullish => "bullish"
    case Bearish => "bearish"
    case Neutral => "neutral"
    case UnknownTrend => "unknown"
  }

  function TrendFrom(v: string): (r: Option<TrendDirection>)
    ensures r.Some? ==> TrendValue(r.value) == v
  {
    if v == "bullish" then Some(Bullish)
    else if v == "bearish" then Some(Bearish)
    else if v == "neutral" then Some(Neutral)
    else if v == "unknown" then Some(UnknownTrend)
    else None
  }

  lemma TrendRoundTrip(t: TrendDirection)
    ensures TrendFrom(TrendValue(t)) == Some(t)
  {
  }

  datatype RiskLevel = Low | Medium | High | VeryHigh

  function RiskValue(r: RiskLevel): string
  {
    match r
    case Low => "low"
    case Medium => "medium"
    case High => "high"
    case VeryHigh => "very_high"
  }

  function RiskFrom(v: string): (r: Option<RiskLevel>)
    ensures r.Some? ==> RiskValue(r.value) == v
  {
    if v == "low" then Some(Low)
    else if v == "medium" then Some(Medium)
    else if v == "high" then Some(High)
    else if v == "very_high" then Some(VeryHigh)
    else None
  }

  lemma RiskRoundTrip(r: RiskLevel)
    ensures RiskFrom(RiskValue(r)) == Some(r)
  {
  }

  // ---------------------------------------------------------------------
  // The stock record
  // ---------------------------------------------------------------------

  /** `validate_symbol`: upper-cased, then stripped. */
  function ValidateSymbol(v: string): string
  {
    Strip(Upper(v))
  }

  /** Upper-casing changes nothing the second time. */
  lemma UpperIdempotent(s: string)
    ensures Upper(Upper(s)) == Upper(s)
  {
  }

  /** Stripping keeps a contiguous part of the text. */
  lemma StripIsSlice(s: string)
    ensures exists i, j :: 0 <= i <= j <= |s| && Strip(s) == s[i..j]
  {
    var l := StripLeft(s);
    var r := StripRight(l);
    var i := |s| - |l|;
    StripLeftSuffix(s);
    StripRightPrefix(l);
    assert l == s[i..];
    assert r == l[..|r|];
    assert r == s[i..i + |r|];
  }

  /** Stripping changes nothing the second time. */
  lemma StripIdempotent(s: string)
    ensures Strip(Strip(s)) == Strip(s)
  {
    var t := Strip(s);
    if t != [] {
      assert !IsSpace(t[0]) by {
        var l := StripLeft(s);
        StripRightPrefix(l);
        assert t == StripRight(l) && l != [];
        assert t[0] == l[0];
      }
      assert StripLeft(t) == t;
    }
  }

  /** A part of upper-case text is upper-case. */
  lemma UpperSlice(u: string, i: int, j: int)
    requires Upper(u) == u && 0 <= i <= j <= |u|
    ensures Upper(u[i..j]) == u[i..j]
  {
    forall k | 0 <= k < j - i ensures Upper(u[i..j])[k] == u[i..j][k] {
      assert u[i..j][k] == u[i + k];
      assert UpperChar(u[i + k]) == Upper(u)[i + k];
    }
  }

  /** A stored symbol is upper-case with no surrounding space, and
      normalising it again gives the same symbol. */
  lemma ValidateSymbolIdempotent(v: string)
    ensures ValidateSymbol(ValidateSymbol(v)) == ValidateSymbol(v)
    ensures Upper(ValidateSymbol(v)) == ValidateSymbol(v)
  {
    var u := Upper(v);
    UpperIdempotent(v);
    StripIsSlice(u);
    var i, j :| 0 <= i <= j <= |u| && Strip(u) == u[i..j];
    UpperSlice(u, i, j);
    StripIdempotent(u);
  }

  /** Text with no lower-case letter and no space at either end is
      already a stored symbol. */
  lemma NormalSymbol(v: string)
    requires v != [] && !IsSpace(v[0]) && !IsSpace(v[|v| - 1])
    requires forall i :: 0 <= i < |v| ==> !('a' <= v[i] <= 'z')
    ensures ValidateSymbol(v) == v
  {
    assert Upper(v) == v;
    StripOfUnspaced(v);
  }

  /** `StockBasicInfo`; times are the caller's clock readings. */
  datatype Stock = Stock(
    id: string, symbol: string, name: string, market: MarketType, category: StockCategory,
    industry: Option<string>, description: Option<string>, website: Option<string>,
    marketCap: Option<real>, sharesOutstanding: Option<int>,
    createdAt: int, updatedAt: int, isActive: bool, tags: seq<string>, notes: Option<string>)

  /** `StockCreate` */
  datatype StockCreate = StockCreate(
    symbol: string, name: string, market: MarketType, category: StockCategory,
    industry: Option<string>, description: Option<string>, website: Option<string>,
    tags: seq<string>, notes: Option<string>)

  /** A create request with only its required fields given. */
  function MinimalCreate(symbol: string, name: string, market: MarketType, category: StockCategory): StockCreate
  {
    StockCreate(symbol, name, market, category, None, None, None, [], None)
  }

  /** `StockBasicInfo(id=..., **request)`: the symbol normalised, tracked,
      no market figures, created and updated now. */
  function NewStock(id: string, q: StockCreate, marketCap: Option<real>, now: int): (s: Stock)
    ensures s.id == id && s.symbol == ValidateSymbol(q.symbol) && s.name == q.name
    ensures s.market == q.market && s.category == q.category && s.tags == q.tags
    ensures s.isActive && s.marketCap == marketCap && s.sharesOutstanding.None?
    ensures s.createdAt == now && s.updatedAt == now
  {
    Stock(id, ValidateSymbol(q.symbol), q.name, q.market, q.category, q.industry, q.description, q.website,
          marketCap, None, now, now, true, q.tags, q.notes)
  }

  /** A minimal request gives a tracked stock with no tags and nothing
      optional. */
  lemma NewStockDefaults(id: string, symbol: string, name: string, market: MarketType, category: StockCategory, now: int)
    ensures var s := NewStock(id, MinimalCreate(symbol, name, market, category), None, now);
      s.isActive && s.tags == [] && s.industry.None? && s.description.None? && s.website.None? && s.notes.None?
  {
  }

  /** One field of `StockUpdate`: left unset, or set to a value. */
  datatype Patch<T> = Keep | Set(value: T)

  function Patched<T>(p: Patch<T>, current: T): T
  {
    if p.Set? then p.value else current
  }

  /** `StockUpdate`, field by field as `dict(exclude_unset=True)` gives it. */
  datatype StockUpdate = StockUpdate(
    name: Patch<string>, category: Patch<StockCategory>, industry: Patch<Option<string>>,
    description: Patch<Option<string>>, website: Patch<Option<string>>, marketCap: Patch<Option<real>>,
    sharesOutstanding: Patch<Option<int>>, tags: Patch<seq<string>>, notes: Patch<Option<string>>,
    isActive: Patch<bool>)

  /** `setattr` for every field set, then the update time. */
  function ApplyUpdate(s: Stock, u: StockUpdate, now: int): Stock
  {
    s.(name := Patched(u.name, s.name), category := Patched(u.category, s.category),
       industry := Patched(u.industry, s.industry), description := Patched(u.description, s.description),
       website := Patched(u.website, s.website), marketCap := Patched(u.marketCap, s.marketCap),
       sharesOutstanding := Patched(u.sharesOutstanding, s.sharesOutstanding), tags := Patched(u.tags, s.tags),
       notes := Patched(u.notes, s.notes), isActive := Patched(u.isActive, s.isActive), updatedAt := now)
  }

  /** An update never touches the id, the symbol, the market or the
      creation time; a field is replaced exactly when it is set; an update
      that sets nothing only moves the update time. */
  lemma ApplyUpdateFacts(s: Stock, u: StockUpdate, now: int)
    ensures var t := ApplyUpdate(s, u, now);
      t.id == s.id && t.symbol == s.symbol && t.market == s.market && t.createdAt == s.createdAt &&
      t.updatedAt == now &&
      (u.name.Set? ==> t.name == u.name.value) && (u.name.Keep? ==> t.name == s.name) &&
      (u.isActive.Set? ==> t.isActive == u.isActive.value) && (u.isActive.Keep? ==> t.isActive == s.isActive) &&
      (u.tags.Set? ==> t.tags == u.tags.value) && (u.tags.Keep? ==> t.tags == s.tags)
    ensures u == StockUpdate(Keep, Keep, Keep, Keep, Keep, Keep, Keep, Keep, Keep, Keep) ==>
      ApplyUpdate(s, u, now) == s.(updatedAt := now)
  {
  }

  // ---------------------------------------------------------------------
  // Transactions
  // ---------------------------------------------------------------------

  /** `calculate_net_amount`: a given net amount is kept; otherwise the
      total less fees and tax, each 0 when not given. */
  function NetAmount(given: Option<real>, total: Option<real>, fees: Option<real>, tax: Option<real>): real
  {
    if given.Some? then given.value
    else
      (if total.Some? then total.value else 0.0) - (if fees.Some? then fees.value else 0.0) -
      (if tax.Some? then tax.value else 0.0)
  }

  /** A computed net amount plus the fees and the tax is the total; a given
      one is kept whatever the other amounts are; with no fees and no tax
      the net amount is the total. */
  lemma NetAmountFacts(given: Option<real>, total: real, fees: real, tax: real)
    ensures NetAmount(None, Some(total), Some(fees), Some(tax)) + fees + tax == total
    ensures given.Some? ==> NetAmount(given, Some(total), Some(fees), Some(tax)) == given.value
    ensures NetAmount(None, Some(total), Some(0.0), Some(0.0)) == total
  {
  }

  /** `Transaction`, with `fees` and `tax` 0 unless given. */
  datatype Transaction = Transaction(
    id: string, stockId: string, kind: TransactionType, date: int, quantity: int, price: real,
    totalAmount: real, fees: real, tax: real, netAmount: real)

  function NewTransaction(id: string, stockId: string, kind: TransactionType, date: int, quantity: int, price: real,
                          totalAmount: real, fees: Option<real>, tax: Option<real>, netAmount: Option<real>): (t: Transaction)
    ensures fees.None? ==> t.fees == 0.0
    ensures tax.None? ==> t.tax == 0.0
    ensures netAmount.None? ==> t.netAmount + t.fees + t.tax == t.totalAmount
    ensures netAmount.Some? ==> t.netAmount == netAmount.value
  {
    var f := if fees.Some? then fees.value else 0.0;
    var x := if tax.Some? then tax.value else 0.0;
    Transaction(id, stockId, kind, date, quantity, price, totalAmount, f, x,
                NetAmount(netAmount, Some(totalAmount), Some(f), Some(x)))
  }
}
