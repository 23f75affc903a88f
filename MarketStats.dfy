/**
 * The per-market statistics of the stock routes, counted over what each
 * stock contributes: its market, its category and whether it is tracked.
 * Markets and categories are type parameters here; the stock routes
 * instantiate them with their enumerations.
 */
module MarketStats {

  /** One stock as the statistics see it. */
  datatype Entry<M, C> = Entry(market: M, category: C, active: bool)

  /** One market's entry: how many stocks, how many tracked, and how many
      in each category that has any. */
  datatype MarketStat<C> = MarketStat(count: nat, activeCount: nat, categories: map<C, nat>)

  /** A counter that is absent reads as zero. */
  function Get<C>(m: map<C, nat>, c: C): nat
  {
    if c in m then m[c] else 0
  }

  /** The statistics after counting one more stock. */
  function CountedIn<M, C>(stats: map<M, MarketStat<C>>, e: Entry<M, C>): map<M, MarketStat<C>>
  {
    var cur := if e.market in stats then stats[e.market] else MarketStat(0, 0, map[]);
    stats[e.market := MarketStat(cur.count + 1, cur.activeCount + (if e.active then 1 else 0),
                                 cur.categories[e.category := Get(cur.categories, e.category) + 1])]
  }

  /** The statistics of a listing, counted in order. */
  function Tally<M, C>(es: seq<Entry<M, C>>): map<M, MarketStat<C>>
  {
    if es == [] then map[] else CountedIn(Tally(es[..|es| - 1]), es[|es| - 1])
  }

  /** Counting a listing one stock further counts that stock into what the
      shorter listing gave. */
  lemma TallyStep<M, C>(es: seq<Entry<M, C>>, i: nat)
    requires i < |es|
    ensures Tally(es[..i + 1]) == CountedIn(Tally(es[..i]), es[i])
  {
    assert es[..i + 1][..i] == es[..i];
  }

  /** How many of the stocks are in the market, how many of those are
      tracked, and how many of those are in the category. */
  function InMarket<M(==), C>(es: seq<Entry<M, C>>, m: M): nat
  {
    if es == [] then 0 else InMarket(es[..|es| - 1], m) + (if es[|es| - 1].market == m then 1 else 0)
  }

  function ActiveInMarket<M(==), C>(es: seq<Entry<M, C>>, m: M): nat
  {
    if es == [] then 0
    else ActiveInMarket(es[..|es| - 1], m) + (if es[|es| - 1].market == m && es[|es| - 1].active then 1 else 0)
  }

  function InCategory<M(==), C(==)>(es: seq<Entry<M, C>>, m: M, c: C): nat
  {
    if es == [] then 0
    else InCategory(es[..|es| - 1], m, c) + (if es[|es| - 1].market == m && es[|es| - 1].category == c then 1 else 0)
  }

  /** The sum of a category map over a list of categories. */
  function CategorySum<C>(cats: map<C, nat>, list: seq<C>): nat
  {
    if list == [] then 0 else Get(cats, list[0]) + CategorySum(cats, list[1..])
  }

  /** Each category, listed once. */
  ghost predicate EveryCategoryOnce<C(!new)>(list: seq<C>)
  {
    (forall c: C :: c in list) && forall i, j :: 0 <= i < j < |list| ==> list[i] != list[j]
  }

  /** Counting one stock touches only its market's entry, which it adds to
      the listed markets, adding one to its count, to its tracked count when
      it is tracked, and to its category. */
  lemma CountedInFacts<M, C>(prev: map<M, MarketStat<C>>, e: Entry<M, C>, m: M, c: C)
    ensures var next := CountedIn(prev, e);
      (m in next <==> m in prev || e.market == m) &&
      (e.market != m && m in prev ==> next[m] == prev[m]) &&
      (e.market == m ==>
        var cur := if m in prev then prev[m] else MarketStat(0, 0, map[]);
        next[m].count == cur.count + 1 &&
        next[m].activeCount == cur.activeCount + (if e.active then 1 else 0) &&
        Get(next[m].categories, c) == Get(cur.categories, c) + (if e.category == c then 1 else 0))
  {
  }

  /** A market is listed exactly when some stock is in it. */
  lemma {:induction false} TallyMarkets<M, C>(es: seq<Entry<M, C>>, m: M)
    ensures m in Tally(es) <==> InMarket(es, m) > 0
  {
    if es != [] {
      var e := es[|es| - 1];
      TallyMarkets(es[..|es| - 1], m);
      CountedInFacts(Tally(es[..|es| - 1]), e, m, e.category);
    }
  }

  /** A market with no stocks has none tracked and none in any category. */
  lemma {:induction false} ZeroInMarket<M, C>(es: seq<Entry<M, C>>, m: M, c: C)
    requires InMarket(es, m) == 0
    ensures ActiveInMarket(es, m) == 0 && InCategory(es, m, c) == 0
  {
    if es != [] {
      ZeroInMarket(es[..|es| - 1], m, c);
    }
  }

  /** A listed market's entry counts that market's stocks, its tracked
      ones, and each category's. */
  lemma {:induction false} TallyCounts<M, C>(es: seq<Entry<M, C>>, m: M, c: C)
    requires m in Tally(es)
    ensures Tally(es)[m].count == InMarket(es, m)
    ensures Tally(es)[m].activeCount == ActiveInMarket(es, m)
    ensures Get(Tally(es)[m].categories, c) == InCategory(es, m, c)
  {
    var init := es[..|es| - 1];
    CountedInFacts(Tally(init), es[|es| - 1], m, c);
    if m in Tally(init) {
      TallyCounts(init, m, c);
    } else {
      TallyMarkets(init, m);
      ZeroInMarket(init, m, c);
    }
  }

  lemma {:induction false} ActiveAtMost<M, C>(es: seq<Entry<M, C>>, m: M)
    ensures ActiveInMarket(es, m) <= InMarket(es, m)
  {
    if es != [] {
      ActiveAtMost(es[..|es| - 1], m);
    }
  }

  /** One more in one category adds one to the sum over a list holding it
      once. */
  lemma {:induction false} CategorySumBump<C>(cats: map<C, nat>, c: C, list: seq<C>)
    requires forall i, j :: 0 <= i < j < |list| ==> list[i] != list[j]
    ensures CategorySum(cats[c := Get(cats, c) + 1], list) == CategorySum(cats, list) + (if c in list then 1 else 0)
  {
    if list != [] {
      CategorySumBump(cats, c, list[1..]);
      assert c in list <==> c == list[0] || c in list[1..];
      assert list[0] !in list[1..] by {
        forall j | 0 <= j < |list[1..]| ensures list[1..][j] != list[0] {
          assert list[1..][j] == list[j + 1];
        }
      }
    }
  }

  lemma {:induction false} EmptyCategorySum<C>(list: seq<C>)
    ensures CategorySum(map[], list) == 0
  {
    if list != [] {
      EmptyCategorySum(list[1..]);
    }
  }

  /** In every market's entry the tracked stocks are at most all of them,
      and the category counts, summed over every category once, add up to
      all of them. */
  lemma {:induction false} TallySums<M, C(!new)>(es: seq<Entry<M, C>>, m: M, list: seq<C>)
    requires m in Tally(es) && EveryCategoryOnce(list)
    ensures Tally(es)[m].activeCount <= Tally(es)[m].count
    ensures CategorySum(Tally(es)[m].categories, list) == Tally(es)[m].count
  {
    var init := es[..|es| - 1];
    var e := es[|es| - 1];
    var prev := Tally(init);
    TallyCounts(es, m, e.category);
    ActiveAtMost(es, m);
    if e.market != m {
      assert Tally(es)[m] == prev[m];
      TallySums(init, m, list);
    } else {
      var cur := if m in prev then prev[m] else MarketStat(0, 0, map[]);
      assert Tally(es)[m] == MarketStat(cur.count + 1, cur.activeCount + (if e.active then 1 else 0),
                                        cur.categories[e.category := Get(cur.categories, e.category) + 1]);
      if m in prev {
        TallySums(init, m, list);
      } else {
        EmptyCategorySum(list);
      }
      CategorySumBump(cur.categories, e.category, list);
    }
  }

  /** The counters for one stock, bumped field by field. */
  method CountStock<M, C>(stats: map<M, MarketStat<C>>, e: Entry<M, C>) returns (r: map<M, MarketStat<C>>)
    ensures r == CountedIn(stats, e)
  {
    var market := e.market;
    var entry := if market in stats then stats[market] else MarketStat(0, 0, map[]);
    entry := entry.(count := entry.count + 1);
    if e.active {
      entry := entry.(activeCount := entry.activeCount + 1);
    }
    var category := e.category;
    var categories := entry.categories;
    ghost var before := categories;
    if category !in categories {
      categories := categories[category := 0];
    }
    categories := categories[category := categories[category] + 1];
    assert categories == before[category := Get(before, category) + 1];
    r := stats[market := entry.(categories := categories)];
  }
}
