/**
 * Failed transactions: the per-wallet index next to the id store
 * (apps/api/src/services/failed-transaction.service.ts:18-59), the waste accounting of a wallet (180-249), and the
 * breakdowns of apps/api/src/services/transaction-analysis.service.ts:85-99, 147-211.
 */
module FailureAccounting {
  import opened Ordering
  import opened Sequences
  import opened Sums
  import opened Wrappers

  datatype Category = UnderpricedGas | OutOfGas | ContractRevert | SlippageExceeded | NonceConflict | InsufficientBalance
                    | NetworkError | Unknown

  const CATEGORIES: seq<Category> := [UnderpricedGas, OutOfGas, ContractRevert, SlippageExceeded, NonceConflict,
                                      InsufficientBalance, NetworkError, Unknown]

  /** A failed transaction; `fee` is gas used times gas price, `timestamp` is in milliseconds. */
  datatype FailedTx = FailedTx(id: nat, wallet: string, chainId: int, fee: nat, category: Category, timestamp: int)

  const DAY_MS: nat := 86_400_000

  function FeeOf(tx: FailedTx): int { tx.fee }

  function One(tx: FailedTx): int { 1 }

  function CategoryOf(tx: FailedTx): Category { tx.category }

  function ChainOf(tx: FailedTx): int { tx.chainId }

  /** The calendar day (UTC) of a transaction, as the number of days since the epoch. */
  function DayOf(tx: FailedTx): int { tx.timestamp / DAY_MS }

  function NewestFirst(tx: FailedTx): int { -tx.timestamp }

  // ---------- The store and the index ----------

  class FailedTransactions {
    var store: map<nat, FailedTx>
    var walletFailures: map<string, seq<FailedTx>>

    function ListOf(wallet: string): seq<FailedTx>
      reads this
    {
      if wallet in walletFailures then walletFailures[wallet] else []
    }

    predicate Stored(tx: FailedTx)
      reads this
    {
      tx.id in store && store[tx.id] == tx
    }

    /** Each stored transaction is in its wallet's list once, and nothing else is in any list. */
    ghost predicate Valid()
      reads this
    {
      && (forall id :: id in store ==> store[id].id == id)
      && forall wallet, tx :: Indexed(wallet, tx)
    }

    ghost predicate Indexed(wallet: string, tx: FailedTx)
      reads this
    {
      multiset(ListOf(wallet))[tx] == if Stored(tx) && tx.wallet == wallet then 1 else 0
    }

    lemma ListMembers(wallet: string)
      requires Valid()
      ensures forall tx :: tx in ListOf(wallet) <==> Stored(tx) && tx.wallet == wallet
    {
      forall tx
        ensures tx in ListOf(wallet) <==> Stored(tx) && tx.wallet == wallet
      {
        assert Indexed(wallet, tx);
        assert tx in ListOf(wallet) <==> multiset(ListOf(wallet))[tx] > 0;
      }
    }

    constructor ()
      ensures Valid() && store == map[]
    {
      store, walletFailures := map[], map[];
    }

    /** Records a transaction under a fresh id. */
    method Track(tx: FailedTx)
      requires Valid() && tx.id !in store
      modifies this
      ensures Valid()
      ensures store == old(store)[tx.id := tx]
      ensures forall w :: ListOf(w) == if w == tx.wallet then old(ListOf(w)) + [tx] else old(ListOf(w))
    {
      var list := ListOf(tx.wallet) + [tx];
      store := store[tx.id := tx];
      walletFailures := walletFailures[tx.wallet := list];
      forall wallet, t
        ensures Indexed(wallet, t)
      {
        assert old(Indexed(wallet, t));
      }
    }

    method GetWalletFailures(wallet: string, chainIds: Option<seq<int>>) returns (failures: seq<FailedTx>)
      requires Valid()
      ensures chainIds.None? || chainIds.value == [] ==> failures == ListOf(wallet)
      ensures chainIds.Some? && chainIds.value != [] ==>
                failures == Filter(ListOf(wallet), (tx: FailedTx) => tx.chainId in chainIds.value)
      ensures forall tx :: tx in failures ==> Stored(tx) && tx.wallet == wallet
    {
      failures := ListOf(wallet);
      ListMembers(wallet);
      if chainIds.Some? && chainIds.value != [] {
        failures := Filter(failures, (tx: FailedTx) => tx.chainId in chainIds.value);
      }
    }

    /** The wallet's latest failure. The lookup sorts the wallet's own list, newest first. */
    method LatestFailure(wallet: string) returns (latest: Option<FailedTx>)
      requires Valid()
      modifies this`walletFailures
      ensures Valid()
      ensures forall w :: multiset(ListOf(w)) == multiset(old(ListOf(w)))
      ensures latest.None? <==> forall tx :: Stored(tx) ==> tx.wallet != wallet
      ensures latest.Some? ==> Stored(latest.value) && latest.value.wallet == wallet &&
                               forall tx :: Stored(tx) && tx.wallet == wallet ==> tx.timestamp <= latest.value.timestamp
    {
      ListMembers(wallet);
      if wallet !in walletFailures {
        return None;
      }
      var sorted := SortBy(walletFailures[wallet], NewestFirst);
      SortByPermutes(walletFailures[wallet], NewestFirst);
      SortByHead(walletFailures[wallet], NewestFirst);
      SameMembers(sorted, walletFailures[wallet]);
      walletFailures := walletFailures[wallet := sorted];
      assert forall w :: multiset(ListOf(w)) == multiset(old(ListOf(w)));
      forall w, tx
        ensures Indexed(w, tx)
      {
        assert old(Indexed(w, tx));
      }
      latest := if sorted == [] then None else Some(sorted[0]);
    }
  }

  lemma SameMembers<T>(a: seq<T>, b: seq<T>)
    requires multiset(a) == multiset(b)
    ensures forall x :: x in a <==> x in b
  {
    forall x
      ensures x in a <==> x in b
    {
      assert x in a <==> x in multiset(a);
      assert x in b <==> x in multiset(b);
    }
  }

  // ---------- Waste accounting ----------

  datatype DayTotal = DayTotal(date: int, waste: int, failures: int)

  function DateOf(d: DayTotal): int { d.date }

  function WasteOf(d: DayTotal): int { d.waste }

  datatype CostMetrics = CostMetrics(total: int, average: int, byCategory: map<Category, int>, byChain: map<int, int>, trend: seq<DayTotal>)

  /** The totals of one chain, or none if it has no failure. */
  predicate ChainHolds(chain: int, byChain: map<int, int>, txs: seq<FailedTx>) {
    && (chain in byChain <==> SumWhere(txs, ChainOf, chain, One) > 0)
    && (chain in byChain ==> byChain[chain] == SumWhere(txs, ChainOf, chain, FeeOf))
  }

  predicate CategoryHolds(c: Category, byCategory: map<Category, int>, txs: seq<FailedTx>) {
    c in byCategory && byCategory[c] == SumWhere(txs, CategoryOf, c, FeeOf)
  }

  function DaySum(txs: seq<FailedTx>, date: int): DayTotal {
    DayTotal(date, SumWhere(txs, DayOf, date, FeeOf), SumWhere(txs, DayOf, date, One))
  }

  predicate DayHolds(date: int, order: seq<int>, daily: map<int, DayTotal>, txs: seq<FailedTx>) {
    && (date in order <==> date in daily)
    && (date in daily <==> SumWhere(txs, DayOf, date, One) > 0)
    && (date in daily ==> daily[date] == DaySum(txs, date))
  }

  /** One entry for each day with a failure, with that day's totals, in strictly increasing order of date. */
  ghost predicate IsTrend(trend: seq<DayTotal>, txs: seq<FailedTx>) {
    && Increasing(Keys(trend, DateOf))
    && (forall date :: date in Keys(trend, DateOf) <==> SumWhere(txs, DayOf, date, One) > 0)
    && forall d :: d in trend ==> d == DaySum(txs, d.date)
  }

  predicate Recent(tx: FailedTx, now: int) {
    tx.timestamp >= now - 30 * DAY_MS
  }

  function RecentOnly(txs: seq<FailedTx>, now: int): seq<FailedTx> {
    Filter(txs, (tx: FailedTx) => Recent(tx, now))
  }

  ghost predicate Accounts(m: CostMetrics, txs: seq<FailedTx>, now: int) {
    && m.total == SumOf(txs, FeeOf)
    && m.average == (if txs == [] then 0 else m.total / |txs|)
    && (forall c :: CategoryHolds(c, m.byCategory, txs))
    && (forall chain :: ChainHolds(chain, m.byChain, txs))
    && IsTrend(m.trend, RecentOnly(txs, now))
  }

  lemma CountIsNatural<K>(txs: seq<FailedTx>, key: FailedTx -> K, k: K)
    ensures SumWhere(txs, key, k, One) >= 0
    ensures SumWhere(txs, key, k, One) > 0 <==> exists tx :: tx in txs && key(tx) == k
  {
    if txs != [] {
      CountIsNatural(txs[1..], key, k);
      assert forall tx :: tx in txs <==> tx == txs[0] || tx in txs[1..];
    }
  }

  method CalculateCostMetrics(failures: seq<FailedTx>, now: int) returns (m: CostMetrics)
    ensures Accounts(m, failures, now)
  {
    var total := 0;
    var byCategory: map<Category, int> := map c | c in CATEGORIES :: 0;
    var byChain: map<int, int> := map[];
    EveryCategory();
    for i := 0 to |failures|
      invariant total == SumOf(failures[..i], FeeOf)
      invariant forall c :: CategoryHolds(c, byCategory, failures[..i])
      invariant forall chain :: ChainHolds(chain, byChain, failures[..i])
    {
      var tx := failures[i];
      assert failures[..i + 1] == failures[..i] + [tx];
      SumSnoc(failures[..i], tx, FeeOf);
      total := total + tx.fee;
      ghost var byCategory0 := byCategory;
      assert CategoryHolds(tx.category, byCategory, failures[..i]);
      byCategory := byCategory[tx.category := byCategory[tx.category] + tx.fee];
      CategoryStep(failures[..i], tx, byCategory0, byCategory);
      ghost var byChain0 := byChain;
      if tx.chainId !in byChain {
        byChain := byChain[tx.chainId := 0];
      }
      byChain := byChain[tx.chainId := byChain[tx.chainId] + tx.fee];
      ChainStep(failures[..i], tx, byChain0, byChain);
    }
    assert failures[..|failures|] == failures;
    var trend := DailyTrend(RecentOnly(failures, now));
    m := CostMetrics(total, if |failures| > 0 then total / |failures| else 0, byCategory, byChain, trend);
  }

  lemma EveryCategory()
    ensures forall c: Category :: c in CATEGORIES
    ensures Distinct(CATEGORIES)
  {
    forall c: Category
      ensures c in CATEGORIES
    {
      match c
      case UnderpricedGas => assert CATEGORIES[0] == c;
      case OutOfGas => assert CATEGORIES[1] == c;
      case ContractRevert => assert CATEGORIES[2] == c;
      case SlippageExceeded => assert CATEGORIES[3] == c;
      case NonceConflict => assert CATEGORIES[4] == c;
      case InsufficientBalance => assert CATEGORIES[5] == c;
      case NetworkError => assert CATEGORIES[6] == c;
      case Unknown => assert CATEGORIES[7] == c;
    }
  }

  lemma CategoryStep(txs: seq<FailedTx>, tx: FailedTx, byCategory: map<Category, int>, grown: map<Category, int>)
    requires forall c :: CategoryHolds(c, byCategory, txs)
    requires CategoryHolds(tx.category, byCategory, txs) && grown == byCategory[tx.category := byCategory[tx.category] + tx.fee]
    ensures forall c :: CategoryHolds(c, grown, txs + [tx])
  {
    forall c
      ensures CategoryHolds(c, grown, txs + [tx])
    {
      assert CategoryHolds(c, byCategory, txs);
      SumWhereSnoc(txs, tx, CategoryOf, c, FeeOf);
    }
  }

  lemma ChainStep(txs: seq<FailedTx>, tx: FailedTx, byChain: map<int, int>, grown: map<int, int>)
    requires forall chain :: ChainHolds(chain, byChain, txs)
    requires grown == byChain[tx.chainId := (if tx.chainId in byChain then byChain[tx.chainId] else 0) + tx.fee]
    ensures forall chain :: ChainHolds(chain, grown, txs + [tx])
  {
    forall chain
      ensures ChainHolds(chain, grown, txs + [tx])
    {
      assert ChainHolds(chain, byChain, txs);
      SumWhereSnoc(txs, tx, ChainOf, chain, FeeOf);
      SumWhereSnoc(txs, tx, ChainOf, chain, One);
      CountIsNatural(txs, ChainOf, chain);
      NoneOfKey(txs, ChainOf, chain, FeeOf);
    }
  }

  lemma {:induction false} NoneOfKey<K>(txs: seq<FailedTx>, key: FailedTx -> K, k: K, f: FailedTx -> int)
    ensures SumWhere(txs, key, k, One) <= 0 ==> SumWhere(txs, key, k, f) == 0
  {
    CountIsNatural(txs, key, k);
    if txs != [] {
      CountIsNatural(txs[1..], key, k);
      NoneOfKey(txs[1..], key, k, f);
    }
  }

  method DailyTrend(recent: seq<FailedTx>) returns (trend: seq<DayTotal>)
    ensures IsTrend(trend, recent)
  {
    var order: seq<int>, daily: map<int, DayTotal> := [], map[];
    for i := 0 to |recent|
      invariant Distinct(order)
      invariant forall date :: DayHolds(date, order, daily, recent[..i])
    {
      var tx := recent[i];
      var date := DayOf(tx);
      ghost var order0, daily0 := order, daily;
      assert recent[..i + 1] == recent[..i] + [tx];
      var current := if date in daily then daily[date] else DayTotal(date, 0, 0);
      if date !in daily {
        order := order + [date];
      }
      daily := daily[date := DayTotal(date, current.waste + tx.fee, current.failures + 1)];
      DayStep(recent[..i], tx, order0, daily0, order, daily);
    }
    assert recent[..|recent|] == recent;
    var entries := [];
    for i := 0 to |order|
      invariant |entries| == i
      invariant forall j :: 0 <= j < i ==> order[j] in daily && entries[j] == daily[order[j]]
    {
      assert order[i] in order && DayHolds(order[i], order, daily, recent);
      entries := entries + [daily[order[i]]];
    }
    SortedDaysAreTheTrend(entries, order, daily, recent);
    trend := SortBy(entries, DateOf);
  }

  lemma DayStep(txs: seq<FailedTx>, tx: FailedTx, order: seq<int>, daily: map<int, DayTotal>, met: seq<int>, grown: map<int, DayTotal>)
    requires Distinct(order) && forall date :: DayHolds(date, order, daily, txs)
    requires met == if DayOf(tx) in daily then order else order + [DayOf(tx)]
    requires
      var current := if DayOf(tx) in daily then daily[DayOf(tx)] else DayTotal(DayOf(tx), 0, 0);
      grown == daily[DayOf(tx) := DayTotal(DayOf(tx), current.waste + tx.fee, current.failures + 1)]
    ensures Distinct(met) && forall d :: DayHolds(d, met, grown, txs + [tx])
  {
    var date := DayOf(tx);
    assert DayHolds(date, order, daily, txs);
    DistinctSnoc(order, date);
    forall d
      ensures DayHolds(d, met, grown, txs + [tx])
    {
      assert DayHolds(d, order, daily, txs);
      assert d in order + [date] <==> d in order || d == date;
      SumWhereSnoc(txs, tx, DayOf, d, FeeOf);
      SumWhereSnoc(txs, tx, DayOf, d, One);
      CountIsNatural(txs, DayOf, d);
      NoneOfKey(txs, DayOf, d, FeeOf);
    }
  }

  lemma SortedDaysAreTheTrend(entries: seq<DayTotal>, order: seq<int>, daily: map<int, DayTotal>, txs: seq<FailedTx>)
    requires Distinct(order) && forall date :: DayHolds(date, order, daily, txs)
    requires |entries| == |order| && forall j :: 0 <= j < |order| ==> order[j] in daily && entries[j] == daily[order[j]]
    ensures IsTrend(SortBy(entries, DateOf), txs)
  {
    assert forall j :: 0 <= j < |order| ==> DayHolds(order[j], order, daily, txs);
    assert Keys(entries, DateOf) == order;
    SortByOrders(entries, DateOf);
    forall d | d in SortBy(entries, DateOf)
      ensures d == DaySum(txs, d.date)
    {
      assert d in multiset(entries);
      var j :| 0 <= j < |entries| && entries[j] == d;
      assert DayHolds(order[j], order, daily, txs);
    }
    forall date
      ensures date in Keys(SortBy(entries, DateOf), DateOf) <==> SumWhere(txs, DayOf, date, One) > 0
    {
      assert DayHolds(date, order, daily, txs);
    }
  }

  // ---------- Categories and chains ----------

  /** The categories of a list in order of first appearance. */
  function Kinds(txs: seq<FailedTx>): seq<Category> {
    if txs == [] then []
    else
      var front, c := Kinds(txs[..|txs| - 1]), txs[|txs| - 1].category;
      if c in front then front else front + [c]
  }

  function CountOf(txs: seq<FailedTx>, c: Category): int {
    SumWhere(txs, CategoryOf, c, One)
  }

  /** The most frequent category, the one seen first among equals; Unknown for no failures. */
  ghost predicate IsTop(top: Category, txs: seq<FailedTx>) {
    var kinds := Kinds(txs);
    if kinds == [] then top == Unknown
    else exists i :: 0 <= i < |kinds| && top == kinds[i] && Leads(i, kinds, txs)
  }

  predicate Leads(i: nat, kinds: seq<Category>, txs: seq<FailedTx>)
    requires i < |kinds|
  {
    && (forall j :: 0 <= j < i ==> CountOf(txs, kinds[j]) < CountOf(txs, kinds[i]))
    && (forall j :: i <= j < |kinds| ==> CountOf(txs, kinds[j]) <= CountOf(txs, kinds[i]))
  }

  predicate Counted(c: Category, order: seq<Category>, counts: map<Category, int>, txs: seq<FailedTx>) {
    && (c in order <==> c in counts)
    && (c in counts <==> CountOf(txs, c) > 0)
    && (c in counts ==> counts[c] == CountOf(txs, c))
  }

  method CategorizeFailures(failures: seq<FailedTx>) returns (order: seq<Category>, counts: map<Category, int>)
    ensures order == Kinds(failures)
    ensures forall c :: Counted(c, order, counts, failures)
  {
    order, counts := [], map[];
    for i := 0 to |failures|
      invariant order == Kinds(failures[..i])
      invariant forall c :: Counted(c, order, counts, failures[..i])
    {
      var c := failures[i].category;
      assert failures[..i + 1] == failures[..i] + [failures[i]];
      ghost var order0, counts0 := order, counts;
      assert Counted(c, order, counts, failures[..i]);
      if c !in counts {
        order := order + [c];
      }
      counts := counts[c := (if c in counts then counts[c] else 0) + 1];
      CountStep(failures[..i], failures[i], order0, counts0, order, counts);
    }
    assert failures[..|failures|] == failures;
  }

  lemma CountStep(txs: seq<FailedTx>, tx: FailedTx, order: seq<Category>, counts: map<Category, int>, met: seq<Category>, grown: map<Category, int>)
    requires forall c :: Counted(c, order, counts, txs)
    requires met == if tx.category in counts then order else order + [tx.category]
    requires grown == counts[tx.category := (if tx.category in counts then counts[tx.category] else 0) + 1]
    ensures forall c :: Counted(c, met, grown, txs + [tx])
  {
    forall c
      ensures Counted(c, met, grown, txs + [tx])
    {
      assert Counted(c, order, counts, txs);
      assert c in order + [tx.category] <==> c in order || c == tx.category;
      SumWhereSnoc(txs, tx, CategoryOf, c, One);
      CountIsNatural(txs, CategoryOf, c);
    }
  }

  /** A running maximum over the counts, taking over only when strictly greater. */
  method GetTopFailureCategory(order: seq<Category>, counts: map<Category, int>, ghost txs: seq<FailedTx>) returns (top: Category)
    requires order == Kinds(txs) && forall c :: Counted(c, order, counts, txs)
    ensures IsTop(top, txs)
  {
    var maxCount := 0;
    top := Unknown;
    ghost var at: nat := 0;
    for i := 0 to |order|
      invariant i == 0 ==> maxCount == 0 && top == Unknown
      invariant i > 0 ==> at < i && top == order[at] && maxCount == CountOf(txs, order[at])
      invariant i > 0 ==> forall j :: 0 <= j < i ==>
                  CountOf(txs, order[j]) <= maxCount && (j < at ==> CountOf(txs, order[j]) < maxCount)
    {
      assert order[i] in order && Counted(order[i], order, counts, txs);
      if counts[order[i]] > maxCount {
        maxCount, top, at := counts[order[i]], order[i], i;
      }
    }
    assert order != [] ==> Leads(at, order, txs);
  }

  datatype ChainStats = ChainStats(failures: int, gasWasted: int, mostCommonCategory: Category)

  function OnChain(txs: seq<FailedTx>, chain: int): seq<FailedTx> {
    Filter(txs, (tx: FailedTx) => tx.chainId == chain)
  }

  predicate StatsHold(chain: int, stats: map<int, ChainStats>, txs: seq<FailedTx>) {
    && (chain in stats <==> SumWhere(txs, ChainOf, chain, One) > 0)
    && (chain in stats ==> stats[chain].failures == SumWhere(txs, ChainOf, chain, One))
    && (chain in stats ==> stats[chain].gasWasted == SumWhere(txs, ChainOf, chain, FeeOf))
  }

  /** Some element; the order in which the chains are visited does not matter. */
  method Pick<T>(s: set<T>) returns (x: T)
    requires s != {}
    ensures x in s
  {
    x :| x in s;
  }

  method CalculateChainBreakdown(failures: seq<FailedTx>) returns (stats: map<int, ChainStats>)
    ensures forall chain :: StatsHold(chain, stats, failures)
    ensures forall chain :: chain in stats ==> IsTop(stats[chain].mostCommonCategory, OnChain(failures, chain))
  {
    stats := map[];
    for i := 0 to |failures|
      invariant forall chain :: StatsHold(chain, stats, failures[..i])
    {
      var tx := failures[i];
      assert failures[..i + 1] == failures[..i] + [tx];
      ghost var stats0 := stats;
      var s := if tx.chainId in stats then stats[tx.chainId] else ChainStats(0, 0, Unknown);
      stats := stats[tx.chainId := ChainStats(s.failures + 1, s.gasWasted + tx.fee, s.mostCommonCategory)];
      StatsStep(failures[..i], tx, stats0, stats);
    }
    assert failures[..|failures|] == failures;
    var todo := stats.Keys;
    while todo != {}
      invariant todo <= stats.Keys
      invariant forall chain :: StatsHold(chain, stats, failures)
      invariant forall chain :: chain in stats && chain !in todo ==> IsTop(stats[chain].mostCommonCategory, OnChain(failures, chain))
      decreases |todo|
    {
      var chain := Pick(todo);
      var order, counts := CategorizeFailures(OnChain(failures, chain));
      var top := GetTopFailureCategory(order, counts, OnChain(failures, chain));
      ghost var stats0 := stats;
      stats := stats[chain := stats[chain].(mostCommonCategory := top)];
      assert forall c :: StatsHold(c, stats0, failures) ==> StatsHold(c, stats, failures);
      todo := todo - {chain};
    }
  }

  lemma StatsStep(txs: seq<FailedTx>, tx: FailedTx, stats: map<int, ChainStats>, grown: map<int, ChainStats>)
    requires forall chain :: StatsHold(chain, stats, txs)
    requires
      var s := if tx.chainId in stats then stats[tx.chainId] else ChainStats(0, 0, Unknown);
      grown == stats[tx.chainId := ChainStats(s.failures + 1, s.gasWasted + tx.fee, s.mostCommonCategory)]
    ensures forall chain :: StatsHold(chain, grown, txs + [tx])
  {
    forall chain
      ensures StatsHold(chain, grown, txs + [tx])
    {
      assert StatsHold(chain, stats, txs);
      SumWhereSnoc(txs, tx, ChainOf, chain, FeeOf);
      SumWhereSnoc(txs, tx, ChainOf, chain, One);
      CountIsNatural(txs, ChainOf, chain);
      NoneOfKey(txs, ChainOf, chain, FeeOf);
    }
  }

  // ---------- Conservation ----------

  function TotalByCategory(byCategory: map<Category, int>, cs: seq<Category>): int
    requires forall c :: c in cs ==> c in byCategory
  {
    if cs == [] then 0 else byCategory[cs[0]] + TotalByCategory(byCategory, cs[1..])
  }

  function TotalByChain(byChain: map<int, int>, chains: seq<int>): int
    requires forall c :: c in chains ==> c in byChain
  {
    if chains == [] then 0
    else
      var chain := chains[0];
      assert chain in chains;
      byChain[chain] + TotalByChain(byChain, chains[1..])
  }

  lemma {:induction false} CategoryTotals(byCategory: map<Category, int>, cs: seq<Category>, txs: seq<FailedTx>)
    requires forall c :: c in cs ==> c in byCategory
    requires forall c :: CategoryHolds(c, byCategory, txs)
    ensures TotalByCategory(byCategory, cs) == SumOver(cs, txs, CategoryOf, FeeOf)
  {
    if cs == [] {
    } else {
      CategoryTotals(byCategory, cs[1..], txs);
      assert CategoryHolds(cs[0], byCategory, txs);
    }
  }

  lemma {:induction false} ChainTotals(byChain: map<int, int>, chains: seq<int>, txs: seq<FailedTx>)
    requires forall c :: c in chains ==> c in byChain
    requires forall chain :: ChainHolds(chain, byChain, txs)
    ensures TotalByChain(byChain, chains) == SumOver(chains, txs, ChainOf, FeeOf)
  {
    if chains == [] {
    } else {
      ChainTotals(byChain, chains[1..], txs);
      assert ChainHolds(chains[0], byChain, txs);
    }
  }

  lemma {:induction false} TrendTotals(trend: seq<DayTotal>, txs: seq<FailedTx>)
    requires forall d :: d in trend ==> d == DaySum(txs, d.date)
    ensures SumOf(trend, WasteOf) == SumOver(Keys(trend, DateOf), txs, DayOf, FeeOf)
  {
    if trend == [] {
    } else {
      TrendTotals(trend[1..], txs);
      assert trend[0] in trend;
      assert Keys(trend, DateOf) == [trend[0].date] + Keys(trend[1..], DateOf);
    }
  }

  /** The category totals, the chain totals (listed in any order) and the recent days each add up. */
  lemma WasteIsConserved(m: CostMetrics, txs: seq<FailedTx>, now: int, chains: seq<int>)
    requires Accounts(m, txs, now)
    requires Distinct(chains) && forall c :: c in chains <==> c in m.byChain
    ensures (forall c :: c in CATEGORIES ==> c in m.byCategory) && TotalByCategory(m.byCategory, CATEGORIES) == m.total
    ensures TotalByChain(m.byChain, chains) == m.total
    ensures SumOf(m.trend, WasteOf) == SumOf(RecentOnly(txs, now), FeeOf)
  {
    EveryCategory();
    assert forall c :: c in CATEGORIES ==> CategoryHolds(c, m.byCategory, txs);
    CategoryTotals(m.byCategory, CATEGORIES, txs);
    SumByKeys(CATEGORIES, txs, CategoryOf, FeeOf);
    ChainTotals(m.byChain, chains, txs);
    forall tx | tx in txs
      ensures ChainOf(tx) in chains
    {
      CountIsNatural(txs, ChainOf, tx.chainId);
      assert ChainHolds(tx.chainId, m.byChain, txs);
    }
    SumByKeys(chains, txs, ChainOf, FeeOf);
    var recent := RecentOnly(txs, now);
    TrendTotals(m.trend, recent);
    forall tx | tx in recent
      ensures DayOf(tx) in Keys(m.trend, DateOf)
    {
      CountIsNatural(recent, DayOf, DayOf(tx));
    }
    SumByKeys(Keys(m.trend, DateOf), recent, DayOf, FeeOf);
  }

  /** A transaction list has one trend. */
  lemma TrendIsUnique(a: seq<DayTotal>, b: seq<DayTotal>, txs: seq<FailedTx>)
    requires IsTrend(a, txs) && IsTrend(b, txs)
    ensures a == b
  {
    IncreasingIsUnique(Keys(a, DateOf), Keys(b, DateOf));
    assert |a| == |b|;
    forall i | 0 <= i < |a|
      ensures a[i] == b[i]
    {
      assert Keys(a, DateOf)[i] == Keys(b, DateOf)[i];
      assert a[i] in a && b[i] in b;
    }
  }

  // ---------- The analysis ----------

  predicate InTimeframe(tx: FailedTx, start: Option<int>, end: Option<int>, now: int) {
    && tx.timestamp >= (if start.Some? then start.value else 0)
    && tx.timestamp <= (if end.Some? then end.value else now)
  }

  datatype Timeframe = Timeframe(start: Option<int>, end: Option<int>)

  function FilterByTimeframe(txs: seq<FailedTx>, timeframe: Option<Timeframe>, now: int): seq<FailedTx> {
    if timeframe.None? then txs
    else Filter(txs, (tx: FailedTx) => InTimeframe(tx, timeframe.value.start, timeframe.value.end, now))
  }

  lemma {:induction false} FilteredSum(txs: seq<FailedTx>, p: FailedTx -> bool)
    ensures 0 <= SumOf(Filter(txs, p), FeeOf) <= SumOf(txs, FeeOf)
    ensures SumOf(Filter(txs, p), FeeOf) == SumOf(txs, FeeOf) <==> forall tx :: tx in txs && !p(tx) ==> tx.fee == 0
  {
    if txs == [] {
    } else {
      FilteredSum(txs[1..], p);
      assert txs[0] in txs && forall tx :: tx in txs <==> tx == txs[0] || tx in txs[1..];
    }
  }

  /**
   * An analysis reports the cost of all failures of the wallet but breaks down those of the timeframe. The two
   * agree always without a timeframe, and with one exactly when no failure outside it cost anything.
   */
  lemma BreakdownAgreesWithCost(m: CostMetrics, stats: map<int, ChainStats>, chains: seq<int>, txs: seq<FailedTx>, timeframe: Option<Timeframe>, now: int)
    requires Accounts(m, txs, now)
    requires forall chain :: StatsHold(chain, stats, FilterByTimeframe(txs, timeframe, now))
    requires Distinct(chains) && forall c :: c in chains <==> c in stats
    ensures Wasted(stats, chains) <= m.total
    ensures Wasted(stats, chains) == m.total
       <==> (timeframe.Some? ==> forall tx :: tx in txs && tx.fee > 0 ==> InTimeframe(tx, timeframe.value.start, timeframe.value.end, now))
  {
    var kept := FilterByTimeframe(txs, timeframe, now);
    WastedTotals(stats, chains, kept);
    forall tx | tx in kept
      ensures ChainOf(tx) in chains
    {
      CountIsNatural(kept, ChainOf, tx.chainId);
      assert StatsHold(tx.chainId, stats, kept);
    }
    SumByKeys(chains, kept, ChainOf, FeeOf);
    if timeframe.Some? {
      FilteredSum(txs, (tx: FailedTx) => InTimeframe(tx, timeframe.value.start, timeframe.value.end, now));
    }
  }

  function Wasted(stats: map<int, ChainStats>, chains: seq<int>): int
    requires forall c :: c in chains ==> c in stats
  {
    if chains == [] then 0
    else
      var chain := chains[0];
      assert chain in chains;
      stats[chain].gasWasted + Wasted(stats, chains[1..])
  }

  lemma {:induction false} WastedTotals(stats: map<int, ChainStats>, chains: seq<int>, txs: seq<FailedTx>)
    requires forall c :: c in chains ==> c in stats
    requires forall chain :: StatsHold(chain, stats, txs)
    ensures Wasted(stats, chains) == SumOver(chains, txs, ChainOf, FeeOf)
  {
    if chains == [] {
    } else {
      WastedTotals(stats, chains[1..], txs);
      assert StatsHold(chains[0], stats, txs);
    }
  }


  // ---------- Days and the last thirty of them ----------

  /** A failure's day is the one of 86,400,000 milliseconds its time lies in. */
  lemma DayMeaning(tx: FailedTx, date: int)
    ensures DayOf(tx) == date <==> date * 86_400_000 <= tx.timestamp < (date + 1) * 86_400_000
  {
  }

  /** The trend covers the failures of the last thirty days, in their order. */
  lemma RecentMeaning(txs: seq<FailedTx>, now: int)
    ensures RecentOnly(txs, now) == Filter(txs, (tx: FailedTx) => now - tx.timestamp <= 2_592_000_000)
  {
    SameFilter(txs, (tx: FailedTx) => Recent(tx, now), (tx: FailedTx) => now - tx.timestamp <= 2_592_000_000);
  }

  function OnDay(txs: seq<FailedTx>, date: int): seq<FailedTx> {
    Filter(txs, (tx: FailedTx) => date * 86_400_000 <= tx.timestamp < (date + 1) * 86_400_000)
  }

  lemma {:induction false} DaySumIs(txs: seq<FailedTx>, date: int)
    ensures DaySum(txs, date) == DayTotal(date, SumOf(OnDay(txs, date), (tx: FailedTx) => tx.fee), |OnDay(txs, date)|)
  {
    if txs == [] {
    } else {
      DaySumIs(txs[1..], date);
      DayMeaning(txs[0], date);
    }
  }

  /** A trend lists, for each day with a recent failure, the fees and the number of that day's failures. */
  lemma TrendMeaning(m: CostMetrics, txs: seq<FailedTx>, now: int, i: nat)
    requires Accounts(m, txs, now) && i < |m.trend|
    ensures var day := OnDay(Filter(txs, (tx: FailedTx) => now - tx.timestamp <= 2_592_000_000), m.trend[i].date);
            && day != [] && m.trend[i].failures == |day| && m.trend[i].waste == SumOf(day, (tx: FailedTx) => tx.fee)
  {
    RecentMeaning(txs, now);
    var d := m.trend[i];
    DaySumIs(RecentOnly(txs, now), d.date);
    assert d in m.trend && Keys(m.trend, DateOf)[i] == d.date;
    assert d.date in Keys(m.trend, DateOf);
  }

  /** A timeframe keeps what lies between its ends; a missing start is the epoch and a missing end is now. */
  lemma TimeframeMeaning(txs: seq<FailedTx>, start: Option<int>, end: Option<int>, now: int, tx: FailedTx)
    ensures tx in FilterByTimeframe(txs, Some(Timeframe(start, end)), now) <==>
            && tx in txs
            && (if start.Some? then start.value <= tx.timestamp else 0 <= tx.timestamp)
            && (if end.Some? then tx.timestamp <= end.value else tx.timestamp <= now)
    ensures FilterByTimeframe(txs, None, now) == txs
  {
    InFilter(txs, (t: FailedTx) => InTimeframe(t, start, end, now), tx);
  }
}
