/** Bucketing raw gas records into time windows, and the exponential moving average of a series. */
module GasAggregation {
  import opened Arithmetic
  import opened Ordering
  import opened Sequences
  import opened Sums

  datatype Interval = OneMinute | FiveMinutes | OneHour | Raw

  const WINDOW_MS: map<Interval, nat> := map[OneMinute := 60_000, FiveMinutes := 300_000, OneHour := 3_600_000, Raw := 0]

  /** A record; fees and gas amounts are the source's decimal strings read as natural numbers. */
  datatype Record = Record(chainId: int, blockNumber: int, baseFee: nat, priorityFee: nat,
                           gasUsed: nat, gasLimit: nat, timestamp: int)

  datatype Quantity = BaseFee | PriorityFee | GasUsed | GasLimit

  function Amount(q: Quantity, r: Record): nat {
    match q
    case BaseFee => r.baseFee
    case PriorityFee => r.priorityFee
    case GasUsed => r.gasUsed
    case GasLimit => r.gasLimit
  }

  function TimeOf(r: Record): int { r.timestamp }

  /** The start of the window of width `w` that holds time `t`. */
  function Bucket(t: int, w: nat): int
    requires w > 0
  {
    t / w * w
  }

  function AmountOf(q: Quantity): Record -> int {
    r => Amount(q, r)
  }

  function Total(q: Quantity, rs: seq<Record>): nat {
    SumIsNatural(rs, AmountOf(q));
    SumOf(rs, AmountOf(q))
  }

  function Average(q: Quantity, rs: seq<Record>): nat
    requires rs != []
  {
    Total(q, rs) / |rs|
  }

  // ---------- What an aggregation is ----------

  /** The records of one window, in their original order. */
  function Group(rs: seq<Record>, w: nat, b: int): seq<Record>
    requires w > 0
  {
    if rs == [] then []
    else
      var n := |rs| - 1;
      if Bucket(rs[n].timestamp, w) == b then Group(rs[..n], w, b) + [rs[n]] else Group(rs[..n], w, b)
  }

  function Averaged(group: seq<Record>, b: int): Record
    requires group != []
  {
    Record(group[0].chainId, group[|group| - 1].blockNumber, Average(BaseFee, group), Average(PriorityFee, group),
           Average(GasUsed, group), Average(GasLimit, group), b)
  }

  /** One averaged record for each window that holds a record, in strictly increasing order of time. */
  ghost predicate IsAggregate(out: seq<Record>, rs: seq<Record>, w: nat)
    requires w > 0
  {
    && Increasing(Keys(out, TimeOf))
    && (forall b :: b in Keys(out, TimeOf) <==> Group(rs, w, b) != [])
    && (forall o :: o in out ==> Group(rs, w, o.timestamp) != [] && o == Averaged(Group(rs, w, o.timestamp), o.timestamp))
  }

  // ---------- The implementation ----------

  lemma GroupSnoc(rs: seq<Record>, r: Record, w: nat, b: int)
    requires w > 0
    ensures Group(rs + [r], w, b) == if Bucket(r.timestamp, w) == b then Group(rs, w, b) + [r] else Group(rs, w, b)
  {
    assert (rs + [r])[..|rs|] == rs;
  }

  /** The windows met so far: their starts in order of first meeting, and the records of each. */
  ghost predicate Bucketed(order: seq<int>, buckets: map<int, seq<Record>>, rs: seq<Record>, w: nat)
    requires w > 0
  {
    && Distinct(order)
    && forall b :: Holds(b, order, buckets, rs, w)
  }

  predicate Holds(b: int, order: seq<int>, buckets: map<int, seq<Record>>, rs: seq<Record>, w: nat)
    requires w > 0
  {
    && (b in order <==> b in buckets)
    && Group(rs, w, b) == (if b in buckets then buckets[b] else [])
    && (b in buckets ==> buckets[b] != [])
  }

  lemma MeetsOldWindow(order: seq<int>, buckets: map<int, seq<Record>>, rs: seq<Record>, r: Record, w: nat)
    requires w > 0 && Bucketed(order, buckets, rs, w)
    requires Bucket(r.timestamp, w) in buckets
    ensures Bucketed(order, buckets[Bucket(r.timestamp, w) := buckets[Bucket(r.timestamp, w)] + [r]], rs + [r], w)
  {
    var grown := buckets[Bucket(r.timestamp, w) := buckets[Bucket(r.timestamp, w)] + [r]];
    forall b
      ensures Holds(b, order, grown, rs + [r], w)
    {
      assert Holds(b, order, buckets, rs, w);
      GroupSnoc(rs, r, w, b);
    }
  }

  lemma MeetsNewWindow(order: seq<int>, buckets: map<int, seq<Record>>, rs: seq<Record>, r: Record, w: nat)
    requires w > 0 && Bucketed(order, buckets, rs, w)
    requires Bucket(r.timestamp, w) !in buckets
    ensures Bucketed(order + [Bucket(r.timestamp, w)], buckets[Bucket(r.timestamp, w) := [r]], rs + [r], w)
  {
    var c := Bucket(r.timestamp, w);
    assert Holds(c, order, buckets, rs, w);
    var met, grown := order + [c], buckets[c := [r]];
    DistinctSnoc(order, c);
    forall b
      ensures Holds(b, met, grown, rs + [r], w)
    {
      assert Holds(b, order, buckets, rs, w);
      assert b in met <==> b in order || b == c;
      GroupSnoc(rs, r, w, b);
    }
  }

  lemma SortedAveragesAggregate(averages: seq<Record>, order: seq<int>, buckets: map<int, seq<Record>>, rs: seq<Record>, w: nat)
    requires w > 0 && Bucketed(order, buckets, rs, w)
    requires |averages| == |order|
    requires forall j :: 0 <= j < |order| ==> order[j] in buckets && buckets[order[j]] != [] &&
                                              averages[j] == Averaged(buckets[order[j]], order[j])
    ensures IsAggregate(SortBy(averages, TimeOf), rs, w)
  {
    assert Keys(averages, TimeOf) == order;
    SortByOrders(averages, TimeOf);
    forall o | o in SortBy(averages, TimeOf)
      ensures Group(rs, w, o.timestamp) != [] && o == Averaged(Group(rs, w, o.timestamp), o.timestamp)
    {
      assert o in multiset(averages);
      var j :| 0 <= j < |averages| && averages[j] == o;
      assert Holds(order[j], order, buckets, rs, w);
    }
    forall b
      ensures b in Keys(SortBy(averages, TimeOf), TimeOf) <==> Group(rs, w, b) != []
    {
      assert Holds(b, order, buckets, rs, w);
    }
  }

  method AggregateByInterval(records: seq<Record>, interval: Interval) returns (result: seq<Record>)
    ensures interval == Raw ==> result == records
    ensures interval != Raw ==> WINDOW_MS[interval] > 0 && IsAggregate(result, records, WINDOW_MS[interval])
    ensures interval == OneMinute ==> AveragesWindows(result, records, 60_000)
    ensures interval == FiveMinutes ==> AveragesWindows(result, records, 300_000)
    ensures interval == OneHour ==> AveragesWindows(result, records, 3_600_000)
  {
    if interval == Raw {
      return records;
    }
    var w := WINDOW_MS[interval];
    var order: seq<int>, buckets: map<int, seq<Record>> := [], map[];
    for i := 0 to |records|
      invariant Bucketed(order, buckets, records[..i], w)
    {
      var record := records[i];
      var bucket := Bucket(record.timestamp, w);
      assert records[..i + 1] == records[..i] + [record];
      if bucket !in buckets {
        MeetsNewWindow(order, buckets, records[..i], record, w);
        order, buckets := order + [bucket], buckets[bucket := [record]];
      } else {
        MeetsOldWindow(order, buckets, records[..i], record, w);
        buckets := buckets[bucket := buckets[bucket] + [record]];
      }
    }
    assert records[..|records|] == records;
    result := [];
    for i := 0 to |order|
      invariant |result| == i
      invariant forall j :: 0 <= j < i ==> order[j] in buckets && buckets[order[j]] != [] &&
                                           result[j] == Averaged(buckets[order[j]], order[j])
    {
      assert order[i] in order && Holds(order[i], order, buckets, records, w);
      result := result + [Averaged(buckets[order[i]], order[i])];
    }
    SortedAveragesAggregate(result, order, buckets, records, w);
    result := SortBy(result, TimeOf);
    AggregatesAverageWindows(result, records, w);
  }

  // ---------- An aggregation in terms of times ----------

  /** The time lies in the window of width `w` that starts at `start`. */
  predicate Within(t: int, start: int, w: nat) {
    start <= t < start + w
  }

  function RecordsWithin(rs: seq<Record>, start: int, w: nat): seq<Record> {
    Filter(rs, (r: Record) => Within(r.timestamp, start, w))
  }

  /** The record stands for the group: chain of its first, block of its last, and floored averages. */
  predicate IsAverage(o: Record, group: seq<Record>) {
    && group != []
    && o.chainId == group[0].chainId && o.blockNumber == group[|group| - 1].blockNumber
    && IsFloor(o.baseFee, SumOf(group, (r: Record) => r.baseFee), |group|)
    && IsFloor(o.priorityFee, SumOf(group, (r: Record) => r.priorityFee), |group|)
    && IsFloor(o.gasUsed, SumOf(group, (r: Record) => r.gasUsed), |group|)
    && IsFloor(o.gasLimit, SumOf(group, (r: Record) => r.gasLimit), |group|)
  }

  predicate IsFloor(average: nat, total: int, count: nat) {
    average * count <= total < average * count + count
  }

  /**
   * Every record of the output starts a window on the grid of width `w` and averages exactly the records
   * within it; the windows stand in increasing order, and every record lies within exactly one of them.
   */
  ghost predicate AveragesWindows(out: seq<Record>, rs: seq<Record>, w: nat)
    requires w > 0
  {
    && (forall i :: 0 <= i < |out| ==> out[i].timestamp % w == 0 && IsAverage(out[i], RecordsWithin(rs, out[i].timestamp, w)))
    && (forall i, j :: 0 <= i < j < |out| ==> out[i].timestamp < out[j].timestamp)
    && (forall r :: r in rs ==> exists i :: 0 <= i < |out| && Within(r.timestamp, out[i].timestamp, w))
    && (forall r, i, j :: r in rs && 0 <= i < j < |out| ==>
          !(Within(r.timestamp, out[i].timestamp, w) && Within(r.timestamp, out[j].timestamp, w)))
  }

  /** The start of a time's window is the grid point at most `w` before it. */
  lemma BucketIsGridPoint(t: int, w: nat, b: int)
    requires w > 0
    ensures Bucket(t, w) == b <==> b % w == 0 && Within(t, b, w)
  {
    Division(t, w);
    Multiple(t / w, w);
    if b % w == 0 && Within(t, b, w) {
      MultipleOf(b, w);
      QuotientIsUnique(t, w, b / w);
    }
  }

  lemma {:induction false} GroupIsWithin(rs: seq<Record>, w: nat, b: int)
    requires w > 0 && b % w == 0
    ensures Group(rs, w, b) == RecordsWithin(rs, b, w)
  {
    if rs == [] {
    } else {
      var n := |rs| - 1;
      GroupIsWithin(rs[..n], w, b);
      BucketIsGridPoint(rs[n].timestamp, w, b);
      assert rs == rs[..n] + [rs[n]];
      FilterAppend(rs[..n], [rs[n]], (r: Record) => Within(r.timestamp, b, w));
    }
  }

  lemma AveragedIsAverage(group: seq<Record>, b: int)
    requires group != []
    ensures IsAverage(Averaged(group, b), group)
  {
    AverageBounds(BaseFee, group);
    AverageBounds(PriorityFee, group);
    AverageBounds(GasUsed, group);
    AverageBounds(GasLimit, group);
    SameSum(group, AmountOf(BaseFee), (r: Record) => r.baseFee);
    SameSum(group, AmountOf(PriorityFee), (r: Record) => r.priorityFee);
    SameSum(group, AmountOf(GasUsed), (r: Record) => r.gasUsed);
    SameSum(group, AmountOf(GasLimit), (r: Record) => r.gasLimit);
  }

  lemma OutputsAreOnGrid(out: seq<Record>, rs: seq<Record>, w: nat, o: Record)
    requires w > 0 && IsAggregate(out, rs, w) && o in out
    ensures o.timestamp % w == 0 && IsAverage(o, RecordsWithin(rs, o.timestamp, w))
  {
    var group := Group(rs, w, o.timestamp);
    GroupMember(rs, w, o.timestamp);
    assert group[0] in group;
    BucketIsGridPoint(group[0].timestamp, w, o.timestamp);
    GroupIsWithin(rs, w, o.timestamp);
    AveragedIsAverage(group, o.timestamp);
  }

  lemma AggregatesAverageWindows(out: seq<Record>, rs: seq<Record>, w: nat)
    requires w > 0 && IsAggregate(out, rs, w)
    ensures AveragesWindows(out, rs, w)
  {
    var keys := Keys(out, TimeOf);
    forall i | 0 <= i < |out|
      ensures out[i].timestamp % w == 0 && IsAverage(out[i], RecordsWithin(rs, out[i].timestamp, w))
    {
      OutputsAreOnGrid(out, rs, w, out[i]);
    }
    forall i, j | 0 <= i < j < |out|
      ensures out[i].timestamp < out[j].timestamp
    {
      assert keys[i] < keys[j];
    }
    forall r | r in rs
      ensures exists i :: 0 <= i < |out| && Within(r.timestamp, out[i].timestamp, w)
    {
      var b := Bucket(r.timestamp, w);
      GroupMember(rs, w, b);
      assert r in Group(rs, w, b);
      assert b in keys;
      var i :| 0 <= i < |keys| && keys[i] == b;
      BucketIsGridPoint(r.timestamp, w, b);
      assert Within(r.timestamp, out[i].timestamp, w);
    }
    forall r, i, j | r in rs && 0 <= i < j < |out|
      ensures !(Within(r.timestamp, out[i].timestamp, w) && Within(r.timestamp, out[j].timestamp, w))
    {
      BucketIsGridPoint(r.timestamp, w, out[i].timestamp);
      BucketIsGridPoint(r.timestamp, w, out[j].timestamp);
    }
  }

  // ---------- What follows for every aggregation ----------

  /** There is only one aggregation of given records. */
  lemma AggregateIsUnique(a: seq<Record>, b: seq<Record>, rs: seq<Record>, w: nat)
    requires w > 0 && IsAggregate(a, rs, w) && IsAggregate(b, rs, w)
    ensures a == b
  {
    IncreasingIsUnique(Keys(a, TimeOf), Keys(b, TimeOf));
    assert |a| == |b|;
    forall i | 0 <= i < |a|
      ensures a[i] == b[i]
    {
      assert Keys(a, TimeOf)[i] == Keys(b, TimeOf)[i];
      assert a[i] in a && b[i] in b;
    }
  }

  lemma {:induction false} GroupMember(rs: seq<Record>, w: nat, b: int)
    requires w > 0
    ensures forall r :: r in Group(rs, w, b) <==> r in rs && Bucket(r.timestamp, w) == b
    ensures forall r :: multiset(Group(rs, w, b))[r] == if Bucket(r.timestamp, w) == b then multiset(rs)[r] else 0
  {
    if rs == [] {
    } else {
      var n := |rs| - 1;
      GroupMember(rs[..n], w, b);
      assert rs == rs[..n] + [rs[n]];
    }
  }

  /** The windows' records one after the other. */
  function Regrouped(keys: seq<int>, rs: seq<Record>, w: nat): seq<Record>
    requires w > 0
  {
    if keys == [] then []
    else Regrouped(keys[..|keys| - 1], rs, w) + Group(rs, w, keys[|keys| - 1])
  }

  lemma {:induction false} RegroupedCounts(keys: seq<int>, rs: seq<Record>, w: nat, r: Record)
    requires w > 0 && Distinct(keys)
    ensures multiset(Regrouped(keys, rs, w))[r] == if Bucket(r.timestamp, w) in keys then multiset(rs)[r] else 0
  {
    if keys == [] {
    } else {
      var n := |keys| - 1;
      RegroupedCounts(keys[..n], rs, w, r);
      GroupMember(rs, w, keys[n]);
      assert keys == keys[..n] + [keys[n]];
    }
  }

  /** The windows of an aggregation partition the records: each record is in exactly one of them. */
  lemma WindowsPartition(out: seq<Record>, rs: seq<Record>, w: nat)
    requires w > 0 && IsAggregate(out, rs, w)
    ensures multiset(Regrouped(Keys(out, TimeOf), rs, w)) == multiset(rs)
  {
    var keys := Keys(out, TimeOf);
    forall r
      ensures multiset(Regrouped(keys, rs, w))[r] == multiset(rs)[r]
    {
      RegroupedCounts(keys, rs, w, r);
      GroupMember(rs, w, Bucket(r.timestamp, w));
      assert r in rs ==> r in Group(rs, w, Bucket(r.timestamp, w));
    }
  }

  /** What the averages stand for: each one times the number of records it averages. */
  function Restored(q: Quantity, out: seq<Record>, rs: seq<Record>, w: nat): nat
    requires w > 0
  {
    if out == [] then 0
    else
      var n := |out| - 1;
      Restored(q, out[..n], rs, w) + Amount(q, out[n]) * |Group(rs, w, out[n].timestamp)|
  }

  lemma AverageBounds(q: Quantity, rs: seq<Record>)
    requires rs != []
    ensures Average(q, rs) * |rs| <= Total(q, rs) < Average(q, rs) * |rs| + |rs|
  {
    Division(Total(q, rs), |rs|);
  }

  lemma AveragedAmount(q: Quantity, group: seq<Record>, b: int)
    requires group != []
    ensures Amount(q, Averaged(group, b)) == Average(q, group)
  {
  }

  lemma {:induction false} RestoredBounds(q: Quantity, out: seq<Record>, rs: seq<Record>, w: nat)
    requires w > 0
    requires forall o :: o in out ==> Group(rs, w, o.timestamp) != [] && o == Averaged(Group(rs, w, o.timestamp), o.timestamp)
    ensures Restored(q, out, rs, w) <= Total(q, Regrouped(Keys(out, TimeOf), rs, w))
    ensures Total(q, Regrouped(Keys(out, TimeOf), rs, w)) <= Restored(q, out, rs, w) + |Regrouped(Keys(out, TimeOf), rs, w)|
    ensures out != [] ==>
              Total(q, Regrouped(Keys(out, TimeOf), rs, w)) < Restored(q, out, rs, w) + |Regrouped(Keys(out, TimeOf), rs, w)|
  {
    if out == [] {
    } else {
      var n := |out| - 1;
      var o := out[n];
      assert o in out;
      RestoredBounds(q, out[..n], rs, w);
      assert Keys(out, TimeOf)[..n] == Keys(out[..n], TimeOf);
      var group := Group(rs, w, o.timestamp);
      SumAppend(Regrouped(Keys(out[..n], TimeOf), rs, w), group, AmountOf(q));
      AverageBounds(q, group);
      AveragedAmount(q, group, o.timestamp);
    }
  }

  /** Conservation: rounding down loses, over all windows together, less than one unit per record. */
  lemma AggregationConserves(q: Quantity, out: seq<Record>, rs: seq<Record>, w: nat)
    requires w > 0 && IsAggregate(out, rs, w)
    ensures Restored(q, out, rs, w) <= Total(q, rs)
    ensures rs != [] ==> Total(q, rs) < Restored(q, out, rs, w) + |rs|
  {
    var keys := Keys(out, TimeOf);
    RestoredBounds(q, out, rs, w);
    WindowsPartition(out, rs, w);
    SumOfPermutation(Regrouped(keys, rs, w), rs, AmountOf(q));
    assert |multiset(rs)| == |rs| && |multiset(Regrouped(keys, rs, w))| == |Regrouped(keys, rs, w)|;
    if rs != [] {
      var b := Bucket(rs[0].timestamp, w);
      GroupMember(rs, w, b);
      assert rs[0] in Group(rs, w, b);
      assert b in keys;
    }
  }

  lemma {:induction false} TotalWithin(q: Quantity, rs: seq<Record>, low: nat, high: nat)
    requires forall r :: r in rs ==> low <= Amount(q, r) <= high
    ensures low * |rs| <= Total(q, rs) <= high * |rs|
  {
    if rs == [] {
    } else {
      var n := |rs| - 1;
      TotalWithin(q, rs[..n], low, high);
      SumSnoc(rs[..n], rs[n], AmountOf(q));
      assert rs == rs[..n] + [rs[n]];
      OneMore(low, n);
      OneMore(high, n);
    }
  }

  /** Each averaged amount lies between the smallest and the largest of its own window. */
  lemma AveragesStayInside(q: Quantity, out: seq<Record>, rs: seq<Record>, w: nat, o: Record, low: nat, high: nat)
    requires w > 0 && IsAggregate(out, rs, w) && o in out
    requires forall r :: r in rs && Bucket(r.timestamp, w) == o.timestamp ==> low <= Amount(q, r) <= high
    ensures low <= Amount(q, o) <= high
  {
    var group := Group(rs, w, o.timestamp);
    GroupMember(rs, w, o.timestamp);
    TotalWithin(q, group, low, high);
    QuotientWithin(Total(q, group), |group|, low, high);
    AveragedAmount(q, group, o.timestamp);
  }

  lemma BucketOfBucket(t: int, w: nat)
    requires w > 0
    ensures Bucket(Bucket(t, w), w) == Bucket(t, w)
  {
    QuotientIsUnique(Bucket(t, w), w, t / w);
  }

  lemma {:induction false} GroupOfAggregate(out: seq<Record>, w: nat, b: int)
    requires w > 0 && Increasing(Keys(out, TimeOf))
    requires forall o :: o in out ==> Bucket(o.timestamp, w) == o.timestamp
    ensures b !in Keys(out, TimeOf) ==> Group(out, w, b) == []
    ensures forall i :: 0 <= i < |out| && out[i].timestamp == b ==> Group(out, w, b) == [out[i]]
  {
    if out == [] {
    } else {
      var n := |out| - 1;
      var front, keys := out[..n], Keys(out, TimeOf);
      assert Keys(front, TimeOf) == keys[..n];
      GroupOfAggregate(front, w, b);
      assert out[n] in out && keys[n] == out[n].timestamp;
      assert forall i :: 0 <= i < n ==> keys[i] < keys[n];
      assert forall i :: 0 <= i < n ==> front[i] == out[i];
    }
  }

  /** Aggregating an aggregation again changes nothing. */
  lemma AggregationIsIdempotent(out: seq<Record>, rs: seq<Record>, w: nat)
    requires w > 0 && IsAggregate(out, rs, w)
    ensures IsAggregate(out, out, w)
  {
    var keys := Keys(out, TimeOf);
    forall o | o in out
      ensures Bucket(o.timestamp, w) == o.timestamp
    {
      var group := Group(rs, w, o.timestamp);
      GroupMember(rs, w, o.timestamp);
      assert group[0] in group;
      BucketOfBucket(group[0].timestamp, w);
    }
    forall b
      ensures b in keys <==> Group(out, w, b) != []
      ensures forall o :: o in out && o.timestamp == b ==> Group(out, w, b) == [o]
    {
      GroupOfAggregate(out, w, b);
    }
    forall o | o in out
      ensures Group(out, w, o.timestamp) != [] && o == Averaged(Group(out, w, o.timestamp), o.timestamp)
    {
      LoneAverage(o);
    }
  }

  lemma LoneAverage(o: Record)
    ensures Averaged([o], o.timestamp) == o
  {
    forall q
      ensures Total(q, [o]) == Amount(q, o)
    {
      SumOfOne(o, AmountOf(q));
    }
  }

  // ---------- Exponential moving average ----------

  function Alpha(period: real): real
    requires period != -1.0
  {
    2.0 / (period + 1.0)
  }

  function Ema(values: seq<real>, alpha: real): real {
    if values == [] then 0.0
    else if |values| == 1 then values[0]
    else
      var n := |values| - 1;
      alpha * values[n] + (1.0 - alpha) * Ema(values[..n], alpha)
  }

  method ComputeEma(values: seq<real>, period: real) returns (emaVal: real)
    requires period != -1.0
    ensures emaVal == Ema(values, Alpha(period))
  {
    if values == [] {
      return 0.0;
    }
    var alpha := Alpha(period);
    emaVal := values[0];
    assert values[..1] == [values[0]];
    for i := 1 to |values|
      invariant emaVal == Ema(values[..i], alpha)
    {
      emaVal := alpha * values[i] + (1.0 - alpha) * emaVal;
      assert values[..i + 1][..i] == values[..i];
    }
    assert values[..|values|] == values;
  }

  lemma ProductIsNatural(a: real, b: real)
    requires a >= 0.0 && b >= 0.0
    ensures a * b >= 0.0
  {
  }

  lemma Shift(alpha: real, x: real, y: real, low: real)
    ensures alpha * x + (1.0 - alpha) * y == low + (alpha * (x - low) + (1.0 - alpha) * (y - low))
  {
  }

  lemma Negated(alpha: real, x: real, y: real)
    ensures alpha * (-x) + (1.0 - alpha) * (-y) == -(alpha * x + (1.0 - alpha) * y)
  {
  }

  lemma AboveLow(alpha: real, x: real, y: real, low: real)
    requires 0.0 <= alpha <= 1.0 && low <= x && low <= y
    ensures low <= alpha * x + (1.0 - alpha) * y
  {
    var a, b := alpha * (x - low), (1.0 - alpha) * (y - low);
    ProductIsNatural(alpha, x - low);
    ProductIsNatural(1.0 - alpha, y - low);
    Shift(alpha, x, y, low);
  }

  lemma BelowHigh(alpha: real, x: real, y: real, high: real)
    requires 0.0 <= alpha <= 1.0 && x <= high && y <= high
    ensures alpha * x + (1.0 - alpha) * y <= high
  {
    AboveLow(alpha, -x, -y, -high);
    Negated(alpha, x, y);
  }

  lemma {:induction false} EmaWithin(values: seq<real>, alpha: real, low: real, high: real)
    requires values != [] && 0.0 <= alpha <= 1.0
    requires Bounds(low, high, values)
    ensures low <= Ema(values, alpha) <= high
  {
    assert values[0] in values;
    if |values| > 1 {
      var n := |values| - 1;
      assert forall v :: v in values[..n] ==> v in values;
      EmaWithin(values[..n], alpha, low, high);
      assert values[n] in values;
      AboveLow(alpha, values[n], Ema(values[..n], alpha), low);
      BelowHigh(alpha, values[n], Ema(values[..n], alpha), high);
    }
  }

  predicate Bounds(low: real, high: real, values: seq<real>) {
    forall x :: x in values ==> low <= x <= high
  }

  ghost predicate WithinItsSeries(values: seq<real>, v: real) {
    forall low, high :: Bounds(low, high, values) ==> low <= v <= high
  }

  lemma SmoothingFactor(period: real)
    requires period != -1.0
    ensures 0.0 <= Alpha(period) <= 1.0 <==> period >= 1.0
  {
    var d := period + 1.0;
    var alpha := 2.0 / d;
    assert alpha * d == 2.0;
    if d >= 2.0 {
      if alpha > 1.0 {
        assert alpha * d > d;
      }
    }
  }

  lemma InsideFrom(period: real, values: seq<real>)
    requires period >= 1.0 && values != []
    ensures WithinItsSeries(values, Ema(values, Alpha(period)))
  {
    SmoothingFactor(period);
    forall low, high | Bounds(low, high, values)
      ensures low <= Ema(values, Alpha(period)) <= high
    {
      EmaWithin(values, Alpha(period), low, high);
    }
  }

  const RISE := [0.0, 1.0]

  lemma RiseIsAlpha(alpha: real)
    ensures Ema(RISE, alpha) == alpha
  {
    assert RISE[..1] == [0.0];
    assert alpha * 1.0 + (1.0 - alpha) * 0.0 == alpha;
  }

  lemma OutsideBelow(period: real)
    requires period != -1.0 && period < 1.0
    ensures !WithinItsSeries(RISE, Ema(RISE, Alpha(period)))
  {
    SmoothingFactor(period);
    RiseIsAlpha(Alpha(period));
    assert Bounds(0.0, 1.0, RISE);
  }

  /** The average of a series lies between the series' least and greatest value, for exactly the periods of at least 1. */
  lemma EmaStaysInside(period: real)
    requires period != -1.0
    ensures period >= 1.0 <==> forall values :: values != [] ==> WithinItsSeries(values, Ema(values, Alpha(period)))
  {
    if period >= 1.0 {
      forall values | values != []
        ensures WithinItsSeries(values, Ema(values, Alpha(period)))
      {
        InsideFrom(period, values);
      }
    } else {
      OutsideBelow(period);
      assert RISE != [];
    }
  }

  // ---------- How a value moves the average ----------

  lemma Distance(share: real, v: real, average: real)
    ensures share * v + (1.0 - share) * average == average + share * (v - average)
  {
  }

  /** The first value is the average; each later one moves it by the share 2 / (period + 1) of its distance from it. */
  lemma EmaMoves(values: seq<real>, v: real, period: real)
    requires period != -1.0
    ensures Ema([v], Alpha(period)) == v
    ensures values != [] ==>
              Ema(values + [v], Alpha(period)) - Ema(values, Alpha(period))
              == 2.0 / (period + 1.0) * (v - Ema(values, Alpha(period)))
  {
    if values != [] {
      assert (values + [v])[..|values|] == values;
      Distance(Alpha(period), v, Ema(values, Alpha(period)));
    }
  }
}
