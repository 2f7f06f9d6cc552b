/** The rolling history of gas snapshots and the monitoring step that raises alerts from it. */
module GasMonitor {
  import opened Sequences
  import opened SpikeRules
  import opened Wrappers

  datatype Alert = Alert(chainId: int, severity: Severity, spikeTypes: seq<SpikeType>, previousBaseFee: real, currentBaseFee: real,
                         previousPriorityFee: real, currentPriorityFee: real, percentageIncrease: real, volatility: real, timestamp: int)

  function AlertOf(e: Enriched, previousBaseFee: real, previousPriorityFee: real, severity: Severity, types: seq<SpikeType>): Alert {
    Alert(e.snapshot.chainId, severity, Unique(types), previousBaseFee, e.snapshot.baseFee, previousPriorityFee, e.snapshot.priorityFee,
          e.baseFeeChange, e.volatility, e.snapshot.timestamp)
  }

  lemma CapStep(all: seq<Snapshot>, s: Snapshot, cap: nat)
    requires cap >= 1
    ensures
      var longer := LastOf(all, cap) + [s];
      LastOf(all + [s], cap) == if |longer| > cap then longer[1..] else longer
  {
  }

  // ---------- A monitoring step ----------

  type Histories = map<int, seq<Snapshot>>

  function Grown(all: Histories, s: Snapshot): Histories {
    all[s.chainId := Get(all, s.chainId) + [s]]
  }

  /** The snapshot an alert compares with: the last but one of the chain that was asked for. */
  function ComparedWith(history: seq<Snapshot>, s: Snapshot): Snapshot {
    if |history| >= 2 then history[|history| - 2] else s
  }

  /** The snapshots of each chain, and the last alert of each chain that was asked for. */
  datatype Machine = Machine(all: Histories, alerts: map<int, Alert>)

  /** A chain that was asked for, and the snapshot its fetcher answered with. */
  datatype Answer = Answer(asked: int, s: Snapshot)

  function ResultsOf(all: Histories, custom: map<int, Config>, s: Snapshot, sqrt: real -> real): seq<ThresholdResult> {
    Fired(Enrich(Get(all, s.chainId), s, sqrt), EffectiveThresholds(custom, s.chainId), RULES)
  }

  function Process(m: Machine, custom: map<int, Config>, a: Answer, sqrt: real -> real): Machine {
    var e := Enrich(Get(m.all, a.s.chainId), a.s, sqrt);
    var results := ResultsOf(m.all, custom, a.s, sqrt);
    var all := Grown(m.all, a.s);
    var previous := ComparedWith(Get(all, a.asked), a.s);
    if results == [] then Machine(all, m.alerts)
    else
      Machine(all, m.alerts[a.asked := AlertOf(e, previous.baseFee, previous.priorityFee, HighestSeverity(results).value, SpikeTypes(results))])
  }

  // ---------- The services ----------

  class SpikeClassifier {
    /** The last snapshots of each chain, oldest first. */
    var history: map<int, seq<Snapshot>>
    var custom: map<int, Config>
    /** Every snapshot of each chain since its history was last cleared. */
    ghost var all: map<int, seq<Snapshot>>

    function HistoryOf(chainId: int): seq<Snapshot>
      reads this
    {
      if chainId in history then history[chainId] else []
    }

    ghost function AllOf(chainId: int): seq<Snapshot>
      reads this
    {
      Get(all, chainId)
    }

    ghost predicate Valid()
      reads this
    {
      forall c :: HistoryOf(c) == LastOf(AllOf(c), MAX_HISTORY_POINTS)
    }

    constructor ()
      ensures Valid() && forall c :: AllOf(c) == []
      ensures custom == map[]
    {
      history, custom, all := map[], map[], map[];
    }

    method AddSnapshot(s: Snapshot)
      requires Valid()
      modifies this`history, this`all
      ensures Valid()
      ensures all == Grown(old(all), s)
      ensures HistoryOf(s.chainId) == (if |AllOf(s.chainId)| <= 100 then AllOf(s.chainId) else AllOf(s.chainId)[|AllOf(s.chainId)| - 100..])
      ensures forall c :: AllOf(c) == if c == s.chainId then old(AllOf(c)) + [s] else old(AllOf(c))
    {
      CapStep(AllOf(s.chainId), s, MAX_HISTORY_POINTS);
      var buf := HistoryOf(s.chainId) + [s];
      if |buf| > MAX_HISTORY_POINTS {
        buf := buf[1..];
      }
      all := all[s.chainId := AllOf(s.chainId) + [s]];
      history := history[s.chainId := buf];
      assert forall c :: c != s.chainId ==> HistoryOf(c) == old(HistoryOf(c)) && AllOf(c) == old(AllOf(c));
    }

    method ClearHistory(chainId: int)
      requires Valid()
      modifies this`history, this`all
      ensures Valid()
      ensures forall c :: AllOf(c) == if c == chainId then [] else old(AllOf(c))
    {
      history, all := history - {chainId}, all - {chainId};
      assert forall c :: c != chainId ==> HistoryOf(c) == old(HistoryOf(c)) && AllOf(c) == old(AllOf(c));
    }

    method SetCustomThresholds(chainId: Option<int>, config: Config)
      modifies this`custom
      ensures custom == old(custom)[(if chainId.Some? then chainId.value else 0) := config]
      ensures chainId.Some? && chainId.value != 0 ==>
                forall c :: c != chainId.value ==> EffectiveThresholds(custom, c) == EffectiveThresholds(old(custom), c)
    {
      custom := custom[(if chainId.Some? then chainId.value else 0) := config];
    }

    /** The metrics of a snapshot are those of the whole history, although only its end is kept. */
    method EnrichSnapshot(s: Snapshot, sqrt: real -> real) returns (e: Enriched)
      requires Valid()
      ensures e == Enrich(AllOf(s.chainId), s, sqrt)
    {
      e := Enrich(HistoryOf(s.chainId), s, sqrt);
      CapIsInvisible(AllOf(s.chainId), s, sqrt, MAX_HISTORY_POINTS);
    }
  }

  class Monitor {
    const classifier: SpikeClassifier
    var lastAlerts: map<int, Alert>

    constructor (classifier: SpikeClassifier)
      ensures this.classifier == classifier && lastAlerts == map[]
    {
      this.classifier := classifier;
      lastAlerts := map[];
    }

    /** One monitoring step for a chain, on the snapshot its fetcher returned. */
    method ProcessChain(chainId: int, s: Snapshot, sqrt: real -> real)
      requires classifier.Valid()
      modifies classifier`history, classifier`all, this`lastAlerts
      ensures classifier.Valid()
      ensures forall c :: classifier.AllOf(c) == if c == s.chainId then old(classifier.AllOf(c)) + [s] else old(classifier.AllOf(c))
      ensures Machine(classifier.all, lastAlerts)
           == Process(Machine(old(classifier.all), old(lastAlerts)), classifier.custom, Answer(chainId, s), sqrt)
      ensures
        var results := Fired(Enrich(old(classifier.AllOf(chainId)), s, sqrt), EffectiveThresholds(classifier.custom, chainId), RULES);
        s.chainId == chainId && results != [] ==>
          chainId in lastAlerts && Explained(lastAlerts[chainId], Previous(old(classifier.AllOf(chainId)), s))
    {
      var e := classifier.EnrichSnapshot(s, sqrt);
      var t := EffectiveThresholds(classifier.custom, s.chainId);
      classifier.AddSnapshot(s);
      var results := Evaluate(e, t);
      var severity := HighestSeverity(results);
      if severity.None? {
        return;
      }
      var history := classifier.HistoryOf(chainId);
      var previous := ComparedWith(history, s);
      ghost var all := classifier.AllOf(chainId);
      assert history == LastOf(all, MAX_HISTORY_POINTS);
      assert previous == ComparedWith(all, s);
      EachTypeOnce(e, t);
      lastAlerts := lastAlerts[chainId := AlertOf(e, previous.baseFee, previous.priorityFee, severity.value, SpikeTypes(results))];
      assert s.chainId == chainId ==> previous == Previous(old(classifier.AllOf(chainId)), s);
    }
  }

  /** An alert names each spike type once, and its percentage is that of the step from its previous to its current fee. */
  ghost predicate Explained(a: Alert, previous: Snapshot) {
    && a.previousBaseFee == previous.baseFee && a.previousPriorityFee == previous.priorityFee
    && a.percentageIncrease == PercentageChange(a.previousBaseFee, a.currentBaseFee)
    && a.spikeTypes != []
    && Distinct(a.spikeTypes)
  }

  lemma RulesAreDistinct()
    ensures Distinct(RULES)
  {
  }

  lemma EachTypeOnce(e: Enriched, t: Thresholds)
    ensures var types := SpikeTypes(Fired(e, t, RULES));
            && Unique(types) == types
            && Distinct(types)
  {
    RulesAreDistinct();
    FiredTypesAreDistinct(e, t, RULES);
    UniqueOfDistinct(SpikeTypes(Fired(e, t, RULES)));
  }

  // ---------- When an alert compares with the right snapshot ----------

  /** Every snapshot is filed under its own chain. */
  ghost predicate Filed(all: Histories) {
    forall c, i :: c in all && 0 <= i < |all[c]| ==> all[c][i].chainId == c
  }

  /** Both fees an alert reports as previous are those the percentages are computed from. */
  predicate ComparesRight(asked: int, all: Histories, s: Snapshot) {
    var compared, previous := ComparedWith(Get(Grown(all, s), asked), s), Previous(Get(all, s.chainId), s);
    compared.baseFee == previous.baseFee && compared.priorityFee == previous.priorityFee
  }

  /** That is so for all histories and snapshots exactly when the fetcher answers for the chain it was asked for. */
  lemma ComparesRightExactly(asked: int, answered: int)
    ensures (forall all, s: Snapshot :: Filed(all) && s.chainId == answered ==> ComparesRight(asked, all, s)) <==> asked == answered
  {
    if asked != answered {
      var one, two := Snapshot(asked, 10.0, 1.0, 0), Snapshot(asked, 20.0, 2.0, 1);
      var all, s := map[asked := [one, two]], Snapshot(answered, 100.0, 3.0, 2);
      assert Filed(all) && !ComparesRight(asked, all, s);
    }
  }

  /** An alert's percentage is that of the step from its own previous to its own current fee. */
  predicate Consistent(a: Alert) {
    a.percentageIncrease == PercentageChange(a.previousBaseFee, a.currentBaseFee)
  }

  ghost predicate AllConsistent(alerts: map<int, Alert>) {
    forall c :: c in alerts ==> Consistent(alerts[c])
  }

  function After(custom: map<int, Config>, sqrt: real -> real, run: seq<Answer>): Machine {
    if run == [] then Machine(map[], map[])
    else Process(After(custom, sqrt, run[..|run| - 1]), custom, run[|run| - 1], sqrt)
  }

  /** The fetchers answer as the pairs of asked and answered chains allow. */
  ghost predicate Allowed(run: seq<Answer>, pairs: set<(int, int)>) {
    forall i :: 0 <= i < |run| ==> (run[i].asked, run[i].s.chainId) in pairs
  }

  lemma {:induction false} MatchingRunsAreConsistent(custom: map<int, Config>, sqrt: real -> real, run: seq<Answer>)
    requires forall i :: 0 <= i < |run| ==> run[i].asked == run[i].s.chainId
    ensures AllConsistent(After(custom, sqrt, run).alerts)
    decreases |run|
  {
    if run == [] {
    } else {
      var n := |run| - 1;
      MatchingRunsAreConsistent(custom, sqrt, run[..n]);
      var m, s := After(custom, sqrt, run[..n]), run[n].s;
      assert Get(Grown(m.all, s), s.chainId) == Get(m.all, s.chainId) + [s];
      assert ComparedWith(Get(Grown(m.all, s), s.chainId), s) == Previous(Get(m.all, s.chainId), s);
    }
  }

  lemma AfterSnoc(custom: map<int, Config>, sqrt: real -> real, run: seq<Answer>, a: Answer)
    ensures After(custom, sqrt, run + [a]) == Process(After(custom, sqrt, run), custom, a, sqrt)
  {
    assert (run + [a])[..|run|] == run;
  }

  /** A doubled base fee fires under the default thresholds. */
  lemma DoublingFires(all: Histories, s: Snapshot, sqrt: real -> real)
    requires Enrich(Get(all, s.chainId), s, sqrt).baseFeeChange == 100.0
    ensures ResultsOf(all, map[], s, sqrt) != []
  {
    var e, t := Enrich(Get(all, s.chainId), s, sqrt), EffectiveThresholds(map[], s.chainId);
    ThresholdSource(map[], s.chainId, BaseFeePercentage, Critical);
    assert ResultOf(e, t, RULES[0]).Some?;
  }

  /** Two answers for another chain raise an alert whose percentage is not its own. */
  lemma MismatchShows(asked: int, answered: int, sqrt: real -> real)
    requires asked != answered
    ensures
      var run := [Answer(asked, Snapshot(answered, 50.0, 1.0, 0)), Answer(asked, Snapshot(answered, 100.0, 1.0, 1))];
      !AllConsistent(After(map[], sqrt, run).alerts)
  {
    var s, s' := Snapshot(answered, 50.0, 1.0, 0), Snapshot(answered, 100.0, 1.0, 1);
    var first, second := Answer(asked, s), Answer(asked, s');
    AfterSnoc(map[], sqrt, [], first);
    AfterSnoc(map[], sqrt, [first], second);
    assert [] + [first] == [first] && [first] + [second] == [first, second] && [] + [s] == [s];
    var m, after := After(map[], sqrt, [first]), After(map[], sqrt, [first, second]);
    assert m.all == map[answered := [s]];
    DoublingFires(m.all, s', sqrt);
    assert Get(Grown(m.all, s'), asked) == [];
    assert asked in after.alerts && !Consistent(after.alerts[asked]);
  }

  /** The alerts of all runs are consistent exactly when no fetcher ever answers for another chain. */
  lemma AlertsAreConsistentExactly(pairs: set<(int, int)>, sqrt: real -> real)
    ensures (forall custom, run :: Allowed(run, pairs) ==> AllConsistent(After(custom, sqrt, run).alerts))
       <==> (forall p :: p in pairs ==> p.0 == p.1)
  {
    if forall p :: p in pairs ==> p.0 == p.1 {
      forall custom, run | Allowed(run, pairs)
        ensures AllConsistent(After(custom, sqrt, run).alerts)
      {
        MatchingRunsAreConsistent(custom, sqrt, run);
      }
    } else {
      var p :| p in pairs && p.0 != p.1;
      MismatchShows(p.0, p.1, sqrt);
      var run := [Answer(p.0, Snapshot(p.1, 50.0, 1.0, 0)), Answer(p.0, Snapshot(p.1, 100.0, 1.0, 1))];
      assert Allowed(run, pairs);
    }
  }

  // ---------- What an alert says ----------

  /** Some threshold of the rule is reached. */
  ghost predicate Fires(e: Enriched, t: Thresholds, rule: SpikeType) {
    exists s :: Reaches(e, t, rule, s)
  }

  lemma FiresExactly(e: Enriched, t: Thresholds, rule: SpikeType)
    ensures Fires(e, t, rule) <==> ResultOf(e, t, rule).Some?
  {
    if ResultOf(e, t, rule).Some? {
      assert Reaches(e, t, rule, LevelOf(e, t, rule).value);
    }
  }

  lemma {:induction false} TypesOf(results: seq<ThresholdResult>)
    ensures forall rule :: rule in SpikeTypes(results) <==> exists r :: r in results && r.spikeType == rule
  {
    if results == [] {
    } else {
      TypesOf(results[1..]);
      assert forall r :: r in results <==> r == results[0] || r in results[1..];
    }
  }

  lemma FiredTypes(e: Enriched, t: Thresholds, rule: SpikeType)
    ensures rule in Unique(SpikeTypes(Fired(e, t, RULES))) <==> Fires(e, t, rule)
  {
    var results := Fired(e, t, RULES);
    FiresExactly(e, t, rule);
    FiredMember(e, t, RULES);
    RulesInOrder();
    TypesOf(results);
    if Fires(e, t, rule) {
      assert ResultOf(e, t, rule).value in results;
    }
  }

  /** The alert carries the snapshot's data and metrics, the rules that fire, and the highest severity any of them reaches. */
  ghost predicate Reports(a: Alert, e: Enriched, t: Thresholds) {
    && a.chainId == e.snapshot.chainId && a.timestamp == e.snapshot.timestamp
    && a.currentBaseFee == e.snapshot.baseFee && a.currentPriorityFee == e.snapshot.priorityFee
    && a.percentageIncrease == e.baseFeeChange && a.volatility == e.volatility
    && (forall rule :: rule in a.spikeTypes <==> Fires(e, t, rule))
    && (exists rule :: Reaches(e, t, rule, a.severity))
    && (forall rule, higher :: Rank(higher) > Rank(a.severity) ==> !Reaches(e, t, rule, higher))
  }

  /** A step stores an alert under the chain asked for exactly if some rule fires on the snapshot, and what the alert says. */
  lemma AlertMeaning(m: Machine, custom: map<int, Config>, a: Answer, sqrt: real -> real)
    ensures var e, t := Enrich(Get(m.all, a.s.chainId), a.s, sqrt), EffectiveThresholds(custom, a.s.chainId);
            var alerts := Process(m, custom, a, sqrt).alerts;
            && ((forall rule :: !Fires(e, t, rule)) ==> alerts == m.alerts)
            && ((exists rule :: Fires(e, t, rule)) ==>
                  && a.asked in alerts && alerts == m.alerts[a.asked := alerts[a.asked]]
                  && Reports(alerts[a.asked], e, t))
  {
    var e, t := Enrich(Get(m.all, a.s.chainId), a.s, sqrt), EffectiveThresholds(custom, a.s.chainId);
    var results := Fired(e, t, RULES);
    forall rule
      ensures rule in Unique(SpikeTypes(results)) <==> Fires(e, t, rule)
    {
      FiredTypes(e, t, rule);
    }
    if results == [] {
      assert SpikeTypes(results) == [];
    } else {
      SeverityMeaning(e, t, HighestSeverity(results).value);
      assert SpikeTypes(results)[0] in SpikeTypes(results);
    }
  }
}
