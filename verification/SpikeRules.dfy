/** Gas spike detection: thresholds, the metrics derived from a chain's history, and the rules evaluated on them. */
module SpikeRules {
  import opened Sequences
  import opened Wrappers

  datatype Severity = Info | Warning | Critical

  datatype SpikeType = BaseFeePercentage | AbsoluteThreshold | VolatilityIndex | PriorityFeeSurge

  datatype Snapshot = Snapshot(chainId: int, baseFee: real, priorityFee: real, timestamp: int)

  datatype Enriched = Enriched(snapshot: Snapshot, averageBaseFee: real, averagePriorityFee: real, volatility: real,
                               baseFeeChange: real, priorityFeeChange: real)

  datatype ThresholdResult = ThresholdResult(spikeType: SpikeType, severity: Severity, value: real, threshold: real,
                                             percentageIncrease: Option<real>)

  datatype Band = Band(info: real, warning: real, critical: real)

  datatype Thresholds = Thresholds(baseFeePercentage: Band, absoluteGwei: Band, volatilityIndex: Band, priorityFeePercentage: Band)

  const DEFAULT_THRESHOLDS :=
    Thresholds(Band(15.0, 30.0, 40.0), Band(50.0, 80.0, 100.0), Band(0.40, 0.60, 0.75), Band(30.0, 70.0, 100.0))

  const MOVING_AVERAGE_WINDOW: nat := 10
  const MAX_HISTORY_POINTS: nat := 100

  // ---------- Thresholds ----------

  /** One threshold of one rule; a configuration may leave it out, or hold it without a value. */
  datatype Setting = Setting(rule: SpikeType, severity: Severity)

  type Config = map<Setting, Option<real>>

  function BandOf(t: Thresholds, rule: SpikeType): Band {
    match rule
    case BaseFeePercentage => t.baseFeePercentage
    case AbsoluteThreshold => t.absoluteGwei
    case VolatilityIndex => t.volatilityIndex
    case PriorityFeeSurge => t.priorityFeePercentage
  }

  function Threshold(band: Band, s: Severity): real {
    match s
    case Info => band.info
    case Warning => band.warning
    case Critical => band.critical
  }

  function Configured(merged: Config, setting: Setting): real {
    if setting in merged && merged[setting].Some? then merged[setting].value
    else Threshold(BandOf(DEFAULT_THRESHOLDS, setting.rule), setting.severity)
  }

  function EffectiveBand(merged: Config, rule: SpikeType): Band {
    Band(Configured(merged, Setting(rule, Info)), Configured(merged, Setting(rule, Warning)), Configured(merged, Setting(rule, Critical)))
  }

  function ConfigOf(custom: map<int, Config>, chainId: int): Config {
    if chainId in custom then custom[chainId] else map[]
  }

  /** The thresholds of a chain: its own settings over the global ones (kept under chain 0) over the defaults. */
  function EffectiveThresholds(custom: map<int, Config>, chainId: int): Thresholds {
    var merged := ConfigOf(custom, 0) + ConfigOf(custom, chainId);
    Thresholds(EffectiveBand(merged, BaseFeePercentage), EffectiveBand(merged, AbsoluteThreshold),
               EffectiveBand(merged, VolatilityIndex), EffectiveBand(merged, PriorityFeeSurge))
  }

  /** Which of the three sources a threshold comes from. An own setting without a value hides the global one. */
  lemma ThresholdSource(custom: map<int, Config>, chainId: int, rule: SpikeType, s: Severity)
    ensures
      var own, shared, setting := ConfigOf(custom, chainId), ConfigOf(custom, 0), Setting(rule, s);
      var default := Threshold(BandOf(DEFAULT_THRESHOLDS, rule), s);
      Threshold(BandOf(EffectiveThresholds(custom, chainId), rule), s)
      == if setting in own then (if own[setting].Some? then own[setting].value else default)
         else if setting in shared && shared[setting].Some? then shared[setting].value
         else default
  {
  }

  // ---------- Rules ----------

  function Rank(s: Severity): nat {
    match s
    case Info => 1
    case Warning => 2
    case Critical => 3
  }

  function Reading(e: Enriched, rule: SpikeType): real {
    match rule
    case BaseFeePercentage => e.baseFeeChange
    case AbsoluteThreshold => e.snapshot.baseFee
    case VolatilityIndex => e.volatility
    case PriorityFeeSurge => e.priorityFeeChange
  }

  function ResolveSeverity(value: real, band: Band): Option<Severity> {
    if value >= band.critical then Some(Critical)
    else if value >= band.warning then Some(Warning)
    else if value >= band.info then Some(Info)
    else None
  }

  function LevelOf(e: Enriched, t: Thresholds, rule: SpikeType): Option<Severity> {
    ResolveSeverity(Reading(e, rule), BandOf(t, rule))
  }

  function ResultOf(e: Enriched, t: Thresholds, rule: SpikeType): Option<ThresholdResult> {
    var level := LevelOf(e, t, rule);
    if level.None? then None
    else Some(ThresholdResult(rule, level.value, Reading(e, rule), Threshold(BandOf(t, rule), level.value),
                              if rule == BaseFeePercentage || rule == PriorityFeeSurge then Some(Reading(e, rule)) else None))
  }

  const RULES: seq<SpikeType> := [BaseFeePercentage, AbsoluteThreshold, VolatilityIndex, PriorityFeeSurge]

  /** The results of the rules that fire, in the order of the rules. */
  function Fired(e: Enriched, t: Thresholds, rules: seq<SpikeType>): seq<ThresholdResult> {
    if rules == [] then []
    else
      var rest := Fired(e, t, rules[1..]);
      var result := ResultOf(e, t, rules[0]);
      if result.Some? then [result.value] + rest else rest
  }

  function SpikeTypes(results: seq<ThresholdResult>): (types: seq<SpikeType>)
    ensures |types| == |results|
  {
    if results == [] then [] else [results[0].spikeType] + SpikeTypes(results[1..])
  }

  /** The spike types of the results of at least the given severity. */
  function TypesFrom(results: seq<ThresholdResult>, least: Severity): seq<SpikeType> {
    if results == [] then []
    else if Rank(results[0].severity) >= Rank(least) then [results[0].spikeType] + TypesFrom(results[1..], least)
    else TypesFrom(results[1..], least)
  }

  function Reduce(results: seq<ThresholdResult>, highest: Severity): Severity {
    if results == [] then highest
    else Reduce(results[1..], if Rank(results[0].severity) > Rank(highest) then results[0].severity else highest)
  }

  function HighestSeverity(results: seq<ThresholdResult>): Option<Severity> {
    if results == [] then None else Some(Reduce(results, results[0].severity))
  }

  /** The reading of a rule reaches the threshold of a severity. */
  predicate Reaches(e: Enriched, t: Thresholds, rule: SpikeType, s: Severity) {
    Reading(e, rule) >= Threshold(BandOf(t, rule), s)
  }

  method Evaluate(e: Enriched, t: Thresholds) returns (results: seq<ThresholdResult>)
    ensures results == Fired(e, t, RULES)
  {
    FiredByRule(e, t);
    results := [];
    var r := ResultOf(e, t, BaseFeePercentage);
    if r.Some? { results := results + [r.value]; }
    r := ResultOf(e, t, AbsoluteThreshold);
    if r.Some? { results := results + [r.value]; }
    r := ResultOf(e, t, VolatilityIndex);
    if r.Some? { results := results + [r.value]; }
    r := ResultOf(e, t, PriorityFeeSurge);
    if r.Some? { results := results + [r.value]; }
  }

  function AsSeq<T>(o: Option<T>): seq<T> {
    if o.Some? then [o.value] else []
  }

  lemma FiredByRule(e: Enriched, t: Thresholds)
    ensures Fired(e, t, RULES) ==
            AsSeq(ResultOf(e, t, BaseFeePercentage)) + AsSeq(ResultOf(e, t, AbsoluteThreshold))
            + AsSeq(ResultOf(e, t, VolatilityIndex)) + AsSeq(ResultOf(e, t, PriorityFeeSurge))
  {
    RulesInOrder();
    assert Fired(e, t, [PriorityFeeSurge]) == AsSeq(ResultOf(e, t, PriorityFeeSurge));
    FiredFirst(e, t, [VolatilityIndex, PriorityFeeSurge]);
    FiredFirst(e, t, [AbsoluteThreshold, VolatilityIndex, PriorityFeeSurge]);
    FiredFirst(e, t, RULES);
  }

  lemma FiredFirst(e: Enriched, t: Thresholds, rules: seq<SpikeType>)
    requires rules != []
    ensures Fired(e, t, rules) == AsSeq(ResultOf(e, t, rules[0])) + Fired(e, t, rules[1..])
  {
  }

  lemma RulesInOrder()
    ensures RULES[1..] == [AbsoluteThreshold, VolatilityIndex, PriorityFeeSurge]
    ensures [AbsoluteThreshold, VolatilityIndex, PriorityFeeSurge][1..] == [VolatilityIndex, PriorityFeeSurge]
    ensures [VolatilityIndex, PriorityFeeSurge][1..] == [PriorityFeeSurge]
    ensures [PriorityFeeSurge][1..] == []
    ensures forall rule: SpikeType :: rule in RULES
  {
    forall rule: SpikeType
      ensures rule in RULES
    {
      match rule
      case BaseFeePercentage => assert RULES[0] == rule;
      case AbsoluteThreshold => assert RULES[1] == rule;
      case VolatilityIndex => assert RULES[2] == rule;
      case PriorityFeeSurge => assert RULES[3] == rule;
    }
  }

  /** The second implementation: one running maximum over the four readings. */
  method ClassifySeverity(e: Enriched, t: Thresholds) returns (highest: Option<Severity>)
    ensures highest == HighestSeverity(Fired(e, t, RULES))
  {
    highest := None;
    var bfPct := e.baseFeeChange;
    if bfPct >= t.baseFeePercentage.critical {
      highest := Elevate(highest, Some(Critical));
    } else if bfPct >= t.baseFeePercentage.warning {
      highest := Elevate(highest, Some(Warning));
    } else if bfPct >= t.baseFeePercentage.info {
      highest := Elevate(highest, Some(Info));
    }
    ghost var a := Elevate(None, ResolveSeverity(bfPct, t.baseFeePercentage));
    assert highest == a;
    var bf := e.snapshot.baseFee;
    if bf >= t.absoluteGwei.critical {
      highest := Elevate(highest, Some(Critical));
    } else if bf >= t.absoluteGwei.warning {
      highest := Elevate(highest, Some(Warning));
    } else if bf >= t.absoluteGwei.info {
      highest := Elevate(highest, Some(Info));
    }
    ghost var b := Elevate(a, ResolveSeverity(bf, t.absoluteGwei));
    assert highest == b;
    var vi := e.volatility;
    if vi >= t.volatilityIndex.critical {
      highest := Elevate(highest, Some(Critical));
    } else if vi >= t.volatilityIndex.warning {
      highest := Elevate(highest, Some(Warning));
    } else if vi >= t.volatilityIndex.info {
      highest := Elevate(highest, Some(Info));
    }
    ghost var c := Elevate(b, ResolveSeverity(vi, t.volatilityIndex));
    assert highest == c;
    var pfPct := e.priorityFeeChange;
    if pfPct >= t.priorityFeePercentage.critical {
      highest := Elevate(highest, Some(Critical));
    } else if pfPct >= t.priorityFeePercentage.warning {
      highest := Elevate(highest, Some(Warning));
    } else if pfPct >= t.priorityFeePercentage.info {
      highest := Elevate(highest, Some(Info));
    }
    assert highest == Elevate(c, ResolveSeverity(pfPct, t.priorityFeePercentage));
    MaximumOfReadings(e, t);
  }

  function Elevate(highest: Option<Severity>, s: Option<Severity>): Option<Severity> {
    if s.Some? && (highest.None? || Rank(s.value) > Rank(highest.value)) then s else highest
  }

  function ElevateAll(highest: Option<Severity>, results: seq<ThresholdResult>): Option<Severity>
    decreases results
  {
    if results == [] then highest else ElevateAll(Elevate(highest, Some(results[0].severity)), results[1..])
  }

  lemma {:induction false} ElevateIsReduce(highest: Severity, results: seq<ThresholdResult>)
    ensures ElevateAll(Some(highest), results) == Some(Reduce(results, highest))
    decreases results
  {
    if results == [] {
    } else {
      var r := results[0].severity;
      ElevateIsReduce(if Rank(r) > Rank(highest) then r else highest, results[1..]);
    }
  }

  lemma {:induction false} ElevateLevels(highest: Option<Severity>, e: Enriched, t: Thresholds, rules: seq<SpikeType>)
    requires rules != []
    ensures ElevateAll(highest, Fired(e, t, rules)) == ElevateAll(Elevate(highest, LevelOf(e, t, rules[0])), Fired(e, t, rules[1..]))
  {
    if ResultOf(e, t, rules[0]).Some? {
      assert Fired(e, t, rules)[1..] == Fired(e, t, rules[1..]);
    }
  }

  lemma RunningMaximum(e: Enriched, t: Thresholds)
    ensures HighestSeverity(Fired(e, t, RULES)) ==
            Elevate(Elevate(Elevate(Elevate(None, LevelOf(e, t, BaseFeePercentage)), LevelOf(e, t, AbsoluteThreshold)),
                            LevelOf(e, t, VolatilityIndex)), LevelOf(e, t, PriorityFeeSurge))
  {
    var results := Fired(e, t, RULES);
    if results != [] {
      ElevateIsReduce(results[0].severity, results[1..]);
    }
    assert ElevateAll(None, results) == HighestSeverity(results);
    RulesInOrder();
    ElevateLevels(None, e, t, RULES);
    var a := Elevate(None, LevelOf(e, t, BaseFeePercentage));
    ElevateLevels(a, e, t, [AbsoluteThreshold, VolatilityIndex, PriorityFeeSurge]);
    var b := Elevate(a, LevelOf(e, t, AbsoluteThreshold));
    ElevateLevels(b, e, t, [VolatilityIndex, PriorityFeeSurge]);
    ElevateLevels(Elevate(b, LevelOf(e, t, VolatilityIndex)), e, t, [PriorityFeeSurge]);
  }

  lemma MaximumOfReadings(e: Enriched, t: Thresholds)
    ensures HighestSeverity(Fired(e, t, RULES)) ==
            Elevate(Elevate(Elevate(Elevate(None,
              ResolveSeverity(e.baseFeeChange, t.baseFeePercentage)), ResolveSeverity(e.snapshot.baseFee, t.absoluteGwei)),
              ResolveSeverity(e.volatility, t.volatilityIndex)), ResolveSeverity(e.priorityFeeChange, t.priorityFeePercentage))
  {
    RunningMaximum(e, t);
  }

  /** The second implementation of the list of spike types, for any least severity. */
  method TriggeredSpikeTypes(e: Enriched, t: Thresholds, least: Severity) returns (triggered: seq<SpikeType>)
    ensures triggered == TypesFrom(Fired(e, t, RULES), least)
    ensures least == Info ==> triggered == SpikeTypes(Fired(e, t, RULES))
  {
    triggered := Check([], ValueToSeverity(e.baseFeeChange, t.baseFeePercentage), BaseFeePercentage, least);
    triggered := Check(triggered, ValueToSeverity(e.snapshot.baseFee, t.absoluteGwei), AbsoluteThreshold, least);
    triggered := Check(triggered, ValueToSeverity(e.volatility, t.volatilityIndex), VolatilityIndex, least);
    triggered := Check(triggered, ValueToSeverity(e.priorityFeeChange, t.priorityFeePercentage), PriorityFeeSurge, least);
    TypesByRule(e, t, least);
    AllAreInfo(Fired(e, t, RULES));
  }

  /** The classifier's own reading of a band: the severest threshold reached, looked for from the severest down. */
  function ValueToSeverity(value: real, thresholds: Band): Option<Severity> {
    if value >= thresholds.critical then Some(Critical)
    else if value >= thresholds.warning then Some(Warning)
    else if value >= thresholds.info then Some(Info)
    else None
  }

  function Check(triggered: seq<SpikeType>, s: Option<Severity>, rule: SpikeType, least: Severity): seq<SpikeType> {
    if s.Some? && Rank(s.value) >= Rank(least) then triggered + [rule] else triggered
  }

  lemma TypesOfFirst(triggered: seq<SpikeType>, e: Enriched, t: Thresholds, rules: seq<SpikeType>, least: Severity)
    requires rules != []
    ensures triggered + TypesFrom(Fired(e, t, rules), least)
         == Check(triggered, LevelOf(e, t, rules[0]), rules[0], least) + TypesFrom(Fired(e, t, rules[1..]), least)
  {
    if ResultOf(e, t, rules[0]).Some? {
      assert Fired(e, t, rules)[1..] == Fired(e, t, rules[1..]);
    }
  }

  lemma TypesByRule(e: Enriched, t: Thresholds, least: Severity)
    ensures TypesFrom(Fired(e, t, RULES), least) ==
            Check(Check(Check(Check([], LevelOf(e, t, BaseFeePercentage), BaseFeePercentage, least),
                              LevelOf(e, t, AbsoluteThreshold), AbsoluteThreshold, least),
                        LevelOf(e, t, VolatilityIndex), VolatilityIndex, least),
                  LevelOf(e, t, PriorityFeeSurge), PriorityFeeSurge, least)
  {
    RulesInOrder();
    var all := TypesFrom(Fired(e, t, RULES), least);
    assert [] + all == all;
    TypesOfFirst([], e, t, RULES, least);
    var a := Check([], LevelOf(e, t, BaseFeePercentage), BaseFeePercentage, least);
    TypesOfFirst(a, e, t, [AbsoluteThreshold, VolatilityIndex, PriorityFeeSurge], least);
    var b := Check(a, LevelOf(e, t, AbsoluteThreshold), AbsoluteThreshold, least);
    TypesOfFirst(b, e, t, [VolatilityIndex, PriorityFeeSurge], least);
    var c := Check(b, LevelOf(e, t, VolatilityIndex), VolatilityIndex, least);
    TypesOfFirst(c, e, t, [PriorityFeeSurge], least);
    var d := Check(c, LevelOf(e, t, PriorityFeeSurge), PriorityFeeSurge, least);
    assert d + [] == d;
  }

  lemma AllAreInfo(results: seq<ThresholdResult>)
    ensures TypesFrom(results, Info) == SpikeTypes(results)
  {
  }

  // ---------- What a classification means ----------

  lemma ReduceIsMaximum(results: seq<ThresholdResult>, highest: Severity)
    ensures
      var top := Reduce(results, highest);
      && (top == highest || exists r :: r in results && r.severity == top)
      && Rank(top) >= Rank(highest)
      && forall r :: r in results ==> Rank(r.severity) <= Rank(top)
  {
    if results != [] {
      var r := results[0].severity;
      ReduceIsMaximum(results[1..], if Rank(r) > Rank(highest) then r else highest);
      assert results == [results[0]] + results[1..];
    }
  }

  lemma {:induction false} FiredMember(e: Enriched, t: Thresholds, rules: seq<SpikeType>)
    ensures forall r :: r in Fired(e, t, rules) ==> r.spikeType in rules && ResultOf(e, t, r.spikeType) == Some(r)
    ensures forall rule :: rule in rules && ResultOf(e, t, rule).Some? ==> ResultOf(e, t, rule).value in Fired(e, t, rules)
  {
    if rules == [] {
    } else {
      FiredMember(e, t, rules[1..]);
      assert rules == [rules[0]] + rules[1..];
    }
  }

  /** A snapshot has a severity exactly if some reading reaches its threshold and none reaches a higher one. */
  lemma SeverityMeaning(e: Enriched, t: Thresholds, s: Severity)
    ensures HighestSeverity(Fired(e, t, RULES)) == Some(s)
       <==> ((exists rule :: Reaches(e, t, rule, s)) && forall rule, higher :: Rank(higher) > Rank(s) ==> !Reaches(e, t, rule, higher))
  {
    var results := Fired(e, t, RULES);
    FiredMember(e, t, RULES);
    RulesInOrder();
    if results != [] {
      var top := Reduce(results, results[0].severity);
      ReduceIsMaximum(results, results[0].severity);
      var r :| r in results && r.severity == top;
      assert Reaches(e, t, r.spikeType, top);
      forall rule, higher | Reaches(e, t, rule, higher)
        ensures Rank(higher) <= Rank(top)
      {
        assert LevelOf(e, t, rule).Some? && Rank(LevelOf(e, t, rule).value) >= Rank(higher);
        assert ResultOf(e, t, rule).value in results;
      }
    } else {
      forall rule, any
        ensures !Reaches(e, t, rule, any)
      {
        assert ResultOf(e, t, rule).None?;
      }
    }
  }

  lemma {:induction false} FiredTypesAreDistinct(e: Enriched, t: Thresholds, rules: seq<SpikeType>)
    requires Distinct(rules)
    ensures forall x :: x in SpikeTypes(Fired(e, t, rules)) ==> x in rules
    ensures Distinct(SpikeTypes(Fired(e, t, rules)))
  {
    if rules == [] {
    } else {
      FiredTypesAreDistinct(e, t, rules[1..]);
      var types, rest := SpikeTypes(Fired(e, t, rules)), SpikeTypes(Fired(e, t, rules[1..]));
      assert rules == [rules[0]] + rules[1..];
      if ResultOf(e, t, rules[0]).Some? {
        assert Fired(e, t, rules)[1..] == Fired(e, t, rules[1..]);
        assert types == [rules[0]] + rest;
        assert rules[0] !in rest;
      }
    }
  }

  // ---------- Metrics of a history ----------

  function Sum(values: seq<real>): real {
    if values == [] then 0.0 else values[0] + Sum(values[1..])
  }

  function SquaredDeviations(values: seq<real>, mean: real): real {
    if values == [] then 0.0
    else (values[0] - mean) * (values[0] - mean) + SquaredDeviations(values[1..], mean)
  }

  function Mean(values: seq<real>): real {
    if values == [] then 0.0 else Sum(values) / |values| as real
  }

  function BaseFees(s: seq<Snapshot>): (fees: seq<real>)
    ensures |fees| == |s| && forall i :: 0 <= i < |s| ==> fees[i] == s[i].baseFee
  {
    seq(|s|, i requires 0 <= i < |s| => s[i].baseFee)
  }

  function PriorityFees(s: seq<Snapshot>): seq<real> {
    seq(|s|, i requires 0 <= i < |s| => s[i].priorityFee)
  }

  /** The volatility of a series; the square root is a parameter. */
  function Volatility(fees: seq<real>, sqrt: real -> real): real {
    if |fees| < 2 || Mean(fees) == 0.0 then 0.0
    else
      var cv := sqrt(SquaredDeviations(fees, Mean(fees)) / |fees| as real) / Mean(fees);
      if cv < 1.0 then cv else 1.0
  }

  function LastOf<T>(s: seq<T>, n: nat): seq<T> {
    if |s| <= n then s else s[|s| - n..]
  }

  function PercentageChange(previous: real, current: real): real {
    if previous > 0.0 then (current - previous) / previous * 100.0 else 0.0
  }

  function Previous(history: seq<Snapshot>, s: Snapshot): Snapshot {
    if history == [] then s else history[|history| - 1]
  }

  /** The metrics of a snapshot, given its chain's history before it. */
  function Enrich(history: seq<Snapshot>, s: Snapshot, sqrt: real -> real): Enriched {
    var window := LastOf(history, MOVING_AVERAGE_WINDOW);
    var previous := Previous(history, s);
    Enriched(s, Mean(BaseFees(window)), Mean(PriorityFees(window)), Volatility(BaseFees(window), sqrt),
             PercentageChange(previous.baseFee, s.baseFee), PercentageChange(previous.priorityFee, s.priorityFee))
  }

  /** Keeping only the last points of the history, at least the window's, changes no metric. */
  lemma CapIsInvisible(history: seq<Snapshot>, s: Snapshot, sqrt: real -> real, cap: nat)
    requires cap >= MOVING_AVERAGE_WINDOW
    ensures Enrich(LastOf(history, cap), s, sqrt) == Enrich(history, s, sqrt)
  {
    assert LastOf(LastOf(history, cap), MOVING_AVERAGE_WINDOW) == LastOf(history, MOVING_AVERAGE_WINDOW);
  }

  ghost predicate IsSqrt(sqrt: real -> real) {
    forall x :: x >= 0.0 ==> sqrt(x) >= 0.0 && sqrt(x) * sqrt(x) == x
  }

  lemma SquareIsNatural(x: real)
    ensures x * x >= 0.0 && (x * x == 0.0 <==> x == 0.0)
  {
    if x != 0.0 {
      assert x * x / x == x;
    }
  }

  lemma {:induction false} DeviationsVanish(values: seq<real>, mean: real)
    ensures SquaredDeviations(values, mean) >= 0.0
    ensures SquaredDeviations(values, mean) == 0.0 <==> forall v :: v in values ==> v == mean
  {
    if values == [] {
    } else {
      DeviationsVanish(values[1..], mean);
      var d := values[0] - mean;
      SquareIsNatural(d);
      assert SquaredDeviations(values, mean) == d * d + SquaredDeviations(values[1..], mean);
      assert values[0] in values && forall v :: v in values <==> v == values[0] || v in values[1..];
    }
  }

  lemma {:induction false} SumOfFees(values: seq<real>)
    requires forall v :: v in values ==> v >= 0.0
    ensures Sum(values) >= 0.0
    ensures Sum(values) == 0.0 <==> forall v :: v in values ==> v == 0.0
  {
    if values == [] {
    } else {
      assert values[0] in values && forall v :: v in values <==> v == values[0] || v in values[1..];
      SumOfFees(values[1..]);
    }
  }

  lemma {:induction false} SumOfEqual(values: seq<real>, x: real)
    requires forall v :: v in values ==> v == x
    ensures Sum(values) == |values| as real * x
  {
    if values == [] {
    } else {
      assert values[0] in values && forall v :: v in values <==> v == values[0] || v in values[1..];
      SumOfEqual(values[1..], x);
      var k := |values[1..]| as real;
      assert |values| as real == k + 1.0;
      assert (k + 1.0) * x == k * x + x;
    }
  }

  lemma QuotientSign(x: real, n: real)
    requires n > 0.0 && x >= 0.0
    ensures x / n >= 0.0 && (x / n == 0.0 <==> x == 0.0)
  {
    assert x / n * n == x;
  }

  /** The volatility of fees is in 0..1, and it is 0 exactly when the fees are all the same. */
  lemma VolatilityMeaning(fees: seq<real>, sqrt: real -> real)
    requires IsSqrt(sqrt) && forall v :: v in fees ==> v >= 0.0
    ensures 0.0 <= Volatility(fees, sqrt) <= 1.0
    ensures Volatility(fees, sqrt) == 0.0 <==> forall v, w :: v in fees && w in fees ==> v == w
  {
    if |fees| < 2 {
    } else {
      var n, mean := |fees| as real, Mean(fees);
      SumOfFees(fees);
      QuotientSign(Sum(fees), n);
      if mean != 0.0 {
        var deviations := SquaredDeviations(fees, mean);
        DeviationsVanish(fees, mean);
        QuotientSign(deviations, n);
        SquareIsNatural(sqrt(deviations / n));
        QuotientSign(sqrt(deviations / n), mean);
        MeanOfEqual(fees);
      }
    }
  }

  lemma MeanOfEqual(fees: seq<real>)
    requires fees != []
    ensures (forall v :: v in fees ==> v == Mean(fees)) <==> forall v, w :: v in fees && w in fees ==> v == w
  {
    if forall v, w :: v in fees && w in fees ==> v == w {
      assert fees[0] in fees;
      SumOfEqual(fees, fees[0]);
      var n := |fees| as real;
      assert n * fees[0] / n == fees[0];
    }
  }


  // ---------- The metrics written out ----------

  /** The last ten snapshots of a history, or all of a shorter one. */
  function Window(history: seq<Snapshot>): seq<Snapshot> {
    if |history| <= 10 then history else history[|history| - 10..]
  }

  /** `average` is the mean of the values, and zero for none. */
  predicate IsMean(average: real, values: seq<real>) {
    if values == [] then average == 0.0 else average * |values| as real == Sum(values)
  }

  /** The change from the last recorded fee in percent, and zero without a positive one. */
  predicate IsChange(change: real, history: seq<Snapshot>, fee: Snapshot -> real, s: Snapshot) {
    if history == [] || fee(history[|history| - 1]) <= 0.0 then change == 0.0
    else fee(history[|history| - 1]) * (100.0 + change) == 100.0 * fee(s)
  }

  /** The spread of the base fees around their mean, relative to it and at most one. */
  predicate IsVolatility(volatility: real, fees: seq<real>, sqrt: real -> real) {
    if |fees| < 2 || Sum(fees) == 0.0 then volatility == 0.0
    else
      var mean := Sum(fees) / |fees| as real;
      var spread := sqrt(SquaredDeviations(fees, mean) / |fees| as real) / mean;
      volatility == if spread <= 1.0 then spread else 1.0
  }

  lemma QuotientTimes(x: real, n: real)
    requires n != 0.0
    ensures x / n * n == x && (x / n == 0.0 <==> x == 0.0)
  {
    assert x / n * n == x;
  }

  lemma MeanMeaning(values: seq<real>)
    ensures IsMean(Mean(values), values)
  {
    if values != [] {
      QuotientTimes(Sum(values), |values| as real);
    }
  }

  lemma ChangeMeaning(previous: real, current: real)
    requires previous > 0.0
    ensures previous * (100.0 + PercentageChange(previous, current)) == 100.0 * current
  {
    var step := current - previous;
    QuotientTimes(step, previous);
    var ratio := step / previous;
    assert previous * (ratio * 100.0) == (ratio * previous) * 100.0;
  }

  lemma VolatilityIs(fees: seq<real>, sqrt: real -> real)
    ensures IsVolatility(Volatility(fees, sqrt), fees, sqrt)
  {
    if |fees| >= 2 {
      QuotientTimes(Sum(fees), |fees| as real);
    }
  }

  /** What a snapshot is enriched with: averages and volatility of the window before it, and its two changes. */
  lemma MetricsMeaning(history: seq<Snapshot>, s: Snapshot, sqrt: real -> real)
    ensures var e, window := Enrich(history, s, sqrt), Window(history);
            && e.snapshot == s
            && IsMean(e.averageBaseFee, BaseFees(window))
            && IsMean(e.averagePriorityFee, PriorityFees(window))
            && IsVolatility(e.volatility, BaseFees(window), sqrt)
            && IsChange(e.baseFeeChange, history, (x: Snapshot) => x.baseFee, s)
            && IsChange(e.priorityFeeChange, history, (x: Snapshot) => x.priorityFee, s)
  {
    var window := Window(history);
    assert window == LastOf(history, MOVING_AVERAGE_WINDOW);
    MeanMeaning(BaseFees(window));
    MeanMeaning(PriorityFees(window));
    VolatilityIs(BaseFees(window), sqrt);
    if history != [] {
      var last := history[|history| - 1];
      if last.baseFee > 0.0 {
        ChangeMeaning(last.baseFee, s.baseFee);
      }
      if last.priorityFee > 0.0 {
        ChangeMeaning(last.priorityFee, s.priorityFee);
      }
    }
  }

  lemma PriorityFeesAre(s: seq<Snapshot>)
    ensures |PriorityFees(s)| == |s| && forall i :: 0 <= i < |s| ==> PriorityFees(s)[i] == s[i].priorityFee
  {
  }

  lemma {:induction false} SumSnoc(values: seq<real>, v: real)
    ensures Sum(values + [v]) == Sum(values) + v
  {
    if values == [] {
      assert [v][1..] == [] && values + [v] == [v];
    } else {
      SumSnoc(values[1..], v);
      assert (values + [v])[0] == values[0] && (values + [v])[1..] == values[1..] + [v];
    }
  }

  function SumOfSquares(values: seq<real>): real {
    if values == [] then 0.0 else values[0] * values[0] + SumOfSquares(values[1..])
  }

  /** The right-hand side for a count, a sum of squares and a sum. */
  function Expanded(count: real, squares: real, sum: real, mean: real): real {
    squares - 2.0 * mean * sum + count * (mean * mean)
  }

  lemma ExpandedStep(count: real, squares: real, sum: real, mean: real, v: real)
    ensures (v - mean) * (v - mean) + Expanded(count, squares, sum, mean) == Expanded(count + 1.0, v * v + squares, v + sum, mean)
  {
  }

  /** The squared deviations in terms of the sum of the squares and the sum of the values. */
  lemma {:induction false} DeviationsAre(values: seq<real>, mean: real)
    ensures SquaredDeviations(values, mean) == Expanded(|values| as real, SumOfSquares(values), Sum(values), mean)
  {
    if values == [] {
    } else {
      var rest := values[1..];
      DeviationsAre(rest, mean);
      ExpandedStep(|rest| as real, SumOfSquares(rest), Sum(rest), mean, values[0]);
      assert |values| as real == |rest| as real + 1.0;
    }
  }

  // ---------- Defaults and results written out ----------

  /** Without settings, a chain's thresholds are these. */
  lemma DefaultsAre(chainId: int)
    ensures var t := EffectiveThresholds(map[], chainId);
            && t.baseFeePercentage == Band(15.0, 30.0, 40.0) && t.absoluteGwei == Band(50.0, 80.0, 100.0)
            && t.volatilityIndex == Band(0.4, 0.6, 0.75) && t.priorityFeePercentage == Band(30.0, 70.0, 100.0)
  {
  }

  /** A rule's result: its reading, the highest severity whose threshold the reading reaches, and that threshold. */
  lemma ResultMeaning(e: Enriched, t: Thresholds, rule: SpikeType)
    requires ResultOf(e, t, rule).Some?
    ensures var r := ResultOf(e, t, rule).value;
            && r.spikeType == rule && r.value == Reading(e, rule) && r.threshold == Threshold(BandOf(t, rule), r.severity)
            && Reaches(e, t, rule, r.severity)
            && (forall higher :: Rank(higher) > Rank(r.severity) ==> !Reaches(e, t, rule, higher))
            && (rule == BaseFeePercentage ==> r.percentageIncrease == Some(e.baseFeeChange))
            && (rule == PriorityFeeSurge ==> r.percentageIncrease == Some(e.priorityFeeChange))
            && (rule == AbsoluteThreshold || rule == VolatilityIndex ==> r.percentageIncrease.None?)
  {
  }
}
