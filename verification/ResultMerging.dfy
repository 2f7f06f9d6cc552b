/**
 * Merging analyzer reports (libs/engine/core/analyzer-registry.ts:199-238) and the totals a single
 * analyzer puts into its report (libs/engine/core/analyzer-interface.ts:164-199, 241-258).
 *
 * The registry collects the reports of all languages in one list and merges them once. What it
 * merges may itself be a merged report, so merging should give the same totals however the reports
 * are grouped. `RegroupingIsSafeExactlyFor` says for which reports that is so, and
 * `AnalyzersReportsMergeInAnyWay` that the analyzers' own reports are among them.
 */
module ResultMerging {
  import opened Sequences
  import opened Sums
  import opened Wrappers

  datatype Severity = Critical | High | Medium | Low | Info

  datatype Finding = Finding(ruleId: string, severity: Severity, message: string, savings: Option<int>)

  datatype Summary = Summary(critical: nat, high: nat, medium: nat, low: nat, info: nat)

  datatype AnalysisResult = AnalysisResult(
    findings: seq<Finding>,
    filesAnalyzed: nat,
    analysisTime: nat,
    version: string,
    summary: Summary,
    savings: Option<int>,
    errors: Option<seq<string>>)

  const REGISTRY_VERSION := "registry-1.0.0"

  function Count(findings: seq<Finding>, severity: Severity): nat {
    if findings == [] then 0
    else if findings[0].severity == severity then 1 + Count(findings[1..], severity)
    else Count(findings[1..], severity)
  }

  function Summarize(findings: seq<Finding>): Summary {
    Summary(Count(findings, Critical), Count(findings, High), Count(findings, Medium),
            Count(findings, Low), Count(findings, Info))
  }

  function PositiveOnly(total: int): Option<int> {
    if total > 0 then Some(total) else None
  }

  function FindingsOf(r: AnalysisResult): seq<Finding> { r.findings }

  function ErrorsOf(r: AnalysisResult): seq<string> {
    if r.errors.Some? then r.errors.value else []
  }

  function FilesOf(r: AnalysisResult): int { r.filesAnalyzed }

  function TimeOf(r: AnalysisResult): int { r.analysisTime }

  function SavingsOf(r: AnalysisResult): int {
    if r.savings.Some? then r.savings.value else 0
  }

  function SavingsOfFinding(f: Finding): int {
    if f.savings.Some? then f.savings.value else 0
  }

  lemma CountsAreNatural(rs: seq<AnalysisResult>)
    ensures SumOf(rs, FilesOf) >= 0 && SumOf(rs, TimeOf) >= 0
  {
    SumIsNatural(rs, FilesOf);
    SumIsNatural(rs, TimeOf);
  }

  function Merge(rs: seq<AnalysisResult>): AnalysisResult {
    if |rs| == 0 then AnalysisResult([], 0, 0, REGISTRY_VERSION, Summary(0, 0, 0, 0, 0), None, None)
    else if |rs| == 1 then rs[0]
    else
      CountsAreNatural(rs);
      var findings := FlatMap(rs, FindingsOf);
      var errors := FlatMap(rs, ErrorsOf);
      AnalysisResult(findings, SumOf(rs, FilesOf), SumOf(rs, TimeOf), REGISTRY_VERSION, Summarize(findings),
                     PositiveOnly(SumOf(rs, SavingsOf)), if |errors| > 0 then Some(errors) else None)
  }

  /** The report one analyzer makes of the files it was given: one list of findings and one of errors. */
  function Report(findings: seq<Finding>, files: nat, time: nat, version: string, errors: seq<string>): AnalysisResult {
    AnalysisResult(findings, files, time, version, Summarize(findings), PositiveOnly(SumOf(findings, SavingsOfFinding)),
                   if |errors| > 0 then Some(errors) else None)
  }

  // ---------- What grouping must preserve ----------

  /** A report whose summary counts its own findings and that does not claim negative savings. */
  predicate Sound(r: AnalysisResult) {
    r.summary == Summarize(r.findings) && SavingsOf(r) >= 0
  }

  /** Two reports that agree on everything but the version label (and on how "nothing" is written). */
  predicate Same(r: AnalysisResult, s: AnalysisResult) {
    && r.findings == s.findings
    && ErrorsOf(r) == ErrorsOf(s)
    && r.filesAnalyzed == s.filesAnalyzed
    && r.analysisTime == s.analysisTime
    && r.summary == s.summary
    && SavingsOf(r) == SavingsOf(s)
  }

  function MergeEach(groups: seq<seq<AnalysisResult>>): seq<AnalysisResult> {
    if groups == [] then [] else [Merge(groups[0])] + MergeEach(groups[1..])
  }

  function Flatten(groups: seq<seq<AnalysisResult>>): seq<AnalysisResult> {
    if groups == [] then [] else groups[0] + Flatten(groups[1..])
  }

  predicate Drawn(groups: seq<seq<AnalysisResult>>, pool: set<AnalysisResult>) {
    forall g, r :: g in groups && r in g ==> r in pool
  }

  /** Whatever the number of reports, the merged report carries their concatenations, sums and counts. */
  lemma MergeTotals(rs: seq<AnalysisResult>)
    requires forall r :: r in rs ==> Sound(r)
    ensures Merge(rs).findings == FlatMap(rs, FindingsOf)
    ensures ErrorsOf(Merge(rs)) == FlatMap(rs, ErrorsOf)
    ensures FilesOf(Merge(rs)) == SumOf(rs, FilesOf) && TimeOf(Merge(rs)) == SumOf(rs, TimeOf)
    ensures SavingsOf(Merge(rs)) == SumOf(rs, SavingsOf)
    ensures Sound(Merge(rs))
  {
    SumIsNatural(rs, SavingsOf);
    if |rs| == 1 {
      assert rs[1..] == [];
    }
  }

  lemma {:induction false} FlatMapOfGroups<B>(groups: seq<seq<AnalysisResult>>, f: AnalysisResult -> seq<B>)
    requires forall g :: g in groups ==> f(Merge(g)) == FlatMap(g, f)
    ensures FlatMap(MergeEach(groups), f) == FlatMap(Flatten(groups), f)
  {
    if groups == [] {
    } else {
      FlatMapOfGroups(groups[1..], f);
      assert MergeEach(groups)[1..] == MergeEach(groups[1..]);
      FlatMapAppend(groups[0], Flatten(groups[1..]), f);
    }
  }

  lemma {:induction false} SumOfGroups(groups: seq<seq<AnalysisResult>>, f: AnalysisResult -> int)
    requires forall g :: g in groups ==> f(Merge(g)) == SumOf(g, f)
    ensures SumOf(MergeEach(groups), f) == SumOf(Flatten(groups), f)
  {
    if groups == [] {
    } else {
      SumOfGroups(groups[1..], f);
      assert MergeEach(groups)[1..] == MergeEach(groups[1..]);
      SumAppend(groups[0], Flatten(groups[1..]), f);
    }
  }

  lemma {:induction false} MergedGroupsAreSound(groups: seq<seq<AnalysisResult>>)
    requires forall g, r :: g in groups && r in g ==> Sound(r)
    ensures forall r :: r in MergeEach(groups) ==> Sound(r)
    ensures forall r :: r in Flatten(groups) ==> Sound(r)
  {
    if groups == [] {
    } else {
      MergedGroupsAreSound(groups[1..]);
      MergeTotals(groups[0]);
    }
  }

  /** Merging the merged groups is merging all reports at once. */
  lemma MergingIsAHomomorphism(groups: seq<seq<AnalysisResult>>)
    requires forall g, r :: g in groups && r in g ==> Sound(r)
    ensures Same(Merge(MergeEach(groups)), Merge(Flatten(groups)))
  {
    MergedGroupsAreSound(groups);
    forall g | g in groups
      ensures FindingsOf(Merge(g)) == FlatMap(g, FindingsOf) && ErrorsOf(Merge(g)) == FlatMap(g, ErrorsOf)
      ensures FilesOf(Merge(g)) == SumOf(g, FilesOf) && TimeOf(Merge(g)) == SumOf(g, TimeOf)
      ensures SavingsOf(Merge(g)) == SumOf(g, SavingsOf)
    {
      MergeTotals(g);
    }
    FlatMapOfGroups(groups, FindingsOf);
    FlatMapOfGroups(groups, ErrorsOf);
    SumOfGroups(groups, FilesOf);
    SumOfGroups(groups, TimeOf);
    SumOfGroups(groups, SavingsOf);
    MergeTotals(MergeEach(groups));
    MergeTotals(Flatten(groups));
  }

  lemma OneAndTwo<A, B>(x: A, y: A, f: A -> seq<B>)
    ensures FlatMap([x], f) == f(x) && FlatMap([x, y], f) == f(x) + f(y)
  {
    assert [x][1..] == [] && [y][1..] == [];
    assert FlatMap([x], f) == f(x) + [] && FlatMap([y], f) == f(y) + [];
    assert [x, y][1..] == [y];
  }

  lemma SumOfOneAndTwo<A>(x: A, y: A, f: A -> int)
    ensures SumOf([x], f) == f(x) && SumOf([x, y], f) == f(x) + f(y)
  {
    assert [x][1..] == [] && [y][1..] == [];
    assert [x, y][1..] == [y];
  }

  /** A lone report next to an empty group: merging recounts its summary and drops negative savings. */
  lemma BesideAnEmptyGroup(r: AnalysisResult)
    ensures Flatten([[r], []]) == [r]
    ensures Merge(MergeEach([[r], []])).summary == Summarize(r.findings)
    ensures SavingsOf(Merge(MergeEach([[r], []]))) == if SavingsOf(r) > 0 then SavingsOf(r) else 0
  {
    var groups: seq<seq<AnalysisResult>> := [[r], []];
    var rest: seq<seq<AnalysisResult>> := [[]];
    assert groups[1..] == rest && rest[1..] == [];
    assert Flatten(rest) == [];
    assert Flatten(groups) == [r] + [];
    var nothing := Merge([]);
    assert MergeEach(rest) == [nothing];
    assert MergeEach(groups) == [r, nothing];
    OneAndTwo(r, nothing, FindingsOf);
    SumOfOneAndTwo(r, nothing, SavingsOf);
    assert FlatMap([r, nothing], FindingsOf) == r.findings;
  }

  /** Reports may be grouped in any way exactly when each of them is sound. */
  lemma RegroupingIsSafeExactlyFor(pool: set<AnalysisResult>)
    ensures (forall groups :: Drawn(groups, pool) ==> Same(Merge(MergeEach(groups)), Merge(Flatten(groups))))
       <==> (forall r :: r in pool ==> Sound(r))
  {
    if forall r :: r in pool ==> Sound(r) {
      forall groups | Drawn(groups, pool)
        ensures Same(Merge(MergeEach(groups)), Merge(Flatten(groups)))
      {
        MergingIsAHomomorphism(groups);
      }
    } else {
      var r :| r in pool && !Sound(r);
      BesideAnEmptyGroup(r);
      assert Drawn([[r], []], pool);
    }
  }

  // ---------- Merging merged reports, to any depth ----------

  /** A way to merge: reports as they are, and merges of what was merged before. */
  datatype Merging = Single(r: AnalysisResult) | Merged(parts: seq<Merging>)

  function Reports(m: Merging): seq<AnalysisResult> {
    match m
    case Single(r) => [r]
    case Merged(parts) => ReportsOfAll(parts)
  }

  function ReportsOfAll(parts: seq<Merging>): seq<AnalysisResult> {
    if parts == [] then [] else Reports(parts[0]) + ReportsOfAll(parts[1..])
  }

  function Carry(m: Merging): AnalysisResult {
    match m
    case Single(r) => r
    case Merged(parts) => Merge(CarryAll(parts))
  }

  function CarryAll(parts: seq<Merging>): seq<AnalysisResult> {
    if parts == [] then [] else [Carry(parts[0])] + CarryAll(parts[1..])
  }

  /** A report with the concatenations, sums and counts of some reports. */
  predicate Totals(r: AnalysisResult, rs: seq<AnalysisResult>) {
    && Sound(r)
    && FindingsOf(r) == FlatMap(rs, FindingsOf) && ErrorsOf(r) == FlatMap(rs, ErrorsOf)
    && FilesOf(r) == SumOf(rs, FilesOf) && TimeOf(r) == SumOf(rs, TimeOf) && SavingsOf(r) == SumOf(rs, SavingsOf)
  }

  lemma {:induction false} CarriesTotals(m: Merging)
    requires forall r :: r in Reports(m) ==> Sound(r)
    ensures Totals(Carry(m), Reports(m))
  {
    match m {
      case Single(r) =>
        MergeTotals([r]);
      case Merged(parts) =>
        AllCarryTotals(parts);
        MergeTotals(CarryAll(parts));
    }
  }

  lemma {:induction false} AllCarryTotals(parts: seq<Merging>)
    requires forall r :: r in ReportsOfAll(parts) ==> Sound(r)
    ensures forall r :: r in CarryAll(parts) ==> Sound(r)
    ensures FlatMap(CarryAll(parts), FindingsOf) == FlatMap(ReportsOfAll(parts), FindingsOf)
    ensures FlatMap(CarryAll(parts), ErrorsOf) == FlatMap(ReportsOfAll(parts), ErrorsOf)
    ensures SumOf(CarryAll(parts), FilesOf) == SumOf(ReportsOfAll(parts), FilesOf)
    ensures SumOf(CarryAll(parts), TimeOf) == SumOf(ReportsOfAll(parts), TimeOf)
    ensures SumOf(CarryAll(parts), SavingsOf) == SumOf(ReportsOfAll(parts), SavingsOf)
  {
    if parts == [] {
    } else {
      var front, back := Reports(parts[0]), ReportsOfAll(parts[1..]);
      CarriesTotals(parts[0]);
      AllCarryTotals(parts[1..]);
      assert CarryAll(parts)[1..] == CarryAll(parts[1..]);
      FlatMapAppend(front, back, FindingsOf);
      FlatMapAppend(front, back, ErrorsOf);
      SumAppend(front, back, FilesOf);
      SumAppend(front, back, TimeOf);
      SumAppend(front, back, SavingsOf);
    }
  }

  /** What some analyzer reports of some files. */
  ghost predicate IsReport(r: AnalysisResult) {
    exists findings, files, time, version, errors :: r == Report(findings, files, time, version, errors)
  }

  lemma ReportsAreSound(r: AnalysisResult)
    requires IsReport(r)
    ensures Sound(r)
  {
  }

  /** However often the analyzers' reports are merged on the way, the outcome is that of merging them all at once. */
  lemma AnalyzersReportsMergeInAnyWay(m: Merging)
    requires forall r :: r in Reports(m) ==> IsReport(r)
    ensures Same(Carry(m), Merge(Reports(m)))
  {
    forall r | r in Reports(m)
      ensures Sound(r)
    {
      ReportsAreSound(r);
    }
    CarriesTotals(m);
    MergeTotals(Reports(m));
  }

  lemma MergeOfTwo(x: AnalysisResult, y: AnalysisResult)
    ensures Merge([x, y]).findings == x.findings + y.findings
    ensures Merge([x, y]).summary == Summarize(x.findings + y.findings)
    ensures ErrorsOf(Merge([x, y])) == ErrorsOf(x) + ErrorsOf(y)
    ensures Merge([x, y]).filesAnalyzed == x.filesAnalyzed + y.filesAnalyzed
    ensures Merge([x, y]).analysisTime == x.analysisTime + y.analysisTime
  {
    OneAndTwo(x, y, FindingsOf);
    OneAndTwo(x, y, ErrorsOf);
    SumOfOneAndTwo(x, y, FilesOf);
    SumOfOneAndTwo(x, y, TimeOf);
  }

  predicate Opposed(p: int, q: int) {
    (p < 0 && q > 0) || (p > 0 && q < 0)
  }

  /** The report on two batches of files is the merge of the two reports, unless one batch loses what the other saves. */
  lemma ReportsOfBatchesMerge(a: seq<Finding>, b: seq<Finding>, m: nat, n: nat, t: nat, u: nat, version: string, d: seq<string>, e: seq<string>)
    ensures Same(Merge([Report(a, m, t, version, d), Report(b, n, u, version, e)]),
                 Report(a + b, m + n, t + u, version, d + e))
            == !Opposed(SumOf(a, SavingsOfFinding), SumOf(b, SavingsOfFinding))
  {
    var x, y := Report(a, m, t, version, d), Report(b, n, u, version, e);
    BatchSavings(a, b, m, n, t, u, version, d, e);
    MergeOfTwo(x, y);
  }

  lemma BatchSavings(a: seq<Finding>, b: seq<Finding>, m: nat, n: nat, t: nat, u: nat, version: string, d: seq<string>, e: seq<string>)
    ensures (SavingsOf(Merge([Report(a, m, t, version, d), Report(b, n, u, version, e)]))
             == SavingsOf(Report(a + b, m + n, t + u, version, d + e)))
            == !Opposed(SumOf(a, SavingsOfFinding), SumOf(b, SavingsOfFinding))
  {
    var x, y := Report(a, m, t, version, d), Report(b, n, u, version, e);
    SumAppend(a, b, SavingsOfFinding);
    SumOfOneAndTwo(x, y, SavingsOf);
  }


  // ---------- Counts and totals written out ----------

  lemma {:induction false} CountIsFiltered(findings: seq<Finding>, severity: Severity)
    ensures Count(findings, severity) == |Filter(findings, (f: Finding) => f.severity == severity)|
  {
    if findings == [] {
    } else {
      CountIsFiltered(findings[1..], severity);
    }
  }

  function OfSeverity(findings: seq<Finding>, severity: Severity): nat {
    |Filter(findings, (f: Finding) => f.severity == severity)|
  }

  /** Each number of a summary counts the findings of its own severity. */
  predicate Counts(summary: Summary, findings: seq<Finding>) {
    && summary.critical == OfSeverity(findings, Critical) && summary.high == OfSeverity(findings, High)
    && summary.medium == OfSeverity(findings, Medium) && summary.low == OfSeverity(findings, Low)
    && summary.info == OfSeverity(findings, Info)
  }

  lemma SummaryCounts(findings: seq<Finding>)
    ensures Counts(Summarize(findings), findings)
  {
    CountIsFiltered(findings, Critical);
    CountIsFiltered(findings, High);
    CountIsFiltered(findings, Medium);
    CountIsFiltered(findings, Low);
    CountIsFiltered(findings, Info);
  }

  /** The merge of two or more reports: all findings and errors in order, summed numbers, and a summary of its own findings. */
  lemma MergedReport(rs: seq<AnalysisResult>)
    requires |rs| >= 2
    ensures var merged, saved := Merge(rs), SumOf(rs, (r: AnalysisResult) => if r.savings.Some? then r.savings.value else 0);
            && merged.findings == FlatMap(rs, (r: AnalysisResult) => r.findings)
            && merged.filesAnalyzed == SumOf(rs, (r: AnalysisResult) => r.filesAnalyzed)
            && merged.analysisTime == SumOf(rs, (r: AnalysisResult) => r.analysisTime)
            && merged.savings == (if saved > 0 then Some(saved) else None)
            && merged.version == "registry-1.0.0"
            && Counts(merged.summary, merged.findings)
  {
    SummaryCounts(FlatMap(rs, FindingsOf));
    SameMap(rs, FindingsOf, (r: AnalysisResult) => r.findings);
    SameSum(rs, FilesOf, (r: AnalysisResult) => r.filesAnalyzed);
    SameSum(rs, TimeOf, (r: AnalysisResult) => r.analysisTime);
    SameSum(rs, SavingsOf, (r: AnalysisResult) => if r.savings.Some? then r.savings.value else 0);
  }

  /** A merge has errors exactly if one of its reports lists some, and then all of them in order. */
  lemma MergedErrors(rs: seq<AnalysisResult>)
    requires |rs| >= 2
    ensures var errors := FlatMap(rs, (r: AnalysisResult) => if r.errors.Some? then r.errors.value else []);
            Merge(rs).errors == if errors == [] then None else Some(errors)
  {
    SameMap(rs, ErrorsOf, (r: AnalysisResult) => if r.errors.Some? then r.errors.value else []);
  }

  /** An analyzer's report: its findings with their own summary and the sum of their savings, if positive. */
  lemma ReportMeaning(findings: seq<Finding>, files: nat, time: nat, version: string, errors: seq<string>)
    ensures var r := Report(findings, files, time, version, errors);
            var saved := SumOf(findings, (f: Finding) => if f.savings.Some? then f.savings.value else 0);
            && Counts(r.summary, findings) && r.findings == findings && r.filesAnalyzed == files
            && r.savings == (if saved > 0 then Some(saved) else None)
            && r.errors == (if errors == [] then None else Some(errors))
  {
    SummaryCounts(findings);
    SameSum(findings, SavingsOfFinding, (f: Finding) => if f.savings.Some? then f.savings.value else 0);
  }
}
