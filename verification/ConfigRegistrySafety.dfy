/** What holds in every reachable state of the configuration registry. */
module ConfigRegistrySafety {
  import opened Wrappers
  import Sequences
  import opened ConfigRegistry

  // ----- Runs -----

  datatype Input = Input(call: Call, op: Operation)

  function Step(st: State, input: Input): State {
    var r := Perform(st, input.call, input.op);
    if r.Success? then r.value else st
  }

  function After(st: State, run: seq<Input>): State {
    if run == [] then st else Step(After(st, run[..|run| - 1]), run[|run| - 1])
  }

  // ----- The key list agrees with the store -----

  predicate IsConfig(st: State, key: string) {
    key in st.persistent && st.persistent[key].Config?
  }

  /** The list has no repetitions and names exactly the stored entries; versions lie between one and the current one. */
  ghost predicate Agrees(st: State) {
    && Sequences.Distinct(Keys(st))
    && (forall k :: k in Keys(st) <==> IsConfig(st, k))
    && (forall k :: IsConfig(st, k) ==> 1 <= st.persistent[k].entry.version <= Version(st))
    && Version(st) >= 1
  }

  /**
   * What holds whatever is written: every listed key is stored, and every stored key but the reserved one
   * is listed and holds an entry.
   */
  ghost predicate Core(st: State) {
    && Sequences.Distinct(Keys(st)) && Version(st) >= 1
    && (forall k :: k in Keys(st) ==> k in st.persistent)
    && (forall k :: k in st.persistent && k != RESERVED ==> k in Keys(st) && IsConfig(st, k))
    && (forall k :: IsConfig(st, k) ==> 1 <= st.persistent[k].entry.version <= Version(st))
  }

  ghost predicate Regular(st: State) {
    Core(st) && (st.admin.None? ==> st == FRESH)
  }

  /** In such states only the reserved key decides whether list and store agree. */
  lemma AgreementAtReserved(st: State)
    requires Core(st)
    ensures Agrees(st) <==> (RESERVED in Keys(st) <==> IsConfig(st, RESERVED))
  {
    forall k | k != RESERVED
      ensures k in Keys(st) <==> IsConfig(st, k)
    {
    }
  }

  lemma PutCore(st: State, call: Call, key: string, payload: Payload)
    requires Core(st)
    ensures var st' := PutConfig(st, call, key, payload);
            && Core(st') && Version(st') == Version(st)
            && (RESERVED in Keys(st') <==> RESERVED in Keys(st) || (key == RESERVED && RESERVED !in st.persistent))
            && (RESERVED in st'.persistent <==> RESERVED in st.persistent || key == RESERVED)
  {
    var st' := PutConfig(st, call, key, payload);
    if key !in st.persistent {
      assert Keys(st') == Keys(st) + [key] && key !in Keys(st);
    }
  }

  predicate Names(updates: seq<Update>, key: string) {
    exists i :: 0 <= i < |updates| && updates[i].key == key
  }

  lemma NamesSnoc(updates: seq<Update>, n: nat, key: string)
    requires n < |updates|
    ensures Names(updates[..n + 1], key) <==> Names(updates[..n], key) || updates[n].key == key
  {
    if Names(updates[..n], key) {
      var i :| 0 <= i < n && updates[..n][i].key == key;
      assert updates[..n + 1][i].key == key;
    }
    if updates[n].key == key {
      assert updates[..n + 1][n].key == key;
    }
  }

  lemma {:induction false} PutAllCore(st: State, call: Call, updates: seq<Update>)
    requires Core(st)
    ensures var st' := PutAll(st, call, updates);
            && Core(st') && Version(st') == Version(st)
            && (RESERVED in Keys(st') <==> RESERVED in Keys(st) || (Names(updates, RESERVED) && RESERVED !in st.persistent))
            && (RESERVED in st'.persistent <==> RESERVED in st.persistent || Names(updates, RESERVED))
    decreases updates
  {
    if updates == [] {
    } else {
      var n := |updates| - 1;
      PutAllCore(st, call, updates[..n]);
      assert updates[..n + 1] == updates;
      NamesSnoc(updates, n, RESERVED);
      PutCore(PutAll(st, call, updates[..n]), call, updates[n].key, updates[n].payload);
    }
  }

  lemma {:induction false} PutAllKeepsRest(st: State, call: Call, updates: seq<Update>)
    ensures var st' := PutAll(st, call, updates);
            st'.admin == st.admin && st'.updater == st.updater && st'.emergency == st.emergency && st'.version == st.version
  {
    if updates == [] {
    } else {
      PutAllKeepsRest(st, call, updates[..|updates| - 1]);
    }
  }

  lemma {:induction false} InWithout(keys: seq<string>, key: string)
    ensures forall k :: k in Without(keys, key) <==> k in keys && k != key
    ensures Sequences.Distinct(keys) ==> Sequences.Distinct(Without(keys, key))
  {
    if keys == [] {
    } else {
      var rest := Without(keys[1..], key);
      InWithout(keys[1..], key);
      if Sequences.Distinct(keys) {
        assert Sequences.Distinct(keys[1..]);
        assert keys[0] !in keys[1..];
        assert Sequences.Distinct([keys[0]] + rest);
      }
    }
  }

  lemma DeleteCore(st: State, key: string)
    requires Core(st)
    ensures var st' := st.(persistent := st.persistent - {key}, keys := Some(Without(Keys(st), key)));
            Core(st') && (RESERVED in Keys(st') <==> RESERVED in Keys(st) && key != RESERVED)
  {
    InWithout(Keys(st), key);
  }

  lemma BumpCore(st: State)
    requires Core(st)
    ensures Core(st.(version := Some(Version(st) + 1)))
  {
    var bumped := st.(version := Some(Version(st) + 1));
    assert Keys(bumped) == Keys(st);
    forall k | IsConfig(bumped, k)
      ensures 1 <= bumped.persistent[k].entry.version <= Version(bumped)
    {
      assert IsConfig(st, k);
    }
  }

  lemma SnapshotCore(st: State, keys: seq<string>)
    requires Core(st)
    ensures var st' := st.(persistent := st.persistent[RESERVED := Snapshot(keys)]);
            Core(st') && !IsConfig(st', RESERVED)
  {
    var st' := st.(persistent := st.persistent[RESERVED := Snapshot(keys)]);
    assert Keys(st') == Keys(st);
    forall k | k in st'.persistent && k != RESERVED
      ensures k in Keys(st') && IsConfig(st', k)
    {
      assert IsConfig(st, k);
    }
    forall k | IsConfig(st', k)
      ensures 1 <= st'.persistent[k].entry.version <= Version(st')
    {
      assert IsConfig(st, k);
    }
  }

  lemma BatchCore(st: State, call: Call, updates: seq<Update>)
    requires Core(st) && Perform(st, call, BatchUpdate(updates)).Success?
    ensures var st' := Perform(st, call, BatchUpdate(updates)).value;
            && Core(st') && st'.admin == st.admin && !IsConfig(st', RESERVED)
            && (RESERVED in Keys(st') <==> RESERVED in Keys(st) || (Names(updates, RESERVED) && RESERVED !in st.persistent))
  {
    var start := st.(version := Some(Version(st) + 1));
    BumpCore(st);
    PutAllCore(start, call, updates);
    PutAllKeepsRest(start, call, updates);
    SnapshotCore(PutAll(start, call, updates), UpdateKeys(updates));
  }

  /** After an accepted operation: does the reserved key hold an entry? */
  predicate HoldsEntry(st: State, op: Operation) {
    match op
    case SetValue(key, _) => key == RESERVED || IsConfig(st, RESERVED)
    case BatchUpdate(_) => false
    case DeleteConfig(key) => key != RESERVED && IsConfig(st, RESERVED)
    case _ => IsConfig(st, RESERVED)
  }

  /** And is it listed? */
  predicate IsListed(st: State, op: Operation) {
    match op
    case SetValue(key, _) => RESERVED in Keys(st) || (key == RESERVED && RESERVED !in st.persistent)
    case BatchUpdate(updates) => RESERVED in Keys(st) || (Names(updates, RESERVED) && RESERVED !in st.persistent)
    case DeleteConfig(key) => key != RESERVED && RESERVED in Keys(st)
    case _ => RESERVED in Keys(st)
  }

  /** Where an accepted operation leads, as far as the index is concerned. */
  ghost predicate Reaches(st: State, op: Operation, st': State) {
    && Regular(st')
    && (IsConfig(st', RESERVED) <==> HoldsEntry(st, op))
    && (RESERVED in Keys(st') <==> IsListed(st, op))
  }

  lemma SetReaches(st: State, call: Call, key: string, value: Value)
    requires Regular(st) && st.admin.Some?
    ensures Reaches(st, SetValue(key, value), PutConfig(st, call, key, PayloadOf(value)))
  {
    PutCore(st, call, key, PayloadOf(value));
  }

  lemma OfficeReaches(st: State, op: Operation, st': State)
    requires Regular(st) && st'.admin.Some?
    requires op.UpdateAdmin? || op.UpdateUpdater? || op.UpdateEmergency?
    requires st'.keys == st.keys && st'.persistent == st.persistent && st'.version == st.version
    ensures Reaches(st, op, st')
  {
    assert Keys(st') == Keys(st);
  }

  lemma BatchReaches(st: State, call: Call, updates: seq<Update>)
    requires Regular(st) && Perform(st, call, BatchUpdate(updates)).Success?
    ensures Reaches(st, BatchUpdate(updates), Perform(st, call, BatchUpdate(updates)).value)
  {
    BatchCore(st, call, updates);
    assert UpdaterCheck(st, call).None? && st.admin.Some?;
  }

  lemma DeleteReaches(st: State, key: string)
    requires Regular(st) && st.admin.Some?
    ensures Reaches(st, DeleteConfig(key), st.(persistent := st.persistent - {key}, keys := Some(Without(Keys(st), key))))
  {
    DeleteCore(st, key);
  }

  lemma AcceptedReaches(st: State, input: Input)
    requires Regular(st) && Perform(st, input.call, input.op).Success?
    ensures Reaches(st, input.op, Perform(st, input.call, input.op).value)
  {
    match input.op
    case SetValue(key, value) => SetReaches(st, input.call, key, value);
    case BatchUpdate(updates) => BatchReaches(st, input.call, updates);
    case DeleteConfig(key) => DeleteReaches(st, key);
    case Initialize(_, _, _) => assert st == FRESH;
    case _ => OfficeReaches(st, input.op, Step(st, input));
  }

  lemma StepStaysRegular(st: State, input: Input)
    requires Regular(st)
    ensures Regular(Step(st, input))
    ensures Perform(st, input.call, input.op).Success? ==> Reaches(st, input.op, Step(st, input))
  {
    if Perform(st, input.call, input.op).Success? {
      AcceptedReaches(st, input);
    }
  }

  /** Off the reserved key, list and store agree in every reachable state. */
  lemma {:induction false} RunStaysRegular(run: seq<Input>)
    ensures Regular(After(FRESH, run))
    decreases |run|
  {
    if run == [] {
    } else {
      RunStaysRegular(run[..|run| - 1]);
      StepStaysRegular(After(FRESH, run[..|run| - 1]), run[|run| - 1]);
    }
  }

  /**
   * The accepted operations after which list and store disagree: writing an entry over the snapshot of
   * a batch, and storing that snapshot over a listed entry or under a key the batch itself lists.
   */
  predicate Breaks(st: State, op: Operation) {
    match op
    case SetValue(key, _) => key == RESERVED && RESERVED in st.persistent && st.persistent[RESERVED].Snapshot?
    case BatchUpdate(updates) => RESERVED in Keys(st) || (RESERVED !in st.persistent && Names(updates, RESERVED))
    case _ => false
  }

  /** An accepted operation keeps list and store in agreement exactly when it is not one of these. */
  lemma StepKeepsAgreement(st: State, input: Input)
    requires Regular(st) && Agrees(st) && Perform(st, input.call, input.op).Success?
    ensures Agrees(Step(st, input)) <==> !Breaks(st, input.op)
  {
    AgreementAtReserved(st);
    StepStaysRegular(st, input);
    AgreementAtReserved(Step(st, input));
  }

  /** The operation is accepted and breaks the agreement. */
  predicate BreaksAt(st: State, input: Input) {
    Perform(st, input.call, input.op).Success? && Breaks(st, input.op)
  }

  /** List and store agree at the start of a run and after each of its steps. */
  ghost predicate AgreesThroughout(run: seq<Input>)
    decreases |run|
  {
    Agrees(After(FRESH, run)) && (run != [] ==> AgreesThroughout(run[..|run| - 1]))
  }

  /** No step of a run breaks the agreement, in the state it is taken in. */
  predicate NeverBreaks(run: seq<Input>)
    decreases |run|
  {
    run != [] ==> NeverBreaks(run[..|run| - 1]) && !BreaksAt(After(FRESH, run[..|run| - 1]), run[|run| - 1])
  }

  /** The agreement holds throughout exactly the runs in which no step breaks it. */
  lemma {:induction false} RunKeepsAgreement(run: seq<Input>)
    ensures AgreesThroughout(run) <==> NeverBreaks(run)
    decreases |run|
  {
    if run == [] {
    } else {
      var n := |run| - 1;
      RunKeepsAgreement(run[..n]);
      if NeverBreaks(run[..n]) {
        RunStaysRegular(run[..n]);
        StepOfRun(After(FRESH, run[..n]), run[n]);
      }
    }
  }

  lemma StepOfRun(st: State, input: Input)
    requires Regular(st) && Agrees(st)
    ensures Agrees(Step(st, input)) <==> !BreaksAt(st, input)
  {
    if Perform(st, input.call, input.op).Success? {
      StepKeepsAgreement(st, input);
    }
  }

  /** A first batch that names the reserved key breaks the agreement. */
  lemma SomeRunBreaks(payload: Payload)
    ensures var call := Call("a", {"a"}, 0);
            !Agrees(After(FRESH, [Input(call, Initialize("a", "a", "a")), Input(call, BatchUpdate([Update(RESERVED, payload)]))]))
  {
    var call, updates := Call("a", {"a"}, 0), [Update(RESERVED, payload)];
    var first, second := Input(call, Initialize("a", "a", "a")), Input(call, BatchUpdate(updates));
    assert [first, second][..1] == [first] && [first][..0] == [];
    var st := Step(FRESH, first);
    assert After(FRESH, [first]) == st;
    StepStaysRegular(FRESH, first);
    AgreementAtReserved(st);
    assert updates[0].key == RESERVED && Names(updates, RESERVED);
    StepKeepsAgreement(st, second);
  }

  // ----- Runs that keep the reserved key free -----

  /** The key reserved for the batch snapshot holds nothing else, and no other key holds a snapshot. */
  ghost predicate Reserved(st: State) {
    forall k :: k in st.persistent ==> (st.persistent[k].Snapshot? <==> k == RESERVED)
  }

  ghost predicate Indexed(st: State) {
    Agrees(st) && Reserved(st) && (st.admin.None? ==> st == FRESH)
  }

  lemma IndexedIsRegular(st: State)
    ensures Indexed(st) <==> Regular(st) && RESERVED !in Keys(st) && !IsConfig(st, RESERVED)
  {
    if Regular(st) {
      AgreementAtReserved(st);
    }
  }

  /** The accepted operation would leave an entry, or a listing, under the reserved key. */
  predicate SpoilsReserved(st: State, op: Operation) {
    match op
    case SetValue(key, _) => key == RESERVED
    case BatchUpdate(updates) => Names(updates, RESERVED) && RESERVED !in st.persistent
    case _ => false
  }

  /** An accepted operation leaves the reserved key free of entries and listings exactly when it does not write one there. */
  lemma StepStaysIndexed(st: State, input: Input)
    requires Indexed(st) && Perform(st, input.call, input.op).Success?
    ensures Indexed(Step(st, input)) <==> !SpoilsReserved(st, input.op)
  {
    IndexedIsRegular(st);
    StepStaysRegular(st, input);
    IndexedIsRegular(Step(st, input));
  }

  /** The operation names the reserved key for an entry. */
  predicate NamesReserved(op: Operation) {
    match op
    case SetValue(key, _) => key == RESERVED
    case BatchUpdate(updates) => Names(updates, RESERVED)
    case _ => false
  }

  /** In every run that keeps the reserved key free, the list agrees with the store. */
  lemma {:induction false} RunStaysIndexed(run: seq<Input>)
    requires forall i :: 0 <= i < |run| ==> !NamesReserved(run[i].op)
    ensures Indexed(After(FRESH, run))
    decreases |run|
  {
    if run == [] {
    } else {
      var n := |run| - 1;
      RunStaysIndexed(run[..n]);
      if Perform(After(FRESH, run[..n]), run[n].call, run[n].op).Success? {
        StepStaysIndexed(After(FRESH, run[..n]), run[n]);
      }
    }
  }

  // ----- Versions -----

  /** A later operation never lowers the version of an entry it leaves stored. */
  lemma {:induction false} PutAllRaises(st: State, call: Call, updates: seq<Update>, key: string)
    requires IsConfig(st, key) && st.persistent[key].entry.version <= Version(st)
    ensures var st' := PutAll(st, call, updates);
            IsConfig(st', key) && st.persistent[key].entry.version <= st'.persistent[key].entry.version
    ensures Version(PutAll(st, call, updates)) == Version(st)
  {
    if updates == [] {
    } else {
      PutAllRaises(st, call, updates[..|updates| - 1], key);
    }
  }

  lemma VersionsNeverDrop(st: State, input: Input, key: string)
    requires Regular(st) && IsConfig(st, key)
    requires IsConfig(Step(st, input), key)
    ensures st.persistent[key].entry.version <= Step(st, input).persistent[key].entry.version
    ensures Version(st) <= Version(Step(st, input))
  {
    if Perform(st, input.call, input.op).Success? && input.op.BatchUpdate? {
      PutAllRaises(st.(version := Some(Version(st) + 1)), input.call, input.op.updates, key);
    }
  }

  function VersionOf(st: State, key: string): nat
    requires IsConfig(st, key)
  {
    st.persistent[key].entry.version
  }

  /** While a key stays stored, its version never decreases, whatever the run does. */
  lemma {:induction false} RunVersionsNeverDrop(run: seq<Input>, key: string, i: nat, j: nat)
    requires i <= j <= |run|
    requires forall k :: i <= k <= j ==> IsConfig(After(FRESH, run[..k]), key)
    ensures VersionOf(After(FRESH, run[..i]), key) <= VersionOf(After(FRESH, run[..j]), key)
    decreases j
  {
    if i < j {
      RunVersionsNeverDrop(run, key, i, j - 1);
      assert IsConfig(After(FRESH, run[..j - 1]), key) && IsConfig(After(FRESH, run[..j]), key);
      assert run[..j][..j - 1] == run[..j - 1];
      RunStaysRegular(run[..j - 1]);
      VersionsNeverDrop(After(FRESH, run[..j - 1]), run[j - 1], key);
    }
  }

  // ----- Authority -----

  /** The addresses in office change only by initialization, or by an operation the admin authorized. */
  lemma OfficesNeedAdmin(st: State, input: Input)
    requires Regular(st)
    requires var st' := Step(st, input);
             st'.admin != st.admin || st'.updater != st.updater || st'.emergency != st.emergency
    ensures if st.admin.None? then input.op.Initialize?
            else st.admin.value in input.call.authorized && (input.op.UpdateAdmin? || input.op.UpdateUpdater? || input.op.UpdateEmergency?)
  {
    if input.op.BatchUpdate? && Perform(st, input.call, input.op).Success? {
      PutAllKeepsRest(st.(version := Some(Version(st) + 1)), input.call, input.op.updates);
    }
  }

  /** Who may change entries: the admin may delete, and updater, admin and emergency admin may write. */
  ghost predicate MayWrite(st: State, call: Call) {
    call.invoker in call.authorized &&
    (Some(call.invoker) == st.updater || Some(call.invoker) == st.admin || Some(call.invoker) == st.emergency)
  }

  /** An authorized operation on the entry under `key`; every batch writes the reserved key. */
  ghost predicate Touches(st: State, input: Input, key: string) {
    match input.op
    case SetValue(k, _) => k == key && MayWrite(st, input.call)
    case BatchUpdate(updates) => (LastFor(updates, key).Some? || key == RESERVED) && MayWrite(st, input.call)
    case DeleteConfig(k) => k == key && st.admin.Some? && st.admin.value in input.call.authorized
    case _ => false
  }

  /**
   * The entry under a key changes only by an authorized operation that names the key or, for the
   * reserved key, by a batch; an entry that is readable afterwards records its writer.
   */
  lemma EntriesNeedAuthority(st: State, input: Input, key: string)
    requires GetEntry(Step(st, input), key) != GetEntry(st, key)
    ensures Touches(st, input, key)
    ensures GetEntry(Step(st, input), key).Success? ==>
              GetEntry(Step(st, input), key).value.updatedBy == input.call.invoker && MayWrite(st, input.call)
  {
    if input.op.BatchUpdate? {
      BatchMeaning(st, input.call, input.op.updates, key);
      if Perform(st, input.call, input.op).Success? && key != RESERVED {
        assert LastFor(input.op.updates, key).Some?;
      }
    }
  }

  // ----- Batches -----

  /** The payload of the last update for `key`. */
  function LastFor(updates: seq<Update>, key: string): Option<Payload> {
    if updates == [] then None
    else
      var n := |updates| - 1;
      if updates[n].key == key then Some(updates[n].payload) else LastFor(updates[..n], key)
  }

  lemma {:induction false} PutAllMeaning(st: State, call: Call, updates: seq<Update>, key: string)
    ensures var st' := PutAll(st, call, updates);
            match LastFor(updates, key)
            case Some(p) => key in st'.persistent && st'.persistent[key] == Config(Entry(p, Version(st), call.now, call.invoker))
            case None => (key in st'.persistent <==> key in st.persistent) &&
                         (key in st.persistent && key in st'.persistent ==> st'.persistent[key] == st.persistent[key])
    ensures Version(PutAll(st, call, updates)) == Version(st)
  {
    if updates == [] {
    } else {
      PutAllMeaning(st, call, updates[..|updates| - 1], key);
    }
  }

  /**
   * A batch is rejected only by its authorization, its size or the version counter; otherwise each key
   * it names ends with its last payload under the new version, and every other key is untouched. Under
   * the reserved key the names of the batch are stored, which no getter reads, even if it names that key.
   */
  lemma BatchMeaning(st: State, call: Call, updates: seq<Update>, key: string)
    ensures var r := Perform(st, call, BatchUpdate(updates));
            && (r.Success? <==> UpdaterCheck(st, call).None? && 1 <= |updates| <= MAX_BATCH && Version(st) < MAX_U32)
            && (r.Success? ==>
                  && Version(r.value) == Version(st) + 1
                  && (key == RESERVED ==>
                        && key in r.value.persistent && r.value.persistent[key] == Snapshot(UpdateKeys(updates))
                        && GetEntry(r.value, key) == Failure(Aborted))
                  && (key != RESERVED ==>
                        match LastFor(updates, key)
                        case Some(p) => GetEntry(r.value, key) == Success(Entry(p, Version(st) + 1, call.now, call.invoker))
                        case None => GetEntry(r.value, key) == GetEntry(st, key)))
  {
    PutAllMeaning(st.(version := Some(Version(st) + 1)), call, updates, key);
  }

  // ----- Typed reading -----

  /** Exactly the getter of the stored type succeeds. */
  lemma OneGetterSucceeds(st: State, key: string, t: ConfigType)
    ensures GetTyped(st, key, t).Success? <==> IsConfig(st, key) && st.persistent[key].entry.payload.configType == t
  {
  }

  function TypeOf(v: Value): ConfigType {
    match v
    case VUint(_) => TUint
    case VAddress(_) => TAddress
    case VBool(_) => TBool
    case VBytes32(_) => TBytes32
    case VString(_) => TString
  }

  /** What was set is what the getter of its type reads, and no other getter reads anything. */
  lemma GetAfterSet(st: State, call: Call, key: string, value: Value, t: ConfigType)
    requires Perform(st, call, SetValue(key, value)).Success?
    ensures var st' := Perform(st, call, SetValue(key, value)).value;
            GetTyped(st', key, t) == if t == TypeOf(value) then Success(value) else Failure(InvalidConfigType)
  {
  }
}
