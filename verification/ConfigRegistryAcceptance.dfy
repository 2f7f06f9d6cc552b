/**
 * Exactly which operations the configuration registry accepts, and the storage each leaves behind, said in
 * terms of the stored cells alone.
 */
module ConfigRegistryAcceptance {
  import opened Wrappers
  import opened ConfigRegistry
  import opened ConfigRegistrySafety

  /** The caller authorized the call and is in one of the three offices; without an emergency admin the admin stands in. */
  predicate CallerMayWrite(st: State, call: Call) {
    && st.updater.Some? && st.admin.Some? && call.invoker in call.authorized
    && (st.updater == Some(call.invoker) || st.admin == Some(call.invoker) || st.emergency == Some(call.invoker))
  }

  predicate AdminAuthorized(st: State, call: Call) {
    st.admin.Some? && st.admin.value in call.authorized
  }

  /** When an operation is accepted. */
  predicate Acceptable(st: State, call: Call, op: Operation) {
    match op
    case Initialize(admin, updater, _) => st.admin.None? && admin in call.authorized && updater in call.authorized
    case SetValue(_, value) => CallerMayWrite(st, call) && (value.VAddress? ==> value.a != "0")
    case BatchUpdate(updates) =>
      && CallerMayWrite(st, call) && 1 <= |updates| <= 50
      && (st.version.None? || st.version.value < 0xFFFF_FFFF)
    case DeleteConfig(key) => AdminAuthorized(st, call) && key in st.persistent
    case UpdateAdmin(address) => AdminAuthorized(st, call) && address in call.authorized
    case UpdateUpdater(address) => AdminAuthorized(st, call) && address in call.authorized
    case UpdateEmergency(_) => AdminAuthorized(st, call)
  }

  /** An operation succeeds exactly if it is acceptable. */
  lemma AcceptedExactly(st: State, call: Call, op: Operation)
    ensures Perform(st, call, op).Success? <==> Acceptable(st, call, op)
  {
  }

  /** The storage after each accepted operation but a batch, whose keys `BatchCells` describes. */
  ghost predicate CellsAfter(st: State, call: Call, op: Operation, st': State) {
    match op
    case Initialize(admin, updater, emergency) =>
      st' == State(Some(admin), Some(updater), Some(emergency), Some(1), Some([]), st.persistent)
    case SetValue(key, value) =>
      && st' == st.(keys := st'.keys, persistent := st'.persistent)
      && st'.persistent.Keys == st.persistent.Keys + {key}
      && (forall k :: k in st.persistent && k != key ==> st'.persistent[k] == st.persistent[k])
      && Wrote(st', key, value, call, if st.version.Some? then st.version.value else 1)
      && st'.keys == (if key in st.persistent then st.keys else Some((if st.keys.Some? then st.keys.value else []) + [key]))
    case DeleteConfig(key) =>
      && st' == st.(keys := st'.keys, persistent := st'.persistent)
      && st'.persistent.Keys == st.persistent.Keys - {key}
      && (forall k :: k in st'.persistent ==> st'.persistent[k] == st.persistent[k])
      && st'.keys.Some? && OthersOf(if st.keys.Some? then st.keys.value else [], key, st'.keys.value)
    case UpdateAdmin(address) => st' == st.(admin := Some(address))
    case UpdateUpdater(address) => st' == st.(updater := Some(address))
    case UpdateEmergency(address) => st' == st.(emergency := Some(address))
    case BatchUpdate(_) => true
  }

  /** The entry under the key carries the value in the field of its type, and who wrote it when under which version. */
  predicate Wrote(st: State, key: string, value: Value, call: Call, version: nat) {
    && key in st.persistent && st.persistent[key].Config?
    && var entry := st.persistent[key].entry;
       && entry.version == version && entry.lastUpdated == call.now && entry.updatedBy == call.invoker
       && match value
          case VUint(n) => entry.payload.configType == TUint && entry.payload.uintValue == n
          case VAddress(a) => entry.payload.configType == TAddress && entry.payload.addressValue == a
          case VBool(b) => entry.payload.configType == TBool && entry.payload.boolValue == b
          case VBytes32(bytes) => entry.payload.configType == TBytes32 && entry.payload.bytes32Value == bytes
          case VString(s) => entry.payload.configType == TString && entry.payload.stringValue == s
  }

  /** The listed keys but one, in their order. */
  ghost predicate OthersOf(keys: seq<string>, key: string, others: seq<string>)
    decreases keys
  {
    if keys == [] then others == []
    else if keys[|keys| - 1] == key then OthersOf(keys[..|keys| - 1], key, others)
    else others != [] && others[|others| - 1] == keys[|keys| - 1] && OthersOf(keys[..|keys| - 1], key, others[..|others| - 1])
  }

  lemma {:induction false} WithoutSnoc(keys: seq<string>, k: string, key: string)
    ensures Without(keys + [k], key) == if k == key then Without(keys, key) else Without(keys, key) + [k]
  {
    if keys == [] {
      assert keys + [k] == [k] && [k][1..] == [];
    } else {
      WithoutSnoc(keys[1..], k, key);
      assert (keys + [k])[0] == keys[0] && (keys + [k])[1..] == keys[1..] + [k];
    }
  }

  lemma {:induction false} WithoutIsOthers(keys: seq<string>, key: string)
    ensures OthersOf(keys, key, Without(keys, key))
    decreases keys
  {
    if keys == [] {
    } else {
      var n := |keys| - 1;
      WithoutIsOthers(keys[..n], key);
      WithoutSnoc(keys[..n], keys[n], key);
      assert keys == keys[..n] + [keys[n]];
    }
  }

  lemma AcceptedCells(st: State, call: Call, op: Operation)
    requires Perform(st, call, op).Success?
    ensures CellsAfter(st, call, op, Perform(st, call, op).value)
  {
    if op.DeleteConfig? {
      WithoutIsOthers(Keys(st), op.key);
    }
  }

  /** The last update of a batch for a key. */
  predicate IsLast(updates: seq<Update>, key: string, i: nat) {
    && i < |updates| && updates[i].key == key
    && forall j :: i < j < |updates| ==> updates[j].key != key
  }

  lemma {:induction false} LastUpdate(updates: seq<Update>, key: string, i: nat)
    requires IsLast(updates, key, i)
    ensures LastFor(updates, key) == Some(updates[i].payload)
    decreases |updates|
  {
    var n := |updates| - 1;
    if i < n {
      LastUpdate(updates[..n], key, i);
    }
  }

  lemma {:induction false} NoUpdate(updates: seq<Update>, key: string)
    requires forall j :: 0 <= j < |updates| ==> updates[j].key != key
    ensures LastFor(updates, key).None?
    decreases |updates|
  {
    if updates == [] {
    } else {
      NoUpdate(updates[..|updates| - 1], key);
    }
  }

  /** An accepted batch: the next version, each named key with its last payload, the names under the reserved key, the rest as it was. */
  lemma BatchCells(st: State, call: Call, updates: seq<Update>, key: string)
    requires Perform(st, call, BatchUpdate(updates)).Success?
    ensures var st', version := Perform(st, call, BatchUpdate(updates)).value, if st.version.Some? then st.version.value else 1;
            && st' == st.(version := Some(version + 1), keys := st'.keys, persistent := st'.persistent)
            && "version_snapshot" in st'.persistent && st'.persistent["version_snapshot"].Snapshot?
            && (forall i: nat :: IsLast(updates, key, i) && key != "version_snapshot" ==>
                  key in st'.persistent
                  && st'.persistent[key] == Config(Entry(updates[i].payload, version + 1, call.now, call.invoker)))
            && ((forall j :: 0 <= j < |updates| ==> updates[j].key != key) && key != "version_snapshot" ==>
                  (key in st'.persistent <==> key in st.persistent) && (key in st.persistent ==> st'.persistent[key] == st.persistent[key]))
  {
    var start := st.(version := Some(Version(st) + 1));
    PutAllMeaning(start, call, updates, key);
    PutAllKeepsRest(start, call, updates);
    forall i: nat | IsLast(updates, key, i)
      ensures LastFor(updates, key) == Some(updates[i].payload)
    {
      LastUpdate(updates, key, i);
    }
    if forall j :: 0 <= j < |updates| ==> updates[j].key != key {
      NoUpdate(updates, key);
    }
  }

  // ----- Why an operation fails -----

  predicate InOffice(st: State, invoker: string) {
    && st.updater.Some? && st.admin.Some?
    && (st.updater == Some(invoker) || st.admin == Some(invoker) || st.emergency == Some(invoker))
  }

  /** The error of a failing write: no office, then no authorization, then what is wrong with the data. */
  lemma WriteErrors(st: State, call: Call, op: Operation)
    requires (op.SetValue? || op.BatchUpdate?) && Perform(st, call, op).Failure?
    ensures var e := Perform(st, call, op).error;
            && (!InOffice(st, call.invoker) ==> e == NotAuthorized)
            && (InOffice(st, call.invoker) && call.invoker !in call.authorized ==> e == Aborted)
            && (InOffice(st, call.invoker) && call.invoker in call.authorized && op.SetValue? ==> e == InvalidAddress)
            && (InOffice(st, call.invoker) && call.invoker in call.authorized && op.BatchUpdate? ==>
                  e == if op.updates == [] || |op.updates| > 50 then BatchTooLarge else Aborted)
  {
  }

  /** The error of a failing operation of the admin: none is set, or did not authorize it, or the key is not stored. */
  lemma AdminErrors(st: State, call: Call, op: Operation)
    requires !op.SetValue? && !op.BatchUpdate? && Perform(st, call, op).Failure?
    ensures var e := Perform(st, call, op).error;
            && (op.Initialize? ==> e == Aborted)
            && (!op.Initialize? && st.admin.None? ==> e == NotAuthorized)
            && (!op.Initialize? && st.admin.Some? && st.admin.value !in call.authorized ==> e == Aborted)
            && (!op.Initialize? && AdminAuthorized(st, call) ==> e == if op.DeleteConfig? then ConfigNotFound else Aborted)
  {
  }
}
