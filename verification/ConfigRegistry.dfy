/** The on-chain configuration registry: its storage, its operations, and what they do to the storage. */
module ConfigRegistry {
  import opened Wrappers

  datatype ConfigType = TUint | TAddress | TBool | TBytes32 | TString

  /** The value fields of an entry; only the one named by the type matters to a reader. */
  datatype Payload = Payload(
    configType: ConfigType, uintValue: nat, addressValue: string, boolValue: bool,
    bytes32Value: seq<nat>, stringValue: string)

  datatype Entry = Entry(payload: Payload, version: nat, lastUpdated: nat, updatedBy: string)

  /** What the persistent storage holds under a key: an entry, or the key list of the last batch. */
  datatype Stored = Config(entry: Entry) | Snapshot(keys: seq<string>)

  /** The persistent key under which each batch stores its keys. */
  const RESERVED := "version_snapshot"

  const ZERO_ADDRESS := "0"
  const ZERO_BYTES: seq<nat> := []
  const MAX_U32: nat := 0xFFFF_FFFF
  const MAX_BATCH: nat := 50

  datatype Value = VUint(n: nat) | VAddress(a: string) | VBool(b: bool) | VBytes32(bytes: seq<nat>) | VString(s: string)

  function PayloadOf(v: Value): Payload {
    match v
    case VUint(n) => Payload(TUint, n, ZERO_ADDRESS, false, ZERO_BYTES, "")
    case VAddress(a) => Payload(TAddress, 0, a, false, ZERO_BYTES, "")
    case VBool(b) => Payload(TBool, 0, ZERO_ADDRESS, b, ZERO_BYTES, "")
    case VBytes32(bytes) => Payload(TBytes32, 0, ZERO_ADDRESS, false, bytes, "")
    case VString(s) => Payload(TString, 0, ZERO_ADDRESS, false, ZERO_BYTES, s)
  }

  /** `Aborted` stands for a panic of the host: a missing authorization, an overflow, a value of the wrong kind. */
  datatype Error = NotAuthorized | ConfigNotFound | InvalidConfigType | InvalidAddress | BatchTooLarge | Aborted

  /** The caller, the addresses that authorized the call, and the ledger time. */
  datatype Call = Call(invoker: string, authorized: set<string>, now: nat)

  datatype Update = Update(key: string, payload: Payload)

  datatype State = State(
    admin: Option<string>, updater: Option<string>, emergency: Option<string>,
    version: Option<nat>, keys: Option<seq<string>>, persistent: map<string, Stored>)

  const FRESH := State(None, None, None, None, None, map[])

  function Version(st: State): nat {
    if st.version.Some? then st.version.value else 1
  }

  function Keys(st: State): seq<string> {
    if st.keys.Some? then st.keys.value else []
  }

  function AdminCheck(st: State, call: Call): Option<Error> {
    if st.admin.None? then Some(NotAuthorized)
    else if st.admin.value !in call.authorized then Some(Aborted)
    else None
  }

  function UpdaterCheck(st: State, call: Call): Option<Error> {
    if st.updater.None? || st.admin.None? then Some(NotAuthorized)
    else
      var emergency := if st.emergency.Some? then st.emergency.value else st.admin.value;
      if call.invoker != st.updater.value && call.invoker != st.admin.value && call.invoker != emergency then Some(NotAuthorized)
      else if call.invoker !in call.authorized then Some(Aborted)
      else None
  }

  // ----- Operations on the storage -----

  function PutConfig(st: State, call: Call, key: string, payload: Payload): State {
    st.(keys := if key in st.persistent then st.keys else Some(Keys(st) + [key]),
        persistent := st.persistent[key := Config(Entry(payload, Version(st), call.now, call.invoker))])
  }

  function PutAll(st: State, call: Call, updates: seq<Update>): State {
    if updates == [] then st
    else
      var n := |updates| - 1;
      PutConfig(PutAll(st, call, updates[..n]), call, updates[n].key, updates[n].payload)
  }

  function UpdateKeys(updates: seq<Update>): (keys: seq<string>)
    ensures |keys| == |updates|
  {
    seq(|updates|, i requires 0 <= i < |updates| => updates[i].key)
  }

  function Without(keys: seq<string>, key: string): seq<string> {
    if keys == [] then []
    else if keys[0] == key then Without(keys[1..], key)
    else [keys[0]] + Without(keys[1..], key)
  }

  datatype Operation =
    | Initialize(admin: string, updater: string, emergency: string)
    | SetValue(key: string, value: Value)
    | BatchUpdate(updates: seq<Update>)
    | DeleteConfig(key: string)
    | UpdateAdmin(address: string)
    | UpdateUpdater(address: string)
    | UpdateEmergency(address: string)

  function Perform(st: State, call: Call, op: Operation): Result<State, Error> {
    match op
    case Initialize(admin, updater, emergency) =>
      if st.admin.Some? || admin !in call.authorized || updater !in call.authorized then Failure(Aborted)
      else Success(st.(admin := Some(admin), updater := Some(updater), emergency := Some(emergency),
                       version := Some(1), keys := Some([])))
    case SetValue(key, value) =>
      var denied := UpdaterCheck(st, call);
      if denied.Some? then Failure(denied.value)
      else if value == VAddress(ZERO_ADDRESS) then Failure(InvalidAddress)
      else Success(PutConfig(st, call, key, PayloadOf(value)))
    case BatchUpdate(updates) =>
      var denied := UpdaterCheck(st, call);
      if denied.Some? then Failure(denied.value)
      else if updates == [] || |updates| > MAX_BATCH then Failure(BatchTooLarge)
      else if Version(st) >= MAX_U32 then Failure(Aborted)
      else
        var done := PutAll(st.(version := Some(Version(st) + 1)), call, updates);
        Success(done.(persistent := done.persistent[RESERVED := Snapshot(UpdateKeys(updates))]))
    case DeleteConfig(key) =>
      var denied := AdminCheck(st, call);
      if denied.Some? then Failure(denied.value)
      else if key !in st.persistent then Failure(ConfigNotFound)
      else Success(st.(persistent := st.persistent - {key}, keys := Some(Without(Keys(st), key))))
    case UpdateAdmin(address) =>
      var denied := AdminCheck(st, call);
      if denied.Some? then Failure(denied.value)
      else if address !in call.authorized then Failure(Aborted)
      else Success(st.(admin := Some(address)))
    case UpdateUpdater(address) =>
      var denied := AdminCheck(st, call);
      if denied.Some? then Failure(denied.value)
      else if address !in call.authorized then Failure(Aborted)
      else Success(st.(updater := Some(address)))
    case UpdateEmergency(address) =>
      var denied := AdminCheck(st, call);
      if denied.Some? then Failure(denied.value)
      else Success(st.(emergency := Some(address)))
  }

  // ----- Reading -----

  function GetEntry(st: State, key: string): Result<Entry, Error> {
    if key !in st.persistent then Failure(ConfigNotFound)
    else if st.persistent[key].Snapshot? then Failure(Aborted)
    else Success(st.persistent[key].entry)
  }

  /** The typed getter for `t`. */
  function GetTyped(st: State, key: string, t: ConfigType): Result<Value, Error> {
    var entry := GetEntry(st, key);
    if entry.Failure? then Failure(entry.error)
    else
      var p := entry.value.payload;
      if p.configType != t then Failure(InvalidConfigType)
      else
        Success(match t
                case TUint => VUint(p.uintValue)
                case TAddress => VAddress(p.addressValue)
                case TBool => VBool(p.boolValue)
                case TBytes32 => VBytes32(p.bytes32Value)
                case TString => VString(p.stringValue))
  }

  // ----- The contract -----

  class Registry {
    var admin: Option<string>
    var updater: Option<string>
    var emergency: Option<string>
    var version: Option<nat>
    var keys: Option<seq<string>>
    var persistent: map<string, Stored>

    function Storage(): State
      reads this
    {
      State(admin, updater, emergency, version, keys, persistent)
    }

    constructor ()
      ensures Storage() == FRESH
    {
      admin, updater, emergency, version, keys, persistent := None, None, None, None, None, map[];
    }

    method PutEntry(call: Call, key: string, payload: Payload)
      modifies this`keys, this`persistent
      ensures Storage() == PutConfig(old(Storage()), call, key, payload)
    {
      var isNew := key !in persistent;
      var current := Version(Storage());
      if isNew {
        keys := Some(Keys(Storage()) + [key]);
      }
      persistent := persistent[key := Config(Entry(payload, current, call.now, call.invoker))];
    }

    /** The batch handler; the entry written is read back to stamp its version, which cannot fail. */
    method RunBatch(call: Call, updates: seq<Update>) returns (r: Result<(), Error>)
      modifies this
      ensures r.Success? ==> Perform(old(Storage()), call, BatchUpdate(updates)) == Success(Storage())
      ensures r.Failure? ==> Perform(old(Storage()), call, BatchUpdate(updates)) == Failure(r.error)
      ensures r.Failure? ==> Storage() == old(Storage())
    {
      var denied := UpdaterCheck(Storage(), call);
      if denied.Some? { return Failure(denied.value); }
      if |updates| == 0 || |updates| > MAX_BATCH { return Failure(BatchTooLarge); }
      var current := Version(Storage());
      if current >= MAX_U32 { return Failure(Aborted); }
      current := current + 1;
      version := Some(current);
      ghost var start := Storage();
      var updatedKeys := [];
      for i := 0 to |updates|
        invariant Storage() == PutAll(start, call, updates[..i]) && version == Some(current)
        invariant updatedKeys == UpdateKeys(updates)[..i]
      {
        assert updates[..i + 1][..i] == updates[..i];
        var u := updates[i];
        updatedKeys := updatedKeys + [u.key];
        PutEntry(call, u.key, u.payload);
        var entry := GetEntry(Storage(), u.key);
        assert entry.Success?;
        persistent := persistent[u.key := Config(entry.value.(version := current))];
      }
      assert updates[..|updates|] == updates && updatedKeys == UpdateKeys(updates);
      persistent := persistent[RESERVED := Snapshot(updatedKeys)];
      r := Success(());
    }

    method RunDelete(call: Call, key: string) returns (r: Result<(), Error>)
      modifies this
      ensures r.Success? ==> Perform(old(Storage()), call, DeleteConfig(key)) == Success(Storage())
      ensures r.Failure? ==> Perform(old(Storage()), call, DeleteConfig(key)) == Failure(r.error)
      ensures r.Failure? ==> Storage() == old(Storage())
    {
      var denied := AdminCheck(Storage(), call);
      if denied.Some? { return Failure(denied.value); }
      if key !in persistent { return Failure(ConfigNotFound); }
      persistent := persistent - {key};
      var listed := Keys(Storage());
      var kept := [];
      for i := 0 to |listed|
        invariant kept + Without(listed[i..], key) == Without(listed, key)
      {
        if listed[i] != key {
          kept := kept + [listed[i]];
        }
      }
      assert kept == Without(listed, key);
      keys := Some(kept);
      r := Success(());
    }

    /** Any operation; one that fails leaves the storage as it was. */
    method Run(call: Call, op: Operation) returns (r: Result<(), Error>)
      modifies this
      ensures r.Success? ==> Perform(old(Storage()), call, op) == Success(Storage())
      ensures r.Failure? ==> Perform(old(Storage()), call, op) == Failure(r.error) && Storage() == old(Storage())
    {
      match op
      case Initialize(a, u, e) =>
        if admin.Some? || a !in call.authorized || u !in call.authorized { return Failure(Aborted); }
        admin, updater, emergency, version, keys := Some(a), Some(u), Some(e), Some(1), Some([]);
        r := Success(());
      case SetValue(key, value) =>
        var denied := UpdaterCheck(Storage(), call);
        if denied.Some? { return Failure(denied.value); }
        if value == VAddress(ZERO_ADDRESS) { return Failure(InvalidAddress); }
        PutEntry(call, key, PayloadOf(value));
        r := Success(());
      case BatchUpdate(updates) =>
        r := RunBatch(call, updates);
      case DeleteConfig(key) =>
        r := RunDelete(call, key);
      case UpdateAdmin(address) =>
        var denied := AdminCheck(Storage(), call);
        if denied.Some? { return Failure(denied.value); }
        if address !in call.authorized { return Failure(Aborted); }
        admin := Some(address);
        r := Success(());
      case UpdateUpdater(address) =>
        var denied := AdminCheck(Storage(), call);
        if denied.Some? { return Failure(denied.value); }
        if address !in call.authorized { return Failure(Aborted); }
        updater := Some(address);
        r := Success(());
      case UpdateEmergency(address) =>
        var denied := AdminCheck(Storage(), call);
        if denied.Some? { return Failure(denied.value); }
        emergency := Some(address);
        r := Success(());
    }
  }
}
