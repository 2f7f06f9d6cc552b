/** The API key table and the service calls that change it. A key's id is its position in the table. */
module ApiKeys {
  import opened Wrappers

  datatype Status = Active | Expired | Rotated | Revoked

  datatype ApiKey = ApiKey(
    merchantId: string, name: string, description: string, role: string, keyHash: string,
    status: Status, expiresAt: Option<int>, requestCount: nat, lastUsedAt: Option<int>,
    updatedAt: int, rotatedFrom: Option<nat>)

  datatype Settings = Settings(defaultExpiryDays: int, graceHours: int)

  const HOUR_MS: int := 3_600_000
  const DAY_MS: int := 24 * HOUR_MS

  datatype Error = InvalidKey | KeyExpired | NotFound | WrongMerchant | AlreadyRevoked

  datatype Request =
    | Create(merchantId: string, name: string, description: string, role: string, days: Option<int>, keyHash: string)
    | Validate(keyHash: string)
    | Rotate(id: nat, merchantId: string, keyHash: string)
    | Revoke(id: nat, merchantId: string)
    | ProcessExpired
    | CleanupRotated

  type Table = seq<ApiKey>

  // ----- Repository operations -----

  function SetStatus(rows: Table, id: nat, status: Status, now: int): (r: Table)
    ensures |r| == |rows|
  {
    if id < |rows| then rows[id := rows[id].(status := status, updatedAt := now)] else rows
  }

  function CountUse(rows: Table, id: nat, now: int): (r: Table)
    ensures |r| == |rows|
  {
    if id < |rows| then
      rows[id := rows[id].(requestCount := rows[id].requestCount + 1, lastUsedAt := Some(now), updatedAt := now)]
    else rows
  }

  /** The first active key with the hash. */
  function FindActive(rows: Table, keyHash: string): (r: Option<nat>)
    ensures r.Some? ==> r.value < |rows| && rows[r.value].keyHash == keyHash && rows[r.value].status == Active
    ensures r.None? ==> forall i :: 0 <= i < |rows| ==> !(rows[i].keyHash == keyHash && rows[i].status == Active)
  {
    if rows == [] then None
    else
      var n := |rows| - 1;
      var earlier := FindActive(rows[..n], keyHash);
      if earlier.Some? then earlier
      else if rows[n].keyHash == keyHash && rows[n].status == Active then Some(n)
      else None
  }

  predicate PastExpiry(key: ApiKey, now: int) {
    key.expiresAt.Some? && now > key.expiresAt.value
  }

  predicate IsOverdue(key: ApiKey, now: int) {
    key.status == Active && PastExpiry(key, now)
  }

  predicate IsPastGrace(key: ApiKey, settings: Settings, now: int) {
    key.status == Rotated && key.updatedAt < now - settings.graceHours * HOUR_MS
  }

  /** The table with the status of all selected keys changed. */
  function Sweep(rows: Table, selected: ApiKey -> bool, status: Status, now: int): (r: Table)
    ensures |r| == |rows|
    ensures forall i :: 0 <= i < |rows| ==>
              r[i] == if selected(rows[i]) then rows[i].(status := status, updatedAt := now) else rows[i]
  {
    seq(|rows|, i requires 0 <= i < |rows| =>
      if selected(rows[i]) then rows[i].(status := status, updatedAt := now) else rows[i])
  }

  // ----- Service calls -----

  function NewKey(settings: Settings, request: Request, now: int): ApiKey
    requires request.Create?
  {
    var days := if request.days.Some? && request.days.value != 0 then request.days.value else settings.defaultExpiryDays;
    ApiKey(request.merchantId, request.name, request.description, if request.role == "" then "user" else request.role,
           request.keyHash, Active, Some(now + days * DAY_MS), 0, None, now, None)
  }

  function Successor(settings: Settings, rows: Table, id: nat, keyHash: string, now: int): ApiKey
    requires id < |rows|
  {
    ApiKey(rows[id].merchantId, rows[id].name, rows[id].description, rows[id].role,
           keyHash, Active, Some(now + settings.defaultExpiryDays * DAY_MS), 0, None, now, Some(id))
  }

  /**
   * The table after a call and the call's result: the id of the created, validated or rotated-to key,
   * or the number of keys a job changed. An expired key is marked even though its validation fails.
   */
  function Serve(settings: Settings, rows: Table, request: Request, now: int): (Table, Result<nat, Error>) {
    match request
    case Create(_, _, _, _, _, _) => (rows + [NewKey(settings, request, now)], Success(|rows|))
    case Validate(keyHash) =>
      var id := FindActive(rows, keyHash);
      if id.None? then (rows, Failure(InvalidKey))
      else if PastExpiry(rows[id.value], now) then (SetStatus(rows, id.value, Expired, now), Failure(KeyExpired))
      else (CountUse(rows, id.value, now), Success(id.value))
    case Rotate(id, merchantId, keyHash) =>
      if id >= |rows| then (rows, Failure(NotFound))
      else if rows[id].merchantId != merchantId then (rows, Failure(WrongMerchant))
      else if rows[id].status == Revoked then (rows, Failure(AlreadyRevoked))
      else (SetStatus(rows + [Successor(settings, rows, id, keyHash, now)], id, Rotated, now), Success(|rows|))
    case Revoke(id, merchantId) =>
      if id >= |rows| then (rows, Failure(NotFound))
      else if rows[id].merchantId != merchantId then (rows, Failure(WrongMerchant))
      else if rows[id].status == Revoked then (rows, Failure(AlreadyRevoked))
      else (SetStatus(rows, id, Revoked, now), Success(id))
    case ProcessExpired =>
      (Sweep(rows, key => IsOverdue(key, now), Expired, now), Success(|Selected(rows, key => IsOverdue(key, now))|))
    case CleanupRotated =>
      (Sweep(rows, key => IsPastGrace(key, settings, now), Revoked, now),
       Success(|Selected(rows, key => IsPastGrace(key, settings, now))|))
  }

  /** The ids of the selected keys, in table order. */
  function Selected(rows: Table, selected: ApiKey -> bool): seq<nat> {
    if rows == [] then []
    else
      var n := |rows| - 1;
      if selected(rows[n]) then Selected(rows[..n], selected) + [n] else Selected(rows[..n], selected)
  }

  // ----- The service -----

  class ApiKeyService {
    const settings: Settings
    var rows: Table

    constructor (settings: Settings)
      ensures rows == [] && this.settings == settings
    {
      this.settings := settings;
      rows := [];
    }

    method CreateApiKey(request: Request, now: int) returns (r: Result<nat, Error>)
      requires request.Create?
      modifies this
      ensures (rows, r) == Serve(settings, old(rows), request, now)
    {
      r := Success(|rows|);
      rows := rows + [NewKey(settings, request, now)];
    }

    method UpdateStatus(id: nat, status: Status, now: int)
      modifies this
      ensures rows == SetStatus(old(rows), id, status, now)
    {
      if id < |rows| {
        rows := rows[id := rows[id].(status := status, updatedAt := now)];
      }
    }

    method RecordUsage(id: nat, now: int)
      modifies this
      ensures rows == CountUse(old(rows), id, now)
    {
      if id < |rows| {
        rows := rows[id := rows[id].(requestCount := rows[id].requestCount + 1, lastUsedAt := Some(now), updatedAt := now)];
      }
    }

    method ValidateApiKey(keyHash: string, now: int) returns (r: Result<nat, Error>)
      modifies this
      ensures (rows, r) == Serve(settings, old(rows), Validate(keyHash), now)
    {
      var id := FindActive(rows, keyHash);
      if id.None? {
        return Failure(InvalidKey);
      }
      if PastExpiry(rows[id.value], now) {
        UpdateStatus(id.value, Expired, now);
        return Failure(KeyExpired);
      }
      RecordUsage(id.value, now);
      r := Success(id.value);
    }

    method RotateApiKey(id: nat, merchantId: string, keyHash: string, now: int) returns (r: Result<nat, Error>)
      modifies this
      ensures (rows, r) == Serve(settings, old(rows), Rotate(id, merchantId, keyHash), now)
    {
      if id >= |rows| {
        return Failure(NotFound);
      }
      if rows[id].merchantId != merchantId {
        return Failure(WrongMerchant);
      }
      if rows[id].status == Revoked {
        return Failure(AlreadyRevoked);
      }
      var newId := |rows|;
      rows := rows + [Successor(settings, rows, id, keyHash, now)];
      UpdateStatus(id, Rotated, now);
      r := Success(newId);
    }

    method RevokeApiKey(id: nat, merchantId: string, now: int) returns (r: Result<nat, Error>)
      modifies this
      ensures (rows, r) == Serve(settings, old(rows), Revoke(id, merchantId), now)
    {
      if id >= |rows| {
        return Failure(NotFound);
      }
      if rows[id].merchantId != merchantId {
        return Failure(WrongMerchant);
      }
      if rows[id].status == Revoked {
        return Failure(AlreadyRevoked);
      }
      UpdateStatus(id, Revoked, now);
      r := Success(id);
    }

    /** Changes the status of the keys found before the loop, one at a time. */
    method UpdateAll(selected: ApiKey -> bool, status: Status, now: int) returns (count: nat)
      modifies this
      ensures rows == Sweep(old(rows), selected, status, now)
      ensures count == |Selected(old(rows), selected)|
    {
      var ids := Selected(rows, selected);
      SelectedIds(rows, selected);
      for k := 0 to |ids|
        invariant |rows| == |old(rows)|
        invariant forall i :: 0 <= i < |rows| ==>
                    rows[i] == if i in ids[..k] then old(rows)[i].(status := status, updatedAt := now) else old(rows)[i]
      {
        UpdateStatus(ids[k], status, now);
      }
      assert ids[..|ids|] == ids;
      count := |ids|;
    }

    method ProcessExpiredKeys(now: int) returns (count: nat)
      modifies this
      ensures (rows, Success(count)) == Serve(settings, old(rows), ProcessExpired, now)
    {
      count := UpdateAll(key => IsOverdue(key, now), Expired, now);
    }

    method CleanupRotatedKeys(now: int) returns (count: nat)
      modifies this
      ensures (rows, Success(count)) == Serve(settings, old(rows), CleanupRotated, now)
    {
      count := UpdateAll(key => IsPastGrace(key, settings, now), Revoked, now);
    }
  }

  lemma {:induction false} SelectedIds(rows: Table, selected: ApiKey -> bool)
    ensures forall i: nat :: i in Selected(rows, selected) <==> i < |rows| && selected(rows[i])
  {
    if rows == [] {
    } else {
      SelectedIds(rows[..|rows| - 1], selected);
    }
  }
}
