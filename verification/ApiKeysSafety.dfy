/** What holds over whole runs of the API key service. */
module ApiKeysSafety {
  import opened Wrappers
  import opened ApiKeys

  datatype Call = Call(request: Request, now: int)

  function Step(settings: Settings, rows: Table, call: Call): Table {
    Serve(settings, rows, call.request, call.now).0
  }

  function After(settings: Settings, rows: Table, run: seq<Call>): Table {
    if run == [] then rows else Step(settings, After(settings, rows, run[..|run| - 1]), run[|run| - 1])
  }

  // ----- What the calls store -----

  /** A new key: the caller's data, active, unused, and valid for the given number of days or the default. */
  lemma NewKeyMeaning(settings: Settings, rows: Table, request: Request, now: int)
    requires request.Create?
    ensures var (after, r) := Serve(settings, rows, request, now);
            && r == Success(|rows|) && |after| == |rows| + 1 && after[..|rows|] == rows
            && var key := after[|rows|];
               && key.merchantId == request.merchantId && key.name == request.name && key.description == request.description
               && key.keyHash == request.keyHash && key.status == Active && key.requestCount == 0
               && key.lastUsedAt.None? && key.rotatedFrom.None?
               && key.role == (if request.role == "" then "user" else request.role)
               && (request.days.Some? && request.days.value != 0 ==> key.expiresAt == Some(now + request.days.value * 86_400_000))
               && (request.days.None? || request.days.value == 0 ==> key.expiresAt == Some(now + settings.defaultExpiryDays * 86_400_000))
  {
  }

  /** The first active key with the hash, if any. */
  lemma {:induction false} FoundIsFirst(rows: Table, keyHash: string)
    ensures var id := FindActive(rows, keyHash);
            id.Some? ==> forall i :: 0 <= i < id.value ==> !(rows[i].keyHash == keyHash && rows[i].status == Active)
  {
    if rows == [] {
    } else {
      FoundIsFirst(rows[..|rows| - 1], keyHash);
    }
  }

  /** The key a validation is about: no earlier key is active and has the hash. */
  predicate IsCandidate(rows: Table, keyHash: string, id: nat) {
    && id < |rows| && rows[id].keyHash == keyHash && rows[id].status == Active
    && forall i :: 0 <= i < id ==> !(rows[i].keyHash == keyHash && rows[i].status == Active)
  }

  /** A validation counts a use of its candidate, or expires it when it is overdue; without one it fails and changes nothing. */
  lemma ValidationEffect(settings: Settings, rows: Table, keyHash: string, now: int)
    ensures var (after, r) := Serve(settings, rows, Validate(keyHash), now);
            && (forall id: nat :: IsCandidate(rows, keyHash, id) ==>
                  if rows[id].expiresAt.Some? && rows[id].expiresAt.value < now
                  then r == Failure(KeyExpired) && after == rows[id := rows[id].(status := Expired, updatedAt := now)]
                  else r == Success(id) && after == rows[id := rows[id].(requestCount := rows[id].requestCount + 1,
                                                                         lastUsedAt := Some(now), updatedAt := now)])
            && ((forall i :: 0 <= i < |rows| ==> !(rows[i].keyHash == keyHash && rows[i].status == Active)) ==>
                  r == Failure(InvalidKey) && after == rows)
  {
    FoundIsFirst(rows, keyHash);
    forall id: nat | IsCandidate(rows, keyHash, id)
      ensures FindActive(rows, keyHash) == Some(id)
    {
      var found := FindActive(rows, keyHash).value;
      assert found < id || id < found || found == id;
    }
  }

  /** Why a rotation or a revocation fails: an unknown key, another merchant's, or a revoked one, in this order. */
  lemma RefusalMeaning(settings: Settings, rows: Table, request: Request, now: int)
    requires request.Rotate? || request.Revoke?
    ensures var r := Serve(settings, rows, request, now).1;
            r.Failure? ==> r.error == if request.id >= |rows| then NotFound
                                      else if rows[request.id].merchantId != request.merchantId then WrongMerchant else AlreadyRevoked
  {
  }

  /** A rotation: accepted for an unrevoked key of the merchant; its successor is a fresh key with its data. */
  lemma RotationMeaning(settings: Settings, rows: Table, id: nat, merchantId: string, keyHash: string, now: int)
    ensures var (after, r) := Serve(settings, rows, Rotate(id, merchantId, keyHash), now);
            && (r.Success? <==> id < |rows| && rows[id].merchantId == merchantId && rows[id].status != Revoked)
            && (r.Success? ==>
                  && r.value == |rows| && |after| == |rows| + 1
                  && after[id].status == Rotated && after[id].updatedAt == now
                  && (forall i :: 0 <= i < |rows| && i != id ==> after[i] == rows[i])
                  && after[|rows|] == rows[id].(keyHash := keyHash, status := Active, requestCount := 0, lastUsedAt := None, updatedAt := now,
                                                rotatedFrom := Some(id), expiresAt := Some(now + settings.defaultExpiryDays * 86_400_000)))
            && (r.Failure? ==> after == rows)
  {
  }

  /** A revocation: accepted for an unrevoked key of the merchant, and changing that key's status only. */
  lemma RevocationMeaning(settings: Settings, rows: Table, id: nat, merchantId: string, now: int)
    ensures var (after, r) := Serve(settings, rows, Revoke(id, merchantId), now);
            && (r.Success? <==> id < |rows| && rows[id].merchantId == merchantId && rows[id].status != Revoked)
            && (r.Success? ==> after == rows[id := rows[id].(status := Revoked, updatedAt := now)])
            && (r.Failure? ==> after == rows)
  {
  }

  /** The jobs: overdue active keys expire, and rotated keys are revoked once their grace hours are over. */
  lemma JobsMeaning(settings: Settings, rows: Table, now: int, i: nat)
    requires i < |rows|
    ensures var expired := Step(settings, rows, Call(ProcessExpired, now));
            && |expired| == |rows|
            && expired[i] == if rows[i].status == Active && rows[i].expiresAt.Some? && rows[i].expiresAt.value < now
                             then rows[i].(status := Expired, updatedAt := now) else rows[i]
    ensures var cleaned := Step(settings, rows, Call(CleanupRotated, now));
            && |cleaned| == |rows|
            && cleaned[i] == if rows[i].status == Rotated && rows[i].updatedAt < now - settings.graceHours * 3_600_000
                             then rows[i].(status := Revoked, updatedAt := now) else rows[i]
  {
  }

  // ----- Status only moves forward -----

  function Rank(status: Status): nat {
    match status
    case Active => 0
    case Expired => 1
    case Rotated => 2
    case Revoked => 3
  }

  /** A key later in its life: the same identity, and a status no earlier. */
  ghost predicate Follows(before: ApiKey, after: ApiKey) {
    && after.merchantId == before.merchantId && after.name == before.name && after.role == before.role
    && after.keyHash == before.keyHash && after.expiresAt == before.expiresAt && after.rotatedFrom == before.rotatedFrom
    && Rank(before.status) <= Rank(after.status)
    && before.requestCount <= after.requestCount
  }

  ghost predicate Extends(before: Table, after: Table) {
    |before| <= |after| && forall i :: 0 <= i < |before| ==> Follows(before[i], after[i])
  }

  lemma StepExtends(settings: Settings, rows: Table, call: Call)
    ensures Extends(rows, Step(settings, rows, call))
  {
  }

  /** No key is lost, changes its identity, or moves back in status, whatever calls are made. */
  lemma {:induction false} RunExtends(settings: Settings, rows: Table, run: seq<Call>)
    ensures Extends(rows, After(settings, rows, run))
    decreases |run|
  {
    if run == [] {
    } else {
      RunExtends(settings, rows, run[..|run| - 1]);
      StepExtends(settings, After(settings, rows, run[..|run| - 1]), run[|run| - 1]);
    }
  }

  /** Some call validated key `id`. */
  predicate Validates(settings: Settings, rows: Table, call: Call, id: nat) {
    call.request.Validate? && Serve(settings, rows, call.request, call.now).1 == Success(id)
  }

  /** A key that has left the active status is never validated again; there is no grace period. */
  lemma NeverValidatedAgain(settings: Settings, rows: Table, run: seq<Call>, call: Call, id: nat)
    requires id < |rows| && rows[id].status != Active
    ensures !Validates(settings, After(settings, rows, run), call, id)
  {
    RunExtends(settings, rows, run);
  }

  /** Validation succeeds exactly on an active, unexpired key with the hash, and names such a key. */
  lemma ValidationMeaning(settings: Settings, rows: Table, keyHash: string, now: int)
    requires forall i, j :: 0 <= i < j < |rows| ==> rows[i].keyHash != rows[j].keyHash
    ensures var r := Serve(settings, rows, Validate(keyHash), now).1;
            && (r.Success? ==> r.value < |rows|)
            && (forall id :: 0 <= id < |rows| ==>
                  (r == Success(id) <==>
                   rows[id].keyHash == keyHash && rows[id].status == Active && !PastExpiry(rows[id], now)))
  {
  }

  /** The request took key `id` out of service. */
  predicate Retires(settings: Settings, rows: Table, call: Call, id: nat) {
    match call.request
    case Rotate(former, _, _) => former == id && Serve(settings, rows, call.request, call.now).1.Success?
    case Revoke(former, _) => former == id && Serve(settings, rows, call.request, call.now).1.Success?
    case ProcessExpired => id < |rows| && PastExpiry(rows[id], call.now)
    case _ => false
  }

  /** Rotation, revocation and the expiry job end a key's validity for good. */
  lemma RetiredKeysStayOut(settings: Settings, rows: Table, retirement: Call, run: seq<Call>, call: Call, id: nat)
    requires Retires(settings, rows, retirement, id)
    ensures !Validates(settings, After(settings, Step(settings, rows, retirement), run), call, id)
  {
    NeverValidatedAgain(settings, Step(settings, rows, retirement), run, call, id);
  }

  /** A new key, created or rotated to under a fresh hash, validates right away, until its expiry and not after. */
  lemma NewKeysValidate(settings: Settings, rows: Table, call: Call, later: int)
    requires call.request.Create? || call.request.Rotate?
    requires Serve(settings, rows, call.request, call.now).1.Success?
    requires forall i :: 0 <= i < |rows| ==> rows[i].keyHash != call.request.keyHash
    ensures var after := Step(settings, rows, call);
            && |after| == |rows| + 1 && after[|rows|].expiresAt.Some?
            && (Serve(settings, after, Validate(call.request.keyHash), later).1 == Success(|rows|) <==> later <= after[|rows|].expiresAt.value)
  {
    var after := Step(settings, rows, call);
    assert forall i :: 0 <= i < |rows| ==> after[i].keyHash == rows[i].keyHash;
    assert after[|rows|].keyHash == call.request.keyHash && after[|rows|].status == Active;
  }

  // ----- How long a key stays valid -----

  /** The call takes an active key `id` out of service, by retiring it or by validating it after its expiry. */
  predicate Ends(settings: Settings, rows: Table, call: Call, id: nat) {
    || Retires(settings, rows, call, id)
    || (call.request.Validate? && id < |rows| && FindActive(rows, call.request.keyHash) == Some(id) && PastExpiry(rows[id], call.now))
  }

  /** No call of the run ends the key, in the table it is made on. */
  predicate NeverEnds(settings: Settings, rows: Table, run: seq<Call>, id: nat)
    decreases |run|
  {
    run != [] ==>
      var n := |run| - 1;
      NeverEnds(settings, rows, run[..n], id) && !Ends(settings, After(settings, rows, run[..n]), run[n], id)
  }

  lemma StepStaysActive(settings: Settings, rows: Table, call: Call, id: nat)
    requires id < |rows| && rows[id].status == Active
    ensures id < |Step(settings, rows, call)|
    ensures Step(settings, rows, call)[id].status == Active <==> !Ends(settings, rows, call, id)
  {
  }

  /** An active key is active after a run exactly if no call of the run ended it. */
  lemma {:induction false} StaysActiveExactly(settings: Settings, rows: Table, run: seq<Call>, id: nat)
    requires id < |rows| && rows[id].status == Active
    ensures id < |After(settings, rows, run)|
    ensures After(settings, rows, run)[id].status == Active <==> NeverEnds(settings, rows, run, id)
    decreases |run|
  {
    RunExtends(settings, rows, run);
    if run == [] {
    } else {
      var n := |run| - 1;
      var before := After(settings, rows, run[..n]);
      StaysActiveExactly(settings, rows, run[..n], id);
      RunExtends(settings, rows, run[..n]);
      StepExtends(settings, before, run[n]);
      if before[id].status == Active {
        StepStaysActive(settings, before, run[n], id);
      }
    }
  }

  /** Neither a rotation nor a revocation of the key, and not after its expiry. */
  predicate Spares(key: ApiKey, id: nat, call: Call) {
    && (call.request.Rotate? || call.request.Revoke? ==> call.request.id != id)
    && !PastExpiry(key, call.now)
  }

  lemma {:induction false} SparedNeverEnds(settings: Settings, rows: Table, run: seq<Call>, id: nat)
    requires id < |rows| && forall k :: 0 <= k < |run| ==> Spares(rows[id], id, run[k])
    ensures NeverEnds(settings, rows, run, id)
    decreases |run|
  {
    if run == [] {
    } else {
      var n := |run| - 1;
      SparedNeverEnds(settings, rows, run[..n], id);
      RunExtends(settings, rows, run[..n]);
      assert Spares(rows[id], id, run[n]);
    }
  }

  /** A key that is neither rotated nor revoked validates throughout its time, whatever else is called until then. */
  lemma KeysValidateUntilExpiry(settings: Settings, rows: Table, run: seq<Call>, id: nat, now: int)
    requires id < |rows| && rows[id].status == Active
    requires forall k :: 0 <= k < |run| ==> Spares(rows[id], id, run[k])
    requires var after := After(settings, rows, run);
             forall i, j :: 0 <= i < j < |after| ==> after[i].keyHash != after[j].keyHash
    ensures Serve(settings, After(settings, rows, run), Validate(rows[id].keyHash), now).1 == Success(id)
            <==> !PastExpiry(rows[id], now)
  {
    SparedNeverEnds(settings, rows, run, id);
    StaysActiveExactly(settings, rows, run, id);
    RunExtends(settings, rows, run);
    ValidationMeaning(settings, After(settings, rows, run), rows[id].keyHash, now);
  }

  // ----- The rotation forest -----

  /** The key a rotated key came from: older, of the same merchant, name and role, and out of service. */
  ghost predicate Forest(rows: Table) {
    forall i :: 0 <= i < |rows| && rows[i].rotatedFrom.Some? ==>
      var p := rows[i].rotatedFrom.value;
      && p < i
      && rows[p].merchantId == rows[i].merchantId && rows[p].name == rows[i].name && rows[p].role == rows[i].role
      && (rows[p].status == Rotated || rows[p].status == Revoked)
  }

  lemma StepKeepsForest(settings: Settings, rows: Table, call: Call)
    requires Forest(rows)
    ensures Forest(Step(settings, rows, call))
  {
    var after := Step(settings, rows, call);
    StepExtends(settings, rows, call);
    forall i | 0 <= i < |after| && after[i].rotatedFrom.Some?
      ensures var p := after[i].rotatedFrom.value;
              && p < i
              && after[p].merchantId == after[i].merchantId && after[p].name == after[i].name && after[p].role == after[i].role
              && (after[p].status == Rotated || after[p].status == Revoked)
    {
      var p := after[i].rotatedFrom.value;
      if i < |rows| {
        assert rows[i].rotatedFrom == Some(p);
        assert Follows(rows[p], after[p]) && Follows(rows[i], after[i]);
      } else {
        assert call.request.Rotate? && p == call.request.id;
      }
    }
  }

  lemma {:induction false} RunKeepsForest(settings: Settings, run: seq<Call>)
    ensures Forest(After(settings, [], run))
    decreases |run|
  {
    if run == [] {
    } else {
      RunKeepsForest(settings, run[..|run| - 1]);
      StepKeepsForest(settings, After(settings, [], run[..|run| - 1]), run[|run| - 1]);
    }
  }

  /** The first key of a rotation chain. */
  function Root(rows: Table, id: nat): (root: nat)
    requires Forest(rows) && id < |rows|
    ensures root <= id
    decreases id
  {
    if rows[id].rotatedFrom.None? then id else Root(rows, rows[id].rotatedFrom.value)
  }

  /** Along a chain merchant, name and role stay the same, and an active key has no successor. */
  lemma {:induction false} ChainsStayWithTheMerchant(rows: Table, id: nat)
    requires Forest(rows) && id < |rows|
    ensures var root := rows[Root(rows, id)];
            && root.rotatedFrom.None?
            && root.merchantId == rows[id].merchantId && root.name == rows[id].name && root.role == rows[id].role
    ensures rows[id].status == Active ==> forall i :: 0 <= i < |rows| ==> rows[i].rotatedFrom != Some(id)
    decreases id
  {
    if rows[id].rotatedFrom.Some? {
      ChainsStayWithTheMerchant(rows, rows[id].rotatedFrom.value);
    }
  }

  // ----- Request counts -----

  function Validations(settings: Settings, rows: Table, run: seq<Call>, id: nat): nat {
    if run == [] then 0
    else
      var n := |run| - 1;
      Validations(settings, rows, run[..n], id)
      + (if Validates(settings, After(settings, rows, run[..n]), run[n], id) then 1 else 0)
  }

  function Requests(rows: Table, id: nat): nat {
    if id < |rows| then rows[id].requestCount else 0
  }

  lemma StepCountsRequests(settings: Settings, rows: Table, call: Call, id: nat)
    ensures Requests(Step(settings, rows, call), id)
         == Requests(rows, id) + (if Validates(settings, rows, call, id) then 1 else 0)
  {
  }

  /** A key's request count is the number of its successful validations. */
  lemma {:induction false} RequestsAreValidations(settings: Settings, rows: Table, run: seq<Call>, id: nat)
    ensures Requests(After(settings, rows, run), id) == Requests(rows, id) + Validations(settings, rows, run, id)
    decreases |run|
  {
    if run == [] {
    } else {
      var n := |run| - 1;
      RequestsAreValidations(settings, rows, run[..n], id);
      StepCountsRequests(settings, After(settings, rows, run[..n]), run[n], id);
    }
  }

  // ----- The jobs -----

  /** Each job is idempotent: a second run at the same time changes nothing and reports zero keys. */
  lemma JobsAreIdempotent(settings: Settings, rows: Table, now: int)
    ensures var once := Step(settings, rows, Call(ProcessExpired, now));
            Serve(settings, once, ProcessExpired, now) == (once, Success(0))
    ensures var once := Step(settings, rows, Call(CleanupRotated, now));
            Serve(settings, once, CleanupRotated, now) == (once, Success(0))
  {
    var expired := Step(settings, rows, Call(ProcessExpired, now));
    NothingSelected(expired, key => IsOverdue(key, now));
    assert Step(settings, expired, Call(ProcessExpired, now)) == expired;
    var cleaned := Step(settings, rows, Call(CleanupRotated, now));
    NothingSelected(cleaned, key => IsPastGrace(key, settings, now));
    assert Step(settings, cleaned, Call(CleanupRotated, now)) == cleaned;
  }

  lemma {:induction false} NothingSelected(rows: Table, selected: ApiKey -> bool)
    requires forall i :: 0 <= i < |rows| ==> !selected(rows[i])
    ensures Selected(rows, selected) == []
  {
    if rows == [] {
    } else {
      NothingSelected(rows[..|rows| - 1], selected);
    }
  }
}
