/**
 * Exactly which messages the property token accepts, and the store each leaves behind, said in terms of
 * the stored cells alone.
 */
module PropertyTokenAcceptance {
  import opened Wrappers
  import opened Text
  import opened PropertyToken
  import opened PropertyTokenSafety

  // ----- Authenticated messages -----

  /** The sender's next nonce, an expiry that has not passed, and a transaction id never processed. */
  predicate Fresh(st: Store, time: nat, sender: string, auth: Auth) {
    && auth.nonce == (if sender in st.nextNonce then st.nextNonce[sender] else 0)
    && auth.nonce < 0xFFFF_FFFF_FFFF_FFFF
    && (auth.expiresAt.Some? ==> time <= auth.expiresAt.value)
    && (auth.txId.Some? && auth.txId.value in st.processed ==> !st.processed[auth.txId.value])
  }

  /** What the handler itself demands. */
  ghost predicate Possible(st: Store, msg: ExecuteMsg) {
    match msg
    case UpdateMetadata(tokenId, _, _) => tokenId in st.metadata
    case Batch(msgs, _) => forall i: nat :: !Dangling(st.metadata, msgs, i)
    case WithdrawFees(_, amount, token, _) => amount <= if token in st.fees then st.fees[token] else 0
    case Treasury(Deposit(amount), _) =>
      (if st.treasury.Some? then st.treasury.value else 0) + amount <= 0xFFFF_FFFF_FFFF_FFFF_FFFF_FFFF_FFFF_FFFF
    case Treasury(Withdraw(amount, _), _) => amount <= if st.treasury.Some? then st.treasury.value else 0
    case Treasury(Transfer(amount, _), _) => amount <= if st.treasury.Some? then st.treasury.value else 0
    case _ => true
  }

  lemma FreshExactly(st: Store, time: nat, sender: string, auth: Auth)
    ensures PreventReplay(st, time, sender, auth).Success? <==> Fresh(st, time, sender, auth)
  {
  }

  lemma PossibleExactly(st: Store, mid: Store, msg: ExecuteMsg)
    requires AuthOf(msg).Some? && mid.metadata == st.metadata && mid.fees == st.fees && mid.treasury == st.treasury
    ensures Perform(mid, msg).Success? <==> Possible(st, msg)
  {
    if msg.Batch? {
      BatchMeaning(st.metadata, msg.msgs);
    }
  }

  /** An authenticated message succeeds exactly if it is fresh, its sender may move the funds it moves, and its handler can do it. */
  lemma AcceptedExactly(st: Store, time: nat, sender: string, msg: ExecuteMsg)
    requires !msg.UpdateConfig? && !msg.CleanupStorage?
    ensures Handle(st, time, sender, msg).Success? <==>
            && Fresh(st, time, sender, msg.auth)
            && (msg.WithdrawFees? || msg.Treasury? ==> MayMoveFunds(st, sender))
            && Possible(st, msg)
  {
    FreshExactly(st, time, sender, msg.auth);
    var mid := PreventReplay(st, time, sender, msg.auth);
    if mid.Success? {
      PossibleExactly(st, mid.value, msg);
    }
  }

  /** The last item of a batch for a key. */
  predicate IsLast(msgs: seq<BatchMsg>, key: string, i: nat) {
    && i < |msgs| && msgs[i].tokenId == key
    && forall j :: i < j < |msgs| ==> msgs[j].tokenId != key
  }

  lemma {:induction false} LastItem(msgs: seq<BatchMsg>, key: string, i: nat)
    requires IsLast(msgs, key, i)
    ensures LastFor(msgs, key) == Some(msgs[i].metadata)
  {
    if i == 0 {
      NoItem(msgs[1..], key);
    } else {
      assert forall j :: i < j < |msgs| ==> msgs[1..][j - 1] == msgs[j];
      LastItem(msgs[1..], key, i - 1);
    }
  }

  lemma {:induction false} NoItem(msgs: seq<BatchMsg>, key: string)
    requires forall j :: 0 <= j < |msgs| ==> msgs[j].tokenId != key
    ensures LastFor(msgs, key).None?
  {
    if msgs == [] {
    } else {
      NoItem(msgs[1..], key);
    }
  }

  /** The metadata of a key after a message: that of the last item for it, or as it was. */
  ghost predicate MetadataAfter(st: Store, msg: ExecuteMsg, st': Store, key: string) {
    match msg
    case SetMetadata(tokenId, metadata, _) => key == tokenId ==> key in st'.metadata && st'.metadata[key] == metadata
    case UpdateMetadata(tokenId, metadata, _) => key == tokenId ==> key in st'.metadata && st'.metadata[key] == metadata
    case Batch(msgs, _) => forall i: nat :: IsLast(msgs, key, i) ==> key in st'.metadata && st'.metadata[key] == msgs[i].metadata
    case _ => true
  }

  predicate NamesKey(msg: ExecuteMsg, key: string) {
    match msg
    case SetMetadata(tokenId, _, _) => tokenId == key
    case UpdateMetadata(tokenId, _, _) => tokenId == key
    case Batch(msgs, _) => exists i :: 0 <= i < |msgs| && msgs[i].tokenId == key
    case _ => false
  }

  predicate SameAt<V(==)>(a: map<string, V>, b: map<string, V>, key: string) {
    (key in a <==> key in b) && (key in a ==> a[key] == b[key])
  }

  /** The metadata cells after an accepted message. */
  lemma AcceptedMetadata(st: Store, time: nat, sender: string, msg: ExecuteMsg, key: string)
    requires !msg.UpdateConfig? && !msg.CleanupStorage? && Handle(st, time, sender, msg).Success?
    ensures MetadataAfter(st, msg, Handle(st, time, sender, msg).value.0, key)
    ensures !NamesKey(msg, key) ==> SameAt(st.metadata, Handle(st, time, sender, msg).value.0.metadata, key)
  {
    if msg.Batch? {
      BatchMeaning(st.metadata, msg.msgs);
      forall i: nat | IsLast(msg.msgs, key, i)
        ensures LastFor(msg.msgs, key) == Some(msg.msgs[i].metadata)
      {
        LastItem(msg.msgs, key, i);
      }
      if !NamesKey(msg, key) {
        NoItem(msg.msgs, key);
      }
    }
  }

  /** After an accepted message its nonce and id are used up, and nobody's authority has changed. */
  lemma AcceptedReplayCells(st: Store, time: nat, sender: string, msg: ExecuteMsg)
    requires !msg.UpdateConfig? && !msg.CleanupStorage? && Handle(st, time, sender, msg).Success?
    ensures var st' := Handle(st, time, sender, msg).value.0;
            && st'.nextNonce == st.nextNonce[sender := msg.auth.nonce + 1]
            && st'.processed == (if msg.auth.txId.Some? then st.processed[msg.auth.txId.value := true] else st.processed)
            && st'.admin == st.admin && st'.roles == st.roles && st'.version == st.version
  {
    var mid := PreventReplay(st, time, sender, msg.auth).value;
    PerformKeepsReplayState(mid, msg);
    PerformKeepsAuthority(mid, msg);
  }

  /** The funds an action on the treasury moves. */
  predicate Moved(before: nat, action: TreasuryAction, after: Option<nat>, sends: seq<Send>) {
    match action
    case Deposit(amount) => after == Some(before + amount) && sends == []
    case Withdraw(amount, recipient) => amount <= before && after == Some(before - amount) && sends == [Send(recipient, amount, "stablecoin")]
    case Transfer(amount, recipient) => amount <= before && after == Some(before - amount) && sends == [Send(recipient, amount, "stablecoin")]
  }

  /** The funds after a message: one balance moved by its amount, the transfer to match, and nothing else. */
  predicate FundsAfter(st: Store, msg: ExecuteMsg, st': Store, sends: seq<Send>) {
    match msg
    case WithdrawFees(recipient, amount, token, _) =>
      && st'.treasury == st.treasury && amount <= Fee(st, token)
      && st'.fees == st.fees[token := Fee(st, token) - amount] && sends == [Send(recipient, amount, token)]
    case Treasury(action, _) => st'.fees == st.fees && Moved(TreasuryBalance(st), action, st'.treasury, sends)
    case _ => st'.fees == st.fees && st'.treasury == st.treasury && sends == []
  }

  lemma PerformedFunds(st: Store, msg: ExecuteMsg)
    requires AuthOf(msg).Some? && Perform(st, msg).Success?
    ensures FundsAfter(st, msg, Perform(st, msg).value.0, Perform(st, msg).value.1)
  {
  }

  lemma AcceptedFunds(st: Store, time: nat, sender: string, msg: ExecuteMsg)
    requires !msg.UpdateConfig? && !msg.CleanupStorage? && Handle(st, time, sender, msg).Success?
    ensures FundsAfter(st, msg, Handle(st, time, sender, msg).value.0, Handle(st, time, sender, msg).value.1)
  {
    var mid := PreventReplay(st, time, sender, msg.auth).value;
    assert mid.fees == st.fees && mid.treasury == st.treasury;
    PerformedFunds(mid, msg);
  }

  // ----- Deployment and migration -----

  /** The first store: the chosen admin or else the creator, an empty treasury, version 1, and nothing else. */
  lemma FirstStore(creator: string, admin: Option<string>)
    ensures var st := Instantiate(creator, admin);
            && st.admin == Some(if admin.Some? then admin.value else creator)
            && st.treasury == Some(0) && st.version == Some(1)
            && st.metadata == map[] && st.nextNonce == map[] && st.processed == map[] && st.fees == map[] && st.roles == map[]
  {
  }

  /** A migration: from no version or version 0 to version 1, with a treasury of zero if there was none. */
  lemma MigrationExactly(st: Store, target: nat)
    ensures Migrate(st, target).Success? <==> target == 1 && (st.version.None? || st.version.value < 1)
    ensures Migrate(st, target).Success? ==>
              Migrate(st, target).value == (st.(version := Some(1), treasury := Some(if st.treasury.Some? then st.treasury.value else 0)), [])
  {
  }

  // ----- Configuration -----

  /** No update is blank, no two name the same address, and only stored roles are revoked. */
  predicate Proper(roles: map<string, bool>, updates: seq<(string, bool)>) {
    && (forall i :: 0 <= i < |updates| ==> Trim(updates[i].0) != "" && (!updates[i].1 ==> Trim(updates[i].0) in roles))
    && (forall i, j :: 0 <= i < j < |updates| ==> Trim(updates[i].0) != Trim(updates[j].0))
  }

  predicate AvoidsSeen(updates: seq<(string, bool)>, seen: set<string>) {
    forall i :: 0 <= i < |updates| ==> Trim(updates[i].0) !in seen
  }

  lemma ProperCons(roles: map<string, bool>, updates: seq<(string, bool)>, seen: set<string>)
    requires updates != []
    ensures var address := Trim(updates[0].0);
            Proper(roles, updates) && AvoidsSeen(updates, seen) <==>
            && address != "" && address !in seen && (!updates[0].1 ==> address in roles)
            && Proper(roles, updates[1..]) && AvoidsSeen(updates[1..], seen + {address})
  {
    var address, rest := Trim(updates[0].0), updates[1..];
    if Proper(roles, rest) && AvoidsSeen(rest, seen + {address}) {
      forall i, j | 0 <= i < j < |updates| && address != ""
        ensures Trim(updates[i].0) != Trim(updates[j].0)
      {
        assert updates[j] == rest[j - 1];
        assert i > 0 ==> updates[i] == rest[i - 1];
      }
      forall i | 0 < i < |updates|
        ensures updates[i] == rest[i - 1]
      {
      }
    }
  }

  lemma {:induction false} MutationsExactly(roles: map<string, bool>, updates: seq<(string, bool)>, seen: set<string>)
    ensures Mutations(roles, updates, seen).Success? <==> Proper(roles, updates) && AvoidsSeen(updates, seen)
    decreases |updates|
  {
    if updates == [] {
    } else {
      ProperCons(roles, updates, seen);
      MutationsExactly(roles, updates[1..], seen + {Trim(updates[0].0)});
    }
  }

  /** A configuration message succeeds exactly if the admin sends it, the new admin is not blank and the updates are proper. */
  lemma ConfigAcceptedExactly(st: Store, time: nat, sender: string, newAdmin: Option<string>, updates: seq<(string, bool)>)
    ensures Handle(st, time, sender, UpdateConfig(newAdmin, Some(updates))).Success? <==>
            && st.admin == Some(sender)
            && (newAdmin.Some? ==> !AllSpace(newAdmin.value))
            && Proper(st.roles, updates)
    ensures Handle(st, time, sender, UpdateConfig(newAdmin, None)) == Handle(st, time, sender, UpdateConfig(newAdmin, Some([])))
  {
    MutationsExactly(st.roles, updates, {});
    if newAdmin.Some? {
      BlankExactly(newAdmin.value);
    }
  }

  lemma BlankExactly(s: string)
    ensures Trim(s) == "" <==> AllSpace(s)
  {
    var front, back := TrimMeaning(s);
    if Trim(s) == "" {
      assert s == front + back;
    } else {
      assert s[|front|] == Trim(s)[0];
    }
  }

  predicate Updates(updates: seq<(string, bool)>, address: string) {
    exists i :: 0 <= i < |updates| && Trim(updates[i].0) == address
  }

  /** The roles after proper updates: granted, revoked, or as they were. */
  ghost predicate RolesAfter(roles: map<string, bool>, updates: seq<(string, bool)>, roles': map<string, bool>) {
    && (forall i :: 0 <= i < |updates| ==>
          if updates[i].1 then Trim(updates[i].0) in roles' && roles'[Trim(updates[i].0)] else Trim(updates[i].0) !in roles')
    && (forall address :: !Updates(updates, address) ==> SameAt(roles, roles', address))
  }

  lemma {:induction false} UpdatesAreApplied(
      stored: map<string, bool>, roles: map<string, bool>, updates: seq<(string, bool)>, seen: set<string>)
    requires Proper(stored, updates) && AvoidsSeen(updates, seen) && OneByOne(roles, updates, seen).Success?
    ensures RolesAfter(roles, updates, OneByOne(roles, updates, seen).value)
    decreases |updates|
  {
    if updates == [] {
    } else {
      var address, rest := Trim(updates[0].0), updates[1..];
      var next := if updates[0].1 then roles[address := true] else roles - {address};
      ProperCons(stored, updates, seen);
      assert OneByOne(roles, updates, seen) == OneByOne(next, rest, seen + {address});
      UpdatesAreApplied(stored, next, rest, seen + {address});
      var roles' := OneByOne(roles, updates, seen).value;
      assert !Updates(rest, address) && SameAt(next, roles', address);
      forall i | 0 < i < |updates|
        ensures updates[i] == rest[i - 1]
      {
      }
      forall a | !Updates(updates, a)
        ensures SameAt(roles, roles', a)
      {
        assert Trim(updates[0].0) != a;
        forall i | 0 <= i < |rest|
          ensures Trim(rest[i].0) != a
        {
          assert updates[i + 1] == rest[i];
        }
        assert !Updates(rest, a) && SameAt(next, roles', a);
      }
    }
  }

  /** After an accepted configuration message: the trimmed new admin, the updated roles, and nothing else changed. */
  lemma ConfigCells(st: Store, time: nat, sender: string, newAdmin: Option<string>, updates: seq<(string, bool)>)
    requires Handle(st, time, sender, UpdateConfig(newAdmin, Some(updates))).Success?
    ensures var (st', sends) := Handle(st, time, sender, UpdateConfig(newAdmin, Some(updates))).value;
            && st' == st.(admin := st'.admin, roles := st'.roles) && sends == []
            && st'.admin == (if newAdmin.Some? then Some(Trim(newAdmin.value)) else Some(sender))
            && RolesAfter(st.roles, updates, st'.roles)
  {
    ConfigAcceptedExactly(st, time, sender, newAdmin, updates);
    UpdateConfigIsOneByOne(st, sender, newAdmin, updates);
    UpdatesAreApplied(st.roles, st.roles, updates, {});
  }

  /** Cleanup is the admin's, and drops exactly the zero balances and the false roles. */
  lemma CleanupExactly(st: Store, time: nat, sender: string)
    ensures Handle(st, time, sender, CleanupStorage).Success? <==> st.admin == Some(sender)
    ensures st.admin == Some(sender) ==>
              var (st', sends) := Handle(st, time, sender, CleanupStorage).value;
              && st' == st.(fees := st'.fees, roles := st'.roles) && sends == []
              && (forall k :: k in st'.fees <==> k in st.fees && st.fees[k] > 0)
              && (forall k :: k in st'.fees ==> st'.fees[k] == st.fees[k])
              && (forall k :: k in st'.roles <==> k in st.roles && st.roles[k])
              && (forall k :: k in st'.roles ==> st'.roles[k])
  {
  }

  // ----- Why a message fails -----

  predicate Expired(time: nat, auth: Auth) {
    auth.expiresAt.Some? && auth.expiresAt.value < time
  }

  /** The error of a failing authenticated message, when its sender may send it: the first check that fails. */
  lemma ReplayErrors(st: Store, time: nat, sender: string, auth: Auth)
    requires PreventReplay(st, time, sender, auth).Failure?
    ensures var e, next := PreventReplay(st, time, sender, auth).error, if sender in st.nextNonce then st.nextNonce[sender] else 0;
            && (e == SignatureExpired <==> Expired(time, auth))
            && (e == NonceUsed <==> !Expired(time, auth) && auth.nonce < next)
            && (e == NonceTooHigh <==> !Expired(time, auth) && auth.nonce > next)
            && (e == Overflow <==> !Expired(time, auth) && auth.nonce == next && next >= 0xFFFF_FFFF_FFFF_FFFF)
            && (e == TxIdProcessed <==> !Expired(time, auth) && auth.nonce == next && next < 0xFFFF_FFFF_FFFF_FFFF)
  {
  }

  /** The error of a failing authenticated message: of the authority, then of the replay checks, then of the handler. */
  lemma MessageErrors(st: Store, time: nat, sender: string, msg: ExecuteMsg)
    requires !msg.UpdateConfig? && !msg.CleanupStorage? && Handle(st, time, sender, msg).Failure?
    ensures var e, moves := Handle(st, time, sender, msg).error, msg.WithdrawFees? || msg.Treasury?;
            && (moves && st.admin.None? ==> e == AdminMissing)
            && (moves && st.admin.Some? && !MayMoveFunds(st, sender) ==> e == Unauthorized)
            && ((moves ==> MayMoveFunds(st, sender)) && !Fresh(st, time, sender, msg.auth) ==>
                  PreventReplay(st, time, sender, msg.auth) == Failure(e))
            && ((moves ==> MayMoveFunds(st, sender)) && Fresh(st, time, sender, msg.auth) ==> e == HandlerError(msg))
  {
    FreshExactly(st, time, sender, msg.auth);
    if msg.Batch? {
      BatchError(st.metadata, msg.msgs);
    }
  }

  /** The one error the handler of a message can fail with. */
  function HandlerError(msg: ExecuteMsg): Error {
    match msg
    case UpdateMetadata(_, _, _) => MetadataNotFound
    case Batch(_, _) => MetadataNotFound
    case WithdrawFees(_, _, _, _) => InsufficientFees
    case Treasury(Deposit(_), _) => Overflow
    case _ => TreasuryOverdraw
  }

  lemma {:induction false} BatchError(metadata: map<string, Metadata>, msgs: seq<BatchMsg>)
    ensures ApplyBatch(metadata, msgs).Failure? ==> ApplyBatch(metadata, msgs).error == MetadataNotFound
    decreases |msgs|
  {
    if msgs == [] {
    } else {
      BatchError(metadata[msgs[0].tokenId := msgs[0].metadata], msgs[1..]);
    }
  }

  /** Configuration and cleanup fail first for want of the admin. */
  lemma AdminErrors(st: Store, time: nat, sender: string, msg: ExecuteMsg)
    requires (msg.UpdateConfig? || msg.CleanupStorage?) && st.admin != Some(sender)
    ensures Handle(st, time, sender, msg) == Failure(if st.admin.None? then AdminMissing else NotAdmin)
  {
  }
}
