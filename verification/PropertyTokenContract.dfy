/** The property token contract as it runs: handlers that update storage cells, and rollback of failed messages. */
module PropertyTokenContract {
  import opened Wrappers
  import opened Text
  import opened PropertyToken

  class Contract {
    var metadata: map<string, Metadata>
    var nextNonce: map<string, nat>
    var processed: map<string, bool>
    var fees: map<string, nat>
    var treasury: Option<nat>
    var admin: Option<string>
    var roles: map<string, bool>
    var version: Option<nat>

    function Snapshot(): Store
      reads this
    {
      Store(metadata, nextNonce, processed, fees, treasury, admin, roles, version)
    }

    constructor (sender: string, chosenAdmin: Option<string>)
      ensures Snapshot() == Instantiate(sender, chosenAdmin)
    {
      admin := Some(if chosenAdmin.Some? then chosenAdmin.value else sender);
      treasury := Some(0);
      version := Some(CURRENT_CONFIG_VERSION);
      metadata, nextNonce, processed, fees, roles := map[], map[], map[], map[], map[];
    }

    method Restore(st: Store)
      modifies this
      ensures Snapshot() == st
    {
      metadata, nextNonce, processed, fees := st.metadata, st.nextNonce, st.processed, st.fees;
      treasury, admin, roles, version := st.treasury, st.admin, st.roles, st.version;
    }

    /**
     * The nonce is written before the transaction id is checked, so a repeated id fails with the nonce
     * already used up; undoing that is left to the rollback.
     */
    method CheckReplay(time: nat, sender: string, auth: Auth) returns (r: Result<(), Error>)
      modifies this`nextNonce, this`processed
      ensures r.Success? ==> PreventReplay(old(Snapshot()), time, sender, auth) == Success(Snapshot())
      ensures r.Failure? ==> PreventReplay(old(Snapshot()), time, sender, auth) == Failure(r.error)
    {
      if auth.expiresAt.Some? && time > auth.expiresAt.value {
        return Failure(SignatureExpired);
      }
      var current := if sender in nextNonce then nextNonce[sender] else 0;
      if auth.nonce < current {
        return Failure(NonceUsed);
      }
      if auth.nonce > current {
        return Failure(NonceTooHigh);
      }
      if current >= MAX_U64 {
        return Failure(Overflow);
      }
      nextNonce := nextNonce[sender := current + 1];
      if auth.txId.Some? {
        var id := auth.txId.value;
        if id in processed && processed[id] {
          return Failure(TxIdProcessed);
        }
        processed := processed[id := true];
      }
      r := Success(());
    }

    method RunBatch(msgs: seq<BatchMsg>) returns (r: Result<(), Error>)
      modifies this`metadata
      ensures r.Success? ==> ApplyBatch(old(metadata), msgs) == Success(metadata)
      ensures r.Failure? ==> ApplyBatch(old(metadata), msgs) == Failure(r.error)
    {
      for i := 0 to |msgs|
        invariant ApplyBatch(metadata, msgs[i..]) == ApplyBatch(old(metadata), msgs)
      {
        var m := msgs[i];
        if m.UpdateItem? && m.tokenId !in metadata {
          return Failure(MetadataNotFound);
        }
        metadata := metadata[m.tokenId := m.metadata];
      }
      r := Success(());
    }

    method RunTreasury(action: TreasuryAction) returns (r: Result<seq<Send>, Error>)
      modifies this`treasury
      ensures r.Success? ==> Pay(old(Snapshot()), action) == Success((Snapshot(), r.value))
      ensures r.Failure? ==> Pay(old(Snapshot()), action) == Failure(r.error)
    {
      var current := if treasury.Some? then treasury.value else 0;
      match action
      case Deposit(amount) =>
        if current + amount > MAX_U128 {
          return Failure(Overflow);
        }
        treasury := Some(current + amount);
        r := Success([]);
      case Withdraw(amount, recipient) =>
        r := Outflow(current, amount, recipient);
      case Transfer(amount, recipient) =>
        r := Outflow(current, amount, recipient);
    }

    method Outflow(current: nat, amount: nat, recipient: string) returns (r: Result<seq<Send>, Error>)
      modifies this`treasury
      ensures r == if amount > current then Failure(TreasuryOverdraw) else Success([Send(recipient, amount, "stablecoin")])
      ensures treasury == if amount > current then old(treasury) else Some(current - amount)
    {
      if amount > current {
        return Failure(TreasuryOverdraw);
      }
      treasury := Some(current - amount);
      r := Success([Send(recipient, amount, "stablecoin")]);
    }

    /** Judges every role update against the stored roles; nothing is written. */
    method CollectMutations(updates: seq<(string, bool)>) returns (r: Result<seq<RoleMutation>, Error>)
      ensures r == Mutations(roles, updates, {})
    {
      var seen: set<string> := {};
      var mutations: seq<RoleMutation> := [];
      PrependNothing(Mutations(roles, updates, {}));
      for i := 0 to |updates|
        invariant Mutations(roles, updates, {}) == Prepend(mutations, Mutations(roles, updates[i..], seen))
      {
        var address := Trim(updates[i].0);
        if address == "" {
          return Failure(EmptyPrincipal);
        }
        if address in seen {
          return Failure(DuplicateRole);
        }
        ghost var others := Mutations(roles, updates[i + 1..], seen + {address});
        assert updates[i..][1..] == updates[i + 1..];
        seen := seen + {address};
        if updates[i].1 {
          if !(address in roles && roles[address]) {
            PrependTwice(mutations, Grant(address), others);
            mutations := mutations + [Grant(address)];
          }
        } else {
          if address !in roles {
            return Failure(NothingToRevoke);
          }
          PrependTwice(mutations, Revoke(address), others);
          mutations := mutations + [Revoke(address)];
        }
      }
      assert mutations + [] == mutations;
      r := Success(mutations);
    }

    method ApplyMutations(mutations: seq<RoleMutation>)
      modifies this`roles
      ensures roles == Apply(old(roles), mutations)
    {
      for i := 0 to |mutations|
        invariant Apply(roles, mutations[i..]) == Apply(old(roles), mutations)
      {
        match mutations[i]
        case Grant(a) => roles := roles[a := true];
        case Revoke(a) => roles := roles - {a};
      }
    }

    method RunUpdateConfig(sender: string, newAdmin: Option<string>, updates: seq<(string, bool)>) returns (r: Result<(), Error>)
      modifies this`admin, this`roles
      ensures r.Success? ==> Reconfigure(old(Snapshot()), sender, newAdmin, updates) == Success((Snapshot(), []))
      ensures r.Failure? ==> Reconfigure(old(Snapshot()), sender, newAdmin, updates) == Failure(r.error)
      ensures r.Failure? ==> Snapshot() == old(Snapshot())
    {
      if admin.None? {
        return Failure(AdminMissing);
      }
      if sender != admin.value {
        return Failure(NotAdmin);
      }
      if newAdmin.Some? && Trim(newAdmin.value) == "" {
        return Failure(EmptyPrincipal);
      }
      var mutations := CollectMutations(updates);
      if mutations.Failure? {
        return Failure(mutations.error);
      }
      if newAdmin.Some? && Trim(newAdmin.value) != admin.value {
        admin := Some(Trim(newAdmin.value));
      }
      ApplyMutations(mutations.value);
      r := Success(());
    }

    /** Collects the keys of zero balances, then removes them one by one; the same for false roles. */
    method RunCleanup()
      modifies this`fees, this`roles
      ensures Snapshot() == Cleaned(old(Snapshot()))
    {
      RemoveZeroFees();
      RemoveFalseRoles();
    }

    method RemoveZeroFees()
      modifies this`fees
      ensures fees == Cleaned(old(Snapshot())).fees
    {
      ghost var before := fees;
      var zero := set k | k in fees && fees[k] == 0;
      var todo := zero;
      while todo != {}
        invariant todo <= zero && fees == before - (zero - todo)
        decreases |todo|
      {
        var k :| k in todo;
        fees := fees - {k};
        todo := todo - {k};
      }
      assert fees == before - zero;
    }

    method RemoveFalseRoles()
      modifies this`roles
      ensures roles == Cleaned(old(Snapshot())).roles
    {
      ghost var before := roles;
      var revoked := set k | k in roles && !roles[k];
      var todo := revoked;
      while todo != {}
        invariant todo <= revoked && roles == before - (revoked - todo)
        decreases |todo|
      {
        var k :| k in todo;
        roles := roles - {k};
        todo := todo - {k};
      }
      assert roles == before - revoked;
    }

    /** One handler, leaving its partial writes behind when it fails. */
    method Dispatch(time: nat, sender: string, msg: ExecuteMsg) returns (r: Result<seq<Send>, Error>)
      modifies this
      ensures r.Success? ==> Handle(old(Snapshot()), time, sender, msg) == Success((Snapshot(), r.value))
      ensures r.Failure? ==> Handle(old(Snapshot()), time, sender, msg) == Failure(r.error)
    {
      match msg
      case SetMetadata(tokenId, meta, auth) =>
        var ok := CheckReplay(time, sender, auth);
        if ok.Failure? { return Failure(ok.error); }
        metadata := metadata[tokenId := meta];
        r := Success([]);
      case UpdateMetadata(tokenId, meta, auth) =>
        var ok := CheckReplay(time, sender, auth);
        if ok.Failure? { return Failure(ok.error); }
        if tokenId !in metadata { return Failure(MetadataNotFound); }
        metadata := metadata[tokenId := meta];
        r := Success([]);
      case Batch(msgs, auth) =>
        var ok := CheckReplay(time, sender, auth);
        if ok.Failure? { return Failure(ok.error); }
        ok := RunBatch(msgs);
        if ok.Failure? { return Failure(ok.error); }
        r := Success([]);
      case WithdrawFees(recipient, amount, token, auth) =>
        var denied := AuthorizationError(Snapshot(), sender);
        if denied.Some? { return Failure(denied.value); }
        var ok := CheckReplay(time, sender, auth);
        if ok.Failure? { return Failure(ok.error); }
        var current := if token in fees then fees[token] else 0;
        if amount > current { return Failure(InsufficientFees); }
        fees := fees[token := current - amount];
        r := Success([Send(recipient, amount, token)]);
      case Treasury(action, auth) =>
        var denied := AuthorizationError(Snapshot(), sender);
        if denied.Some? { return Failure(denied.value); }
        var ok := CheckReplay(time, sender, auth);
        if ok.Failure? { return Failure(ok.error); }
        r := RunTreasury(action);
      case UpdateConfig(newAdmin, authorizedRoles) =>
        var ok := RunUpdateConfig(sender, newAdmin, if authorizedRoles.Some? then authorizedRoles.value else []);
        if ok.Failure? { return Failure(ok.error); }
        r := Success([]);
      case CleanupStorage =>
        var denied := AdminError(Snapshot(), sender);
        if denied.Some? { return Failure(denied.value); }
        RunCleanup();
        r := Success([]);
    }

    /** A message as the runtime executes it: a failure undoes every write of its handler. */
    method Execute(time: nat, sender: string, msg: ExecuteMsg) returns (r: Result<seq<Send>, Error>)
      modifies this
      ensures r.Success? ==> Handle(old(Snapshot()), time, sender, msg) == Success((Snapshot(), r.value))
      ensures r.Failure? ==> Handle(old(Snapshot()), time, sender, msg) == Failure(r.error) && Snapshot() == old(Snapshot())
    {
      var before := Snapshot();
      r := Dispatch(time, sender, msg);
      if r.Failure? {
        Restore(before);
      }
    }

    method RunMigrate(target: nat) returns (r: Result<(), Error>)
      modifies this`treasury, this`version
      ensures r.Success? ==> Migrate(old(Snapshot()), target) == Success((Snapshot(), []))
      ensures r.Failure? ==> Migrate(old(Snapshot()), target) == Failure(r.error) && Snapshot() == old(Snapshot())
    {
      var stored := if version.Some? then version.value else 0;
      if target != CURRENT_CONFIG_VERSION {
        return Failure(VersionMismatch);
      }
      if stored >= CURRENT_CONFIG_VERSION {
        return Failure(AlreadyMigrated);
      }
      if stored < 1 {
        if treasury.None? {
          treasury := Some(0);
        }
      }
      version := Some(CURRENT_CONFIG_VERSION);
      r := Success(());
    }

    /** The five checks of the self-check report; `failures` counts the failed ones. */
    method SelfCheck() returns (ok: bool, failures: nat)
      ensures ok <==> SelfCheckOk(Snapshot())
      ensures ok <==> failures == 0
    {
      failures := 0;
      if admin.None? || admin.value == "" { failures := failures + 1; }
      if version != Some(CURRENT_CONFIG_VERSION) { failures := failures + 1; }
      if treasury.None? { failures := failures + 1; }
      if exists k :: k in fees && fees[k] == 0 { failures := failures + 1; }
      if exists k :: k in roles && !roles[k] { failures := failures + 1; }
      ok := failures == 0;
    }
  }

  lemma PrependNothing(r: Result<seq<RoleMutation>, Error>)
    ensures Prepend([], r) == r
  {
    if r.Success? {
      assert [] + r.value == r.value;
    }
  }

  lemma PrependTwice(mutations: seq<RoleMutation>, m: RoleMutation, r: Result<seq<RoleMutation>, Error>)
    ensures Prepend(mutations, Prepend([m], r)) == Prepend(mutations + [m], r)
  {
    if r.Success? {
      assert mutations + ([m] + r.value) == mutations + [m] + r.value;
    }
  }
}
