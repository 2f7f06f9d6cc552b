/** What holds over whole runs of the property token contract, and what its multi-item handlers mean. */
module PropertyTokenSafety {
  import opened Wrappers
  import Sequences
  import opened Text
  import opened PropertyToken

  // ----- Runs -----

  datatype Input = Message(time: nat, sender: string, msg: ExecuteMsg) | Migration(target: nat)

  function Outcome(st: Store, input: Input): Reply {
    match input
    case Message(time, sender, msg) => Handle(st, time, sender, msg)
    case Migration(target) => Migrate(st, target)
  }

  /** A rejected input leaves the store as it was. */
  function Step(st: Store, input: Input): Store {
    var r := Outcome(st, input);
    if r.Success? then r.value.0 else st
  }

  function After(st: Store, run: seq<Input>): Store {
    if run == [] then st else Step(After(st, run[..|run| - 1]), run[|run| - 1])
  }

  // ----- Replay protection -----

  datatype Accepted = Accepted(sender: string, time: nat, auth: Auth)

  /** The accepted authenticated message of one step, if any. */
  function AcceptedAt(st: Store, input: Input): seq<Accepted> {
    if input.Message? && AuthOf(input.msg).Some? && Outcome(st, input).Success? then
      [Accepted(input.sender, input.time, AuthOf(input.msg).value)]
    else []
  }

  /** The accepted authenticated messages of a run, in order. */
  function AcceptedIn(st: Store, run: seq<Input>): seq<Accepted> {
    if run == [] then []
    else
      var n := |run| - 1;
      AcceptedIn(st, run[..n]) + AcceptedAt(After(st, run[..n]), run[n])
  }

  function NoncesOf(accepted: seq<Accepted>, sender: string): seq<nat> {
    if accepted == [] then []
    else
      var n := |accepted| - 1;
      if accepted[n].sender == sender then NoncesOf(accepted[..n], sender) + [accepted[n].auth.nonce]
      else NoncesOf(accepted[..n], sender)
  }

  function TxIdsOf(accepted: seq<Accepted>): seq<string> {
    if accepted == [] then []
    else
      var n := |accepted| - 1;
      if accepted[n].auth.txId.Some? then TxIdsOf(accepted[..n]) + [accepted[n].auth.txId.value]
      else TxIdsOf(accepted[..n])
  }

  lemma PerformKeepsReplayState(st: Store, msg: ExecuteMsg)
    requires AuthOf(msg).Some? && Perform(st, msg).Success?
    ensures var st' := Perform(st, msg).value.0;
            st'.nextNonce == st.nextNonce && st'.processed == st.processed
  {
  }

  lemma UnauthenticatedKeepsReplayState(st: Store, input: Input)
    requires input.Message? ==> AuthOf(input.msg).None?
    ensures Step(st, input).nextNonce == st.nextNonce && Step(st, input).processed == st.processed
  {
  }

  /** The nonces and transaction ids after accepting `a`. */
  ghost predicate UsesUp(st: Store, a: Accepted, st': Store) {
    && a.auth.nonce == Nonce(st, a.sender)
    && st'.nextNonce == st.nextNonce[a.sender := a.auth.nonce + 1]
    && (a.auth.expiresAt.Some? ==> a.time <= a.auth.expiresAt.value)
    && (if a.auth.txId.None? then st'.processed == st.processed
        else !Processed(st, a.auth.txId.value) && st'.processed == st.processed[a.auth.txId.value := true])
  }

  lemma PreventReplayUsesUp(st: Store, time: nat, sender: string, auth: Auth)
    requires PreventReplay(st, time, sender, auth).Success?
    ensures UsesUp(st, Accepted(sender, time, auth), PreventReplay(st, time, sender, auth).value)
  {
  }

  /** What one step does to nonces and transaction ids. */
  lemma StepReplay(st: Store, input: Input)
    ensures AcceptedAt(st, input) == [] ==>
              Step(st, input).nextNonce == st.nextNonce && Step(st, input).processed == st.processed
    ensures AcceptedAt(st, input) != [] ==>
              AcceptedAt(st, input) == [AcceptedAt(st, input)[0]] && UsesUp(st, AcceptedAt(st, input)[0], Step(st, input))
  {
    if input.Message? && AuthOf(input.msg).Some? {
      var auth := AuthOf(input.msg).value;
      if Outcome(st, input).Success? {
        PreventReplayUsesUp(st, input.time, input.sender, auth);
        PerformKeepsReplayState(PreventReplay(st, input.time, input.sender, auth).value, input.msg);
      }
    } else {
      UnauthenticatedKeepsReplayState(st, input);
    }
  }

  lemma AppendAccepted(accepted: seq<Accepted>, a: Accepted, sender: string)
    ensures NoncesOf(accepted + [a], sender)
         == if a.sender == sender then NoncesOf(accepted, sender) + [a.auth.nonce] else NoncesOf(accepted, sender)
    ensures TxIdsOf(accepted + [a])
         == if a.auth.txId.Some? then TxIdsOf(accepted) + [a.auth.txId.value] else TxIdsOf(accepted)
  {
    assert (accepted + [a])[..|accepted|] == accepted;
  }

  function Count(from: nat, n: nat): (s: seq<nat>)
    ensures |s| == n
  {
    seq(n, i requires 0 <= i < n => from + i)
  }

  lemma CountSnoc(from: nat, n: nat)
    ensures Count(from, n + 1) == Count(from, n) + [from + n]
  {
  }

  ghost predicate NoncesCounted(accepted: seq<Accepted>, sender: string, from: nat, next: nat) {
    var nonces := NoncesOf(accepted, sender);
    nonces == Count(from, |nonces|) && next == from + |nonces|
  }

  lemma AcceptCounts(before: seq<Accepted>, a: Accepted, sender: string, from: nat, st: Store, st': Store)
    requires NoncesCounted(before, sender, from, Nonce(st, sender)) && UsesUp(st, a, st')
    ensures NoncesCounted(before + [a], sender, from, Nonce(st', sender))
  {
    var nonces := NoncesOf(before, sender);
    AppendAccepted(before, a, sender);
    if a.sender == sender {
      CountSnoc(from, |nonces|);
      assert NoncesOf(before + [a], sender) == nonces + [from + |nonces|];
      assert Nonce(st', sender) == from + |nonces| + 1;
    } else {
      assert Nonce(st', sender) == Nonce(st, sender);
    }
  }

  lemma StepCounts(before: seq<Accepted>, sender: string, from: nat, st: Store, input: Input)
    requires NoncesCounted(before, sender, from, Nonce(st, sender))
    ensures NoncesCounted(before + AcceptedAt(st, input), sender, from, Nonce(Step(st, input), sender))
  {
    StepReplay(st, input);
    if AcceptedAt(st, input) == [] {
      assert before + [] == before;
    } else {
      AcceptCounts(before, AcceptedAt(st, input)[0], sender, from, st, Step(st, input));
    }
  }

  /** A sender's accepted nonces are consecutive from its stored nonce, and the stored nonce counts them. */
  lemma {:induction false} NoncesHaveNoGaps(st: Store, run: seq<Input>, sender: string)
    ensures var nonces := NoncesOf(AcceptedIn(st, run), sender);
            && nonces == Count(Nonce(st, sender), |nonces|)
            && Nonce(After(st, run), sender) == Nonce(st, sender) + |nonces|
    decreases |run|
  {
    if run == [] {
    } else {
      var n := |run| - 1;
      NoncesHaveNoGaps(st, run[..n], sender);
      StepCounts(AcceptedIn(st, run[..n]), sender, Nonce(st, sender), After(st, run[..n]), run[n]);
    }
  }

  /** `ids` lists, without repetition, what was processed between two states. */
  ghost predicate ProcessedBetween(st: Store, ids: seq<string>, st': Store) {
    && Sequences.Distinct(ids)
    && (forall id :: id in ids ==> !Processed(st, id))
    && (forall id :: Processed(st', id) <==> Processed(st, id) || id in ids)
  }

  lemma AcceptProcesses(st: Store, ids: seq<string>, mid: Store, a: Accepted, st': Store)
    requires ProcessedBetween(st, ids, mid) && UsesUp(mid, a, st')
    ensures ProcessedBetween(st, if a.auth.txId.Some? then ids + [a.auth.txId.value] else ids, st')
  {
  }

  lemma StepProcesses(st: Store, before: seq<Accepted>, mid: Store, input: Input)
    requires ProcessedBetween(st, TxIdsOf(before), mid)
    ensures ProcessedBetween(st, TxIdsOf(before + AcceptedAt(mid, input)), Step(mid, input))
  {
    StepReplay(mid, input);
    if AcceptedAt(mid, input) == [] {
      assert before + [] == before;
    } else {
      var a := AcceptedAt(mid, input)[0];
      AppendAccepted(before, a, "");
      AcceptProcesses(st, TxIdsOf(before), mid, a, Step(mid, input));
    }
  }

  /** No transaction id is accepted twice, by whichever senders, and the processed ids are those accepted. */
  lemma {:induction false} TxIdsAreAcceptedOnce(st: Store, run: seq<Input>)
    ensures ProcessedBetween(st, TxIdsOf(AcceptedIn(st, run)), After(st, run))
    decreases |run|
  {
    if run == [] {
    } else {
      var n := |run| - 1;
      TxIdsAreAcceptedOnce(st, run[..n]);
      StepProcesses(st, AcceptedIn(st, run[..n]), After(st, run[..n]), run[n]);
    }
  }

  /** No message is accepted after its expiry. */
  lemma {:induction false} AcceptedBeforeExpiry(st: Store, run: seq<Input>)
    ensures forall a :: a in AcceptedIn(st, run) ==> (a.auth.expiresAt.Some? ==> a.time <= a.auth.expiresAt.value)
    decreases |run|
  {
    if run == [] {
    } else {
      var n := |run| - 1;
      AcceptedBeforeExpiry(st, run[..n]);
      StepReplay(After(st, run[..n]), run[n]);
    }
  }

  /** Replay safety from the contract's first state. */
  lemma ReplaySafety(creator: string, admin: Option<string>, run: seq<Input>, sender: string)
    ensures var st := Instantiate(creator, admin);
            var accepted := AcceptedIn(st, run);
            && NoncesOf(accepted, sender) == Count(0, |NoncesOf(accepted, sender)|)
            && Nonce(After(st, run), sender) == |NoncesOf(accepted, sender)|
            && Sequences.Distinct(TxIdsOf(accepted))
            && (forall id :: Processed(After(st, run), id) <==> id in TxIdsOf(accepted))
  {
    NoncesHaveNoGaps(Instantiate(creator, admin), run, sender);
    TxIdsAreAcceptedOnce(Instantiate(creator, admin), run);
  }

  /** Whatever happens in between, an accepted authorization is not accepted from its sender again. */
  lemma NoAuthorizationTwice(st: Store, first: Input, run: seq<Input>, second: Input)
    requires first.Message? && second.Message? && first.sender == second.sender
    requires AuthOf(first.msg).Some? && AuthOf(second.msg).Some?
    requires AuthOf(first.msg).value.nonce == AuthOf(second.msg).value.nonce
    requires Outcome(st, first).Success?
    ensures Outcome(After(Step(st, first), run), second).Failure?
  {
    StepReplay(st, first);
    assert AcceptedAt(st, first) != [];
    NoncesHaveNoGaps(Step(st, first), run, first.sender);
    StepReplay(After(Step(st, first), run), second);
  }

  // ----- Conservation of funds -----

  function DepositOf(st: Store, input: Input): nat {
    if input.Message? && input.msg.Treasury? && input.msg.action.Deposit? && Outcome(st, input).Success?
    then input.msg.action.amount else 0
  }

  function OutflowOf(st: Store, input: Input): nat {
    if input.Message? && input.msg.Treasury? && !input.msg.action.Deposit? && Outcome(st, input).Success?
    then input.msg.action.amount else 0
  }

  function FeesPaidOf(st: Store, input: Input, token: string): nat {
    if input.Message? && input.msg.WithdrawFees? && input.msg.token == token && Outcome(st, input).Success?
    then input.msg.amount else 0
  }

  function SendsOf(st: Store, input: Input): seq<Send> {
    if Outcome(st, input).Success? then Outcome(st, input).value.1 else []
  }

  function Total(sends: seq<Send>, denom: string): nat {
    if sends == [] then 0 else Total(sends[1..], denom) + (if sends[0].denom == denom then sends[0].amount else 0)
  }

  function Deposits(st: Store, run: seq<Input>): nat {
    if run == [] then 0
    else var n := |run| - 1; Deposits(st, run[..n]) + DepositOf(After(st, run[..n]), run[n])
  }

  function Outflows(st: Store, run: seq<Input>): nat {
    if run == [] then 0
    else var n := |run| - 1; Outflows(st, run[..n]) + OutflowOf(After(st, run[..n]), run[n])
  }

  function FeesPaid(st: Store, run: seq<Input>, token: string): nat {
    if run == [] then 0
    else var n := |run| - 1; FeesPaid(st, run[..n], token) + FeesPaidOf(After(st, run[..n]), run[n], token)
  }

  /** The amount of `denom` in all bank transfers a run emits. */
  function Sent(st: Store, run: seq<Input>, denom: string): nat {
    if run == [] then 0
    else var n := |run| - 1; Sent(st, run[..n], denom) + Total(SendsOf(After(st, run[..n]), run[n]), denom)
  }

  lemma CleaningKeepsFees(st: Store, token: string)
    ensures Fee(Cleaned(st), token) == Fee(st, token)
  {
  }

  lemma PayMovesTreasury(st: Store, action: TreasuryAction)
    requires Pay(st, action).Success?
    ensures var (st', sends) := Pay(st, action).value;
            && st'.fees == st.fees
            && (action.Deposit? ==> TreasuryBalance(st') == TreasuryBalance(st) + action.amount && sends == [])
            && (!action.Deposit? ==>
                  TreasuryBalance(st') + action.amount == TreasuryBalance(st) &&
                  sends == [Send(action.recipient, action.amount, "stablecoin")])
  {
  }

  lemma PerformMovesFunds(st: Store, msg: ExecuteMsg, token: string)
    requires AuthOf(msg).Some? && Perform(st, msg).Success?
    ensures var (st', sends) := Perform(st, msg).value;
            && (!MovesFunds(msg) ==> st'.fees == st.fees && st'.treasury == st.treasury && sends == [])
            && (msg.WithdrawFees? ==>
                  && st'.treasury == st.treasury && sends == [Send(msg.recipient, msg.amount, msg.token)]
                  && Fee(st', token) + (if token == msg.token then msg.amount else 0) == Fee(st, token))
            && (msg.Treasury? ==> Pay(st, msg.action) == Success((st', sends)))
  {
  }

  lemma PreventReplayKeepsFunds(st: Store, time: nat, sender: string, auth: Auth)
    requires PreventReplay(st, time, sender, auth).Success?
    ensures PreventReplay(st, time, sender, auth).value.fees == st.fees
    ensures PreventReplay(st, time, sender, auth).value.treasury == st.treasury
  {
  }

  lemma TotalOfOne(send: Send, denom: string)
    ensures Total([send], denom) == if send.denom == denom then send.amount else 0
  {
    assert [send][1..] == [];
  }

  lemma UnauthenticatedKeepsFunds(st: Store, input: Input, token: string)
    requires input.Message? ==> AuthOf(input.msg).None?
    ensures TreasuryBalance(Step(st, input)) == TreasuryBalance(st) && Fee(Step(st, input), token) == Fee(st, token)
    ensures SendsOf(st, input) == []
  {
    CleaningKeepsFees(st, token);
  }

  /** One step's changes to the balances, and the transfers it emits: each is one debit of the same amount. */
  lemma StepFunds(st: Store, input: Input, token: string)
    ensures TreasuryBalance(Step(st, input)) + OutflowOf(st, input) == TreasuryBalance(st) + DepositOf(st, input)
    ensures Fee(Step(st, input), token) + FeesPaidOf(st, input, token) == Fee(st, token)
    ensures |SendsOf(st, input)| <= 1
    ensures Total(SendsOf(st, input), token)
         == FeesPaidOf(st, input, token) + (if token == "stablecoin" then OutflowOf(st, input) else 0)
  {
    if input.Message? && AuthOf(input.msg).Some? {
      if Outcome(st, input).Success? {
        var mid := PreventReplay(st, input.time, input.sender, AuthOf(input.msg).value);
        PreventReplayKeepsFunds(st, input.time, input.sender, AuthOf(input.msg).value);
        PerformMovesFunds(mid.value, input.msg, token);
        if input.msg.WithdrawFees? {
          TotalOfOne(Send(input.msg.recipient, input.msg.amount, input.msg.token), token);
        } else if input.msg.Treasury? {
          PayMovesTreasury(mid.value, input.msg.action);
          if !input.msg.action.Deposit? {
            TotalOfOne(Send(input.msg.action.recipient, input.msg.action.amount, "stablecoin"), token);
          }
        }
      }
    } else {
      UnauthenticatedKeepsFunds(st, input, token);
    }
  }

  /**
   * Over any run the treasury is what it was plus deposits minus outflows, each fee balance is what it
   * was minus what was paid from it, and the emitted transfers add up to exactly these debits.
   */
  lemma {:induction false} FundsAreConserved(st: Store, run: seq<Input>, token: string)
    ensures TreasuryBalance(After(st, run)) + Outflows(st, run) == TreasuryBalance(st) + Deposits(st, run)
    ensures Fee(After(st, run), token) + FeesPaid(st, run, token) == Fee(st, token)
    ensures Sent(st, run, token) == FeesPaid(st, run, token) + (if token == "stablecoin" then Outflows(st, run) else 0)
    decreases |run|
  {
    if run == [] {
    } else {
      var n := |run| - 1;
      FundsAreConserved(st, run[..n], token);
      StepFunds(After(st, run[..n]), run[n], token);
    }
  }

  // ----- Authority -----

  /** The sender is the stored admin or holds a role. */
  ghost predicate MayMoveFunds(st: Store, sender: string) {
    st.admin.Some? && (sender == st.admin.value || (sender in st.roles && st.roles[sender]))
  }

  /** Balances change, and transfers go out, only by messages of the admin or of a role holder. */
  lemma FundsNeedAuthority(st: Store, input: Input, token: string)
    requires TreasuryBalance(Step(st, input)) != TreasuryBalance(st) || Fee(Step(st, input), token) != Fee(st, token) || SendsOf(st, input) != []
    ensures input.Message? && MovesFunds(input.msg) && MayMoveFunds(st, input.sender)
  {
    StepFunds(st, input, token);
    if !(input.Message? && AuthOf(input.msg).Some?) {
      UnauthenticatedKeepsFunds(st, input, token);
    } else if Outcome(st, input).Success? {
      var mid := PreventReplay(st, input.time, input.sender, AuthOf(input.msg).value);
      PreventReplayKeepsFunds(st, input.time, input.sender, AuthOf(input.msg).value);
      PerformMovesFunds(mid.value, input.msg, token);
    }
  }

  /** Admin and roles change only by configuration and cleanup messages of the admin. */
  lemma AuthorityNeedsAdmin(st: Store, input: Input)
    requires Step(st, input).admin != st.admin || Step(st, input).roles != st.roles
    ensures input.Message? && (input.msg.UpdateConfig? || input.msg.CleanupStorage?) && st.admin == Some(input.sender)
  {
    if input.Message? && AuthOf(input.msg).Some? && Outcome(st, input).Success? {
      var mid := PreventReplay(st, input.time, input.sender, AuthOf(input.msg).value).value;
      assert mid.admin == st.admin && mid.roles == st.roles;
      PerformKeepsAuthority(mid, input.msg);
    }
  }

  lemma PerformKeepsAuthority(st: Store, msg: ExecuteMsg)
    requires AuthOf(msg).Some? && Perform(st, msg).Success?
    ensures Perform(st, msg).value.0.admin == st.admin && Perform(st, msg).value.0.roles == st.roles
  {
  }

  /** A migration succeeds once, to the current version, and afterwards version and treasury pass the self-check. */
  lemma MigrationMeaning(st: Store, target: nat)
    ensures Migrate(st, target).Success? <==>
            target == CURRENT_CONFIG_VERSION && (st.version.None? || st.version.value < CURRENT_CONFIG_VERSION)
    ensures Migrate(st, target).Success? ==>
              var st' := Migrate(st, target).value.0;
              && Migrate(st', target).Failure?
              && TreasuryBalance(st') == TreasuryBalance(st) && (st.treasury.Some? ==> st'.treasury == st.treasury)
              && (SelfCheckOk(Cleaned(st')) <==> st.admin.Some? && st.admin.value != "")
  {
    if Migrate(st, target).Success? {
      SelfCheckAfterCleanup(Migrate(st, target).value.0);
    }
  }

  // ----- Cleanup, roles and self-check -----

  /** Cleanup keeps every authorization decision and every fee reading, and a second one changes nothing. */
  lemma CleanupIsInvisible(st: Store, sender: string, token: string)
    ensures AuthorizationError(Cleaned(st), sender) == AuthorizationError(st, sender)
    ensures AdminError(Cleaned(st), sender) == AdminError(st, sender)
    ensures Fee(Cleaned(st), token) == Fee(st, token)
    ensures Cleaned(Cleaned(st)) == Cleaned(st)
  {
    assert Cleaned(Cleaned(st)).fees == Cleaned(st).fees;
    assert Cleaned(Cleaned(st)).roles == Cleaned(st).roles;
  }

  /** After cleanup only the admin, the version and the treasury can fail the self-check. */
  lemma SelfCheckAfterCleanup(st: Store)
    ensures SelfCheckOk(Cleaned(st)) <==>
            st.admin.Some? && st.admin.value != "" && st.version == Some(CURRENT_CONFIG_VERSION) && st.treasury.Some?
  {
  }

  ghost predicate NoFalseRole(roles: map<string, bool>) {
    forall k :: k in roles ==> roles[k]
  }

  lemma {:induction false} ApplyKeepsRolesTrue(roles: map<string, bool>, mutations: seq<RoleMutation>)
    requires NoFalseRole(roles)
    ensures NoFalseRole(Apply(roles, mutations))
    decreases |mutations|
  {
    if mutations == [] {
    } else {
      match mutations[0]
      case Grant(a) => ApplyKeepsRolesTrue(roles[a := true], mutations[1..]);
      case Revoke(a) => ApplyKeepsRolesTrue(roles - {a}, mutations[1..]);
    }
  }

  /** The administrative cells of every state a run reaches from the first one. */
  ghost predicate Sound(st: Store) {
    NoFalseRole(st.roles) && st.version == Some(CURRENT_CONFIG_VERSION) && st.treasury.Some? && st.admin.Some?
  }

  lemma PerformKeepsSound(st: Store, msg: ExecuteMsg)
    requires Sound(st) && AuthOf(msg).Some? && Perform(st, msg).Success?
    ensures Sound(Perform(st, msg).value.0)
  {
  }

  lemma ReconfigureKeepsSound(st: Store, sender: string, newAdmin: Option<string>, updates: seq<(string, bool)>)
    requires Sound(st) && Reconfigure(st, sender, newAdmin, updates).Success?
    ensures Sound(Reconfigure(st, sender, newAdmin, updates).value.0)
  {
    ApplyKeepsRolesTrue(st.roles, Mutations(st.roles, updates, {}).value);
  }

  lemma StepKeepsSound(st: Store, input: Input)
    requires Sound(st)
    ensures Sound(Step(st, input))
  {
    if input.Message? && Outcome(st, input).Success? {
      if AuthOf(input.msg).Some? {
        var mid := PreventReplay(st, input.time, input.sender, AuthOf(input.msg).value).value;
        assert Sound(mid);
        PerformKeepsSound(mid, input.msg);
      } else if input.msg.UpdateConfig? {
        ReconfigureKeepsSound(st, input.sender, input.msg.newAdmin,
                              if input.msg.authorizedRoles.Some? then input.msg.authorizedRoles.value else []);
      }
    }
  }

  /** No run from the first state stores a false role or loses the version, the treasury or the admin. */
  lemma {:induction false} RunsStaySound(creator: string, admin: Option<string>, run: seq<Input>)
    ensures Sound(After(Instantiate(creator, admin), run))
    decreases |run|
  {
    if run == [] {
    } else {
      var n := |run| - 1;
      RunsStaySound(creator, admin, run[..n]);
      StepKeepsSound(After(Instantiate(creator, admin), run[..n]), run[n]);
    }
  }

  // ----- Batches -----

  /** The metadata the last item for `key` carries. */
  function LastFor(msgs: seq<BatchMsg>, key: string): Option<Metadata> {
    if msgs == [] then None
    else
      var later := LastFor(msgs[1..], key);
      if later.Some? then later
      else if msgs[0].tokenId == key then Some(msgs[0].metadata)
      else None
  }

  /** The update at `i` finds its key neither stored before the batch nor set earlier in it. */
  ghost predicate Dangling(metadata: map<string, Metadata>, msgs: seq<BatchMsg>, i: nat) {
    && i < |msgs| && msgs[i].UpdateItem? && msgs[i].tokenId !in metadata
    && forall j :: 0 <= j < i ==> msgs[j].tokenId != msgs[i].tokenId
  }

  /** A batch fails exactly when some update dangles; else each key ends with its last item, or as it was. */
  lemma {:induction false} BatchMeaning(metadata: map<string, Metadata>, msgs: seq<BatchMsg>)
    ensures ApplyBatch(metadata, msgs).Failure? <==> exists i: nat :: Dangling(metadata, msgs, i)
    ensures ApplyBatch(metadata, msgs).Success? ==>
              var result := ApplyBatch(metadata, msgs).value;
              forall key ::
                && (key in result <==> key in metadata || LastFor(msgs, key).Some?)
                && (LastFor(msgs, key).Some? ==> key in result && result[key] == LastFor(msgs, key).value)
                && (LastFor(msgs, key).None? && key in metadata ==> key in result && result[key] == metadata[key])
    decreases |msgs|
  {
    if msgs == [] {
    } else {
      var m := msgs[0];
      if m.UpdateItem? && m.tokenId !in metadata {
        assert Dangling(metadata, msgs, 0);
      } else {
        var next := metadata[m.tokenId := m.metadata];
        BatchMeaning(next, msgs[1..]);
        if i: nat :| Dangling(next, msgs[1..], i) {
          assert msgs[1..][i] == msgs[i + 1];
          assert forall j :: 0 < j < i + 1 ==> msgs[j] == msgs[1..][j - 1];
          assert Dangling(metadata, msgs, i + 1);
        }
        if i: nat :| Dangling(metadata, msgs, i) {
          assert i > 0;
          assert Dangling(next, msgs[1..], i - 1);
        }
      }
    }
  }

  /** A single message is a batch of one item. */
  lemma SingleIsBatchOfOne(st: Store, tokenId: string, metadata: Metadata, auth: Auth)
    ensures Perform(st, SetMetadata(tokenId, metadata, auth)) == Perform(st, Batch([SetItem(tokenId, metadata)], auth))
    ensures Perform(st, UpdateMetadata(tokenId, metadata, auth)) == Perform(st, Batch([UpdateItem(tokenId, metadata)], auth))
  {
    assert [SetItem(tokenId, metadata)][1..] == [] && [UpdateItem(tokenId, metadata)][1..] == [];
    var stored := st.metadata[tokenId := metadata];
    assert ApplyBatch(stored, []) == Success(stored);
  }

  /** A batch is the sequence of its parts: running a prefix and then the rest. */
  lemma {:induction false} BatchInParts(metadata: map<string, Metadata>, a: seq<BatchMsg>, b: seq<BatchMsg>)
    ensures ApplyBatch(metadata, a + b)
         == if ApplyBatch(metadata, a).Success? then ApplyBatch(ApplyBatch(metadata, a).value, b) else ApplyBatch(metadata, a)
    decreases |a|
  {
    if a == [] {
      assert a + b == b;
    } else {
      assert (a + b)[0] == a[0] && (a + b)[1..] == a[1..] + b;
      if !(a[0].UpdateItem? && a[0].tokenId !in metadata) {
        BatchInParts(metadata[a[0].tokenId := a[0].metadata], a[1..], b);
      }
    }
  }

  // ----- Role updates -----

  /** The role updates carried out one at a time, each judged against the roles at that point. */
  function OneByOne(roles: map<string, bool>, updates: seq<(string, bool)>, seen: set<string>): Result<map<string, bool>, Error>
    decreases |updates|
  {
    if updates == [] then Success(roles)
    else
      var address, grant := Trim(updates[0].0), updates[0].1;
      if address == "" then Failure(EmptyPrincipal)
      else if address in seen then Failure(DuplicateRole)
      else if !grant && address !in roles then Failure(NothingToRevoke)
      else OneByOne(if grant then roles[address := true] else roles - {address}, updates[1..], seen + {address})
  }

  ghost predicate SameOutside(a: map<string, bool>, b: map<string, bool>, seen: set<string>) {
    forall k :: k !in seen ==> (k in a <==> k in b) && (k in a && k in b ==> a[k] == b[k])
  }

  /** Judging all updates against the stored roles and applying them afterwards is doing them one by one. */
  lemma {:induction false} MutationsAreOneByOne(
      stored: map<string, bool>, current: map<string, bool>, updates: seq<(string, bool)>, seen: set<string>)
    requires SameOutside(stored, current, seen)
    ensures var mutations := Mutations(stored, updates, seen);
            OneByOne(current, updates, seen)
            == if mutations.Success? then Success(Apply(current, mutations.value)) else Failure(mutations.error)
    decreases |updates|
  {
    if updates == [] {
    } else {
      var address, grant := Trim(updates[0].0), updates[0].1;
      if address != "" && address !in seen && (grant || address in stored) {
        var next := if grant then current[address := true] else current - {address};
        MutationsAreOneByOne(stored, next, updates[1..], seen + {address});
        var others := Mutations(stored, updates[1..], seen + {address});
        if others.Success? {
          if !grant {
            assert ([Revoke(address)] + others.value)[1..] == others.value;
          } else if address in stored && stored[address] {
            assert next == current;
          } else {
            assert ([Grant(address)] + others.value)[1..] == others.value;
          }
        }
      }
    }
  }

  /** `UpdateConfig` changes the roles as one-by-one updates would, or fails with the same error and no change. */
  lemma UpdateConfigIsOneByOne(st: Store, sender: string, newAdmin: Option<string>, updates: seq<(string, bool)>)
    requires AdminError(st, sender).None? && (newAdmin.Some? ==> Trim(newAdmin.value) != "")
    ensures var r, roles := Reconfigure(st, sender, newAdmin, updates), OneByOne(st.roles, updates, {});
            && (r.Failure? <==> roles.Failure?)
            && (r.Failure? ==> r.error == roles.error)
            && (r.Success? ==> r.value.0.roles == roles.value)
  {
    MutationsAreOneByOne(st.roles, st.roles, updates, {});
  }
}
