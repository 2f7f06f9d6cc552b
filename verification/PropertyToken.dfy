/**
 * The property token contract: its storage cells, its messages, and what each message does to the
 * cells. A failing message is rolled back by the runtime, so the functions give a new store or an error.
 */
module PropertyToken {
  import opened Wrappers
  import opened Text

  datatype Metadata = Metadata(name: string, description: string, imageUrl: Option<string>)

  datatype Auth = Auth(nonce: nat, expiresAt: Option<nat>, txId: Option<string>)

  datatype TreasuryAction =
    | Deposit(amount: nat)
    | Withdraw(amount: nat, recipient: string)
    | Transfer(amount: nat, recipient: string)

  datatype BatchMsg =
    | SetItem(tokenId: string, metadata: Metadata)
    | UpdateItem(tokenId: string, metadata: Metadata)

  datatype ExecuteMsg =
    | SetMetadata(tokenId: string, metadata: Metadata, auth: Auth)
    | UpdateMetadata(tokenId: string, metadata: Metadata, auth: Auth)
    | Batch(msgs: seq<BatchMsg>, auth: Auth)
    | WithdrawFees(recipient: string, amount: nat, token: string, auth: Auth)
    | Treasury(action: TreasuryAction, auth: Auth)
    | UpdateConfig(newAdmin: Option<string>, authorizedRoles: Option<seq<(string, bool)>>)
    | CleanupStorage

  datatype Error =
    | SignatureExpired | NonceUsed | NonceTooHigh | TxIdProcessed | Overflow
    | AdminMissing | Unauthorized | NotAdmin
    | MetadataNotFound | InsufficientFees | TreasuryOverdraw
    | EmptyPrincipal | DuplicateRole | NothingToRevoke
    | VersionMismatch | AlreadyMigrated

  /** A bank transfer attached to a response. */
  datatype Send = Send(recipient: string, amount: nat, denom: string)

  const CURRENT_CONFIG_VERSION: nat := 1
  const MAX_U64: nat := 0xFFFF_FFFF_FFFF_FFFF
  const MAX_U128: nat := 0xFFFF_FFFF_FFFF_FFFF_FFFF_FFFF_FFFF_FFFF

  datatype Store = Store(
    metadata: map<string, Metadata>,
    nextNonce: map<string, nat>,
    processed: map<string, bool>,
    fees: map<string, nat>,
    treasury: Option<nat>,
    admin: Option<string>,
    roles: map<string, bool>,
    version: Option<nat>)

  function Nonce(st: Store, sender: string): nat {
    if sender in st.nextNonce then st.nextNonce[sender] else 0
  }

  predicate Processed(st: Store, id: string) {
    id in st.processed && st.processed[id]
  }

  function Fee(st: Store, token: string): nat {
    if token in st.fees then st.fees[token] else 0
  }

  function TreasuryBalance(st: Store): nat {
    if st.treasury.Some? then st.treasury.value else 0
  }

  function Instantiate(sender: string, admin: Option<string>): Store {
    Store(map[], map[], map[], map[], Some(0), Some(if admin.Some? then admin.value else sender), map[],
          Some(CURRENT_CONFIG_VERSION))
  }

  // ----- Checks -----

  /** Checks expiry, nonce and transaction id, and uses up the latter two. */
  function PreventReplay(st: Store, time: nat, sender: string, auth: Auth): Result<Store, Error> {
    if auth.expiresAt.Some? && time > auth.expiresAt.value then Failure(SignatureExpired)
    else if auth.nonce < Nonce(st, sender) then Failure(NonceUsed)
    else if auth.nonce > Nonce(st, sender) then Failure(NonceTooHigh)
    else if Nonce(st, sender) >= MAX_U64 then Failure(Overflow)
    else if auth.txId.Some? && Processed(st, auth.txId.value) then Failure(TxIdProcessed)
    else
      var next := st.(nextNonce := st.nextNonce[sender := auth.nonce + 1]);
      Success(if auth.txId.Some? then next.(processed := next.processed[auth.txId.value := true]) else next)
  }

  /** `None` when the sender may move funds. */
  function AuthorizationError(st: Store, sender: string): Option<Error> {
    if st.admin.None? then Some(AdminMissing)
    else if sender != st.admin.value && !(sender in st.roles && st.roles[sender]) then Some(Unauthorized)
    else None
  }

  function AdminError(st: Store, sender: string): Option<Error> {
    if st.admin.None? then Some(AdminMissing)
    else if sender != st.admin.value then Some(NotAdmin)
    else None
  }

  // ----- Handlers -----

  /** A new store and the bank transfers to make. */
  type Reply = Result<(Store, seq<Send>), Error>

  function ApplyBatch(metadata: map<string, Metadata>, msgs: seq<BatchMsg>): Result<map<string, Metadata>, Error>
    decreases |msgs|
  {
    if msgs == [] then Success(metadata)
    else
      var m := msgs[0];
      if m.UpdateItem? && m.tokenId !in metadata then Failure(MetadataNotFound)
      else ApplyBatch(metadata[m.tokenId := m.metadata], msgs[1..])
  }

  function Pay(st: Store, action: TreasuryAction): Reply {
    var current := TreasuryBalance(st);
    match action
    case Deposit(amount) =>
      if current + amount > MAX_U128 then Failure(Overflow)
      else Success((st.(treasury := Some(current + amount)), []))
    case Withdraw(amount, recipient) =>
      if amount > current then Failure(TreasuryOverdraw)
      else Success((st.(treasury := Some(current - amount)), [Send(recipient, amount, "stablecoin")]))
    case Transfer(amount, recipient) =>
      if amount > current then Failure(TreasuryOverdraw)
      else Success((st.(treasury := Some(current - amount)), [Send(recipient, amount, "stablecoin")]))
  }

  datatype RoleMutation = Grant(address: string) | Revoke(address: string)

  /** The mutations for role updates, all judged against the same stored roles. */
  function Mutations(roles: map<string, bool>, updates: seq<(string, bool)>, seen: set<string>): Result<seq<RoleMutation>, Error> {
    if updates == [] then Success([])
    else
      var address, grant := Trim(updates[0].0), updates[0].1;
      if address == "" then Failure(EmptyPrincipal)
      else if address in seen then Failure(DuplicateRole)
      else if !grant && address !in roles then Failure(NothingToRevoke)
      else
        var others := Mutations(roles, updates[1..], seen + {address});
        if !grant then Prepend([Revoke(address)], others)
        else if address in roles && roles[address] then others
        else Prepend([Grant(address)], others)
  }

  function Prepend(mutations: seq<RoleMutation>, r: Result<seq<RoleMutation>, Error>): Result<seq<RoleMutation>, Error> {
    if r.Success? then Success(mutations + r.value) else r
  }

  function Apply(roles: map<string, bool>, mutations: seq<RoleMutation>): map<string, bool>
    decreases |mutations|
  {
    if mutations == [] then roles
    else
      match mutations[0]
      case Grant(a) => Apply(roles[a := true], mutations[1..])
      case Revoke(a) => Apply(roles - {a}, mutations[1..])
  }

  function Reconfigure(st: Store, sender: string, newAdmin: Option<string>, updates: seq<(string, bool)>): Reply {
    var denied := AdminError(st, sender);
    if denied.Some? then Failure(denied.value)
    else if newAdmin.Some? && Trim(newAdmin.value) == "" then Failure(EmptyPrincipal)
    else
      var mutations := Mutations(st.roles, updates, {});
      if mutations.Failure? then Failure(mutations.error)
      else
        Success((st.(admin := if newAdmin.Some? then Some(Trim(newAdmin.value)) else st.admin,
                     roles := Apply(st.roles, mutations.value)), []))
  }

  function Cleaned(st: Store): Store {
    st.(fees := map k | k in st.fees && st.fees[k] != 0 :: st.fees[k],
        roles := map k | k in st.roles && st.roles[k] :: st.roles[k])
  }

  /** The authorization a message carries; configuration and cleanup carry none. */
  function AuthOf(msg: ExecuteMsg): Option<Auth> {
    match msg
    case SetMetadata(_, _, auth) => Some(auth)
    case UpdateMetadata(_, _, auth) => Some(auth)
    case Batch(_, auth) => Some(auth)
    case WithdrawFees(_, _, _, auth) => Some(auth)
    case Treasury(_, auth) => Some(auth)
    case UpdateConfig(_, _) => None
    case CleanupStorage => None
  }

  predicate MovesFunds(msg: ExecuteMsg) {
    msg.WithdrawFees? || msg.Treasury?
  }

  function PayFees(st: Store, recipient: string, amount: nat, token: string): Reply {
    if amount > Fee(st, token) then Failure(InsufficientFees)
    else Success((st.(fees := st.fees[token := Fee(st, token) - amount]), [Send(recipient, amount, token)]))
  }

  /** An authenticated message after its authorization was checked and used up. */
  function Perform(st: Store, msg: ExecuteMsg): Reply
    requires AuthOf(msg).Some?
  {
    match msg
    case SetMetadata(tokenId, metadata, _) =>
      Success((st.(metadata := st.metadata[tokenId := metadata]), []))
    case UpdateMetadata(tokenId, metadata, _) =>
      if tokenId !in st.metadata then Failure(MetadataNotFound)
      else Success((st.(metadata := st.metadata[tokenId := metadata]), []))
    case Batch(msgs, _) =>
      var metadata := ApplyBatch(st.metadata, msgs);
      if metadata.Failure? then Failure(metadata.error)
      else Success((st.(metadata := metadata.value), []))
    case WithdrawFees(recipient, amount, token, _) => PayFees(st, recipient, amount, token)
    case Treasury(action, _) => Pay(st, action)
  }

  function Handle(st: Store, time: nat, sender: string, msg: ExecuteMsg): Reply {
    if AuthOf(msg).Some? then
      var denied := if MovesFunds(msg) then AuthorizationError(st, sender) else None;
      if denied.Some? then Failure(denied.value)
      else
        var s := PreventReplay(st, time, sender, AuthOf(msg).value);
        if s.Failure? then Failure(s.error) else Perform(s.value, msg)
    else if msg.UpdateConfig? then
      Reconfigure(st, sender, msg.newAdmin, if msg.authorizedRoles.Some? then msg.authorizedRoles.value else [])
    else
      var denied := AdminError(st, sender);
      if denied.Some? then Failure(denied.value) else Success((Cleaned(st), []))
  }

  function Migrate(st: Store, target: nat): Reply {
    var stored := if st.version.Some? then st.version.value else 0;
    if target != CURRENT_CONFIG_VERSION then Failure(VersionMismatch)
    else if stored >= CURRENT_CONFIG_VERSION then Failure(AlreadyMigrated)
    else
      Success((st.(treasury := if stored < 1 && st.treasury.None? then Some(0) else st.treasury,
                   version := Some(CURRENT_CONFIG_VERSION)), []))
  }

  // ----- Self-check -----

  predicate SelfCheckOk(st: Store) {
    && st.admin.Some? && st.admin.value != ""
    && st.version == Some(CURRENT_CONFIG_VERSION)
    && st.treasury.Some?
    && (forall k :: k in st.fees ==> st.fees[k] != 0)
    && (forall k :: k in st.roles ==> st.roles[k])
  }
}
