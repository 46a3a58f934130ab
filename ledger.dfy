/** The EduChain contract as a value: the persistent storage it owns, the
    platform effects it causes (minted units, transfers, asynchronous
    requests), and one pure function per endpoint giving the outcome of a
    call. A call either fails with an `Error`, in which case the platform
    rolls back everything it did, or yields the new ledger. The class in
    edu_chain.dfy is proved against these functions. */
module EduChainSpec {
  import opened Esdt

  /** Units minted per certificate or user record (NFT_AMOUNT). */
  const NFT_AMOUNT: nat := 1

  /** SHA-256 of the empty message. Both minting endpoints hash a freshly
      created, empty buffer, so this one digest is the attribute hash of
      every unit the contract mints. */
  const H0: seq<byte> := [
    0xe3, 0xb0, 0xc4, 0x42, 0x98, 0xfc, 0x1c, 0x14, 0x9a, 0xfb, 0xf4, 0xc8, 0x99, 0x6f, 0xb9, 0x24,
    0x27, 0xae, 0x41, 0xe4, 0x64, 0x9b, 0x93, 0x4c, 0xa4, 0x95, 0x99, 0x1b, 0x78, 0x52, 0xb8, 0x55]

  /** The property set requested by issue_token. */
  const ISSUE_PROPERTIES: NftProperties := NftProperties(
    canFreeze := true, canWipe := true, canPause := true, canTransferCreateRole := true,
    canChangeOwner := false, canUpgrade := false, canAddSpecialRoles := true)

  datatype MintFailure =
    | NoTokenIdentifier   // esdt_nft_create under the empty identifier
    | NoCreateRole        // the contract does not hold NftCreate on the token

  datatype Error =
    | NotPayable          // value attached to an endpoint without #[payable]
    | EsdtNotAccepted     // ESDT attached to the EGLD-only issue_token
    | Unauthorized        // #[only_owner] and the caller is not the owner
    | IncorrectEsdtCount  // single_esdt / egld_or_single_esdt with the wrong number of transfers
    | WrongToken          // "Deposited token not correct"
    | InvalidTokenIdentifier  // "Provided Token ID not valid!"
    | AlreadyIssued       // "Token already issued"
    | TokenNotIssued      // "Token not issued"
    | MintRejected(reason: MintFailure)
    | TransferFailed      // the receiver of register_user refuses the unit
    | EgldTokenIdentifier // unwrap_esdt on an EGLD identifier

  datatype Result<T> = Ok(value: T) | Err(error: Error)

  /** The contract's storage (owner, nftTokenId, eduToken, availableRewards)
      together with the platform state it affects: the last nonce per token,
      the units minted, the transfers sent, the issue requests awaiting their
      callback and the role requests sent. */
  datatype Ledger = Ledger(
    owner: Address,
    selfAddress: Address,
    nftTokenId: TokenIdentifier,
    eduToken: TokenIdentifier,
    availableRewards: nat,
    lastNonce: map<TokenIdentifier, nat>,
    minted: seq<NftUnit>,
    transfers: seq<Transfer>,
    pending: seq<IssueRequest>,
    roleRequests: seq<RoleRequest>)

  /** The ledger right after deployment: init stores nothing. */
  function Deployed(owner: Address, selfAddress: Address): Ledger {
    Ledger(owner, selfAddress, "", "", 0, map[], [], [], [], [])
  }

  /** The checks the framework makes before an owner-only endpoint without
      #[payable] runs: no attached value, then the caller is the owner. */
  function OwnerGuard(l: Ledger, caller: Address, value: CallValue): (r: Option<Error>)
    ensures r == None <==> !IsPaid(value) && caller == l.owner
    ensures IsPaid(value) ==> r == Some(NotPayable)
    ensures !IsPaid(value) && caller != l.owner ==> r == Some(Unauthorized)
  {
    if IsPaid(value) then Some(NotPayable)
    else if caller != l.owner then Some(Unauthorized)
    else None
  }

  /** The nonce the platform assigns to the next unit of `token`. */
  function NextNonce(l: Ledger, token: TokenIdentifier): nat {
    (if token in l.lastNonce then l.lastNonce[token] else 0) + 1
  }

  /** esdt_nft_create of NFT_AMOUNT units with zero royalties, digest H0 and
      no URIs; returns the new ledger and the assigned nonce. */
  function Mint(l: Ledger, token: TokenIdentifier, name: string, attributes: Attributes, roleGranted: bool)
    : (r: Result<(Ledger, nat)>)
    ensures r.Ok? <==> token != "" && roleGranted
    ensures token == "" ==> r == Err(MintRejected(NoTokenIdentifier))
    ensures r.Ok? ==>
      var (l', nonce) := r.value;
      && nonce == NextNonce(l, token)
      && l'.lastNonce == l.lastNonce[token := nonce]
      && l'.minted == l.minted + [NftUnit(token, nonce, NFT_AMOUNT, name, 0, H0, attributes, [])]
      && l'.(lastNonce := l.lastNonce, minted := l.minted) == l
  {
    if token == "" then Err(MintRejected(NoTokenIdentifier))
    else if !roleGranted then Err(MintRejected(NoCreateRole))
    else
      var nonce := NextNonce(l, token);
      Ok((l.(lastNonce := l.lastNonce[token := nonce],
             minted := l.minted + [NftUnit(token, nonce, NFT_AMOUNT, name, 0, H0, attributes, [])]),
          nonce))
  }

  /** require_token_issued. */
  function RequireTokenIssued(l: Ledger): (r: Option<Error>)
    ensures r == None <==> l.nftTokenId != ""
    ensures r != None ==> r == Some(TokenNotIssued)
  {
    if l.nftTokenId == "" then Some(TokenNotIssued) else None
  }

  /** issue_certificate: mints one certificate unit that stays at the
      contract and returns its nonce. */
  function IssueCertificate(
    l: Ledger, caller: Address, value: CallValue,
    tokenName: string, studentName: string, programName: string,
    grade: u16, creditPoints: u16, expirationTimestamp: u64,
    blockTimestamp: u64, roleGranted: bool): (r: Result<(Ledger, nat)>)
    ensures r.Ok? <==> !IsPaid(value) && caller == l.owner && l.nftTokenId != "" && roleGranted
    ensures !IsPaid(value) && caller == l.owner && l.nftTokenId == "" ==>
      r == Err(MintRejected(NoTokenIdentifier))
    ensures r.Ok? ==>
      var (l', nonce) := r.value;
      && nonce == NextNonce(l, l.nftTokenId)
      && l'.lastNonce == l.lastNonce[l.nftTokenId := nonce]
      && l'.minted == l.minted + [NftUnit(l.nftTokenId, nonce, NFT_AMOUNT, tokenName, 0, H0,
           Certificate(CertificateAttributes(studentName, programName, grade, creditPoints,
                                             blockTimestamp, expirationTimestamp)), [])]
      && l'.(lastNonce := l.lastNonce, minted := l.minted) == l
  {
    match OwnerGuard(l, caller, value)
    case Some(e) => Err(e)
    case None =>
      var attributes := CertificateAttributes(
        name := studentName, programName := programName, grade := grade, creditPoints := creditPoints,
        creationTimestamp := blockTimestamp, expirationTimestamp := expirationTimestamp);
      Mint(l, l.nftTokenId, tokenName, Certificate(attributes), roleGranted)
  }

  /** register_user: mints one user unit and transfers it to `user`. */
  function RegisterUser(
    l: Ledger, caller: Address, value: CallValue, name: string, user: Address,
    blockTimestamp: u64, roleGranted: bool, accepted: bool): (r: Result<(Ledger, nat)>)
    ensures r.Ok? <==> !IsPaid(value) && caller == l.owner && l.nftTokenId != "" && roleGranted && accepted
    ensures !IsPaid(value) && caller == l.owner && l.nftTokenId == "" ==>
      r == Err(MintRejected(NoTokenIdentifier))
    ensures r.Ok? ==>
      var (l', nonce) := r.value;
      && nonce == NextNonce(l, l.nftTokenId)
      && l'.lastNonce == l.lastNonce[l.nftTokenId := nonce]
      && l'.minted == l.minted + [NftUnit(l.nftTokenId, nonce, NFT_AMOUNT, name, 0, H0,
           User(UserAttributes(blockTimestamp)), [])]
      && l'.transfers == l.transfers + [Transfer(user, Esdt(l.nftTokenId), nonce, 1)]
      && l'.(lastNonce := l.lastNonce, minted := l.minted, transfers := l.transfers) == l
  {
    match OwnerGuard(l, caller, value)
    case Some(e) => Err(e)
    case None =>
      match Mint(l, l.nftTokenId, name, User(UserAttributes(creationTimestamp := blockTimestamp)), roleGranted)
      case Err(e) => Err(e)
      case Ok((minted, nonce)) =>
        if !accepted then Err(TransferFailed)
        else Ok((minted.(transfers := minted.transfers + [Transfer(user, Esdt(minted.nftTokenId), nonce, 1)]), nonce))
  }

  /** deposit_rewards: payable with anything, owner-only. */
  function DepositRewards(l: Ledger, caller: Address, value: CallValue): (r: Result<Ledger>)
    ensures r.Ok? <==> caller == l.owner && |value.esdt| == 1 && value.esdt[0].token == l.eduToken
    ensures caller == l.owner && |value.esdt| == 1 && value.esdt[0].token != l.eduToken ==>
      r == Err(WrongToken)
    ensures r.Ok? ==> r.value == l.(availableRewards := l.availableRewards + value.esdt[0].amount)
  {
    if caller != l.owner then Err(Unauthorized)
    else match SingleEsdt(value)
      case None => Err(IncorrectEsdtCount)
      case Some(received) =>
        if received.token != l.eduToken then Err(WrongToken)
        else Ok(l.(availableRewards := l.availableRewards + received.amount))
  }

  /** set_rewards_token_identifier; `isValid` stands for the platform's
      is_valid_esdt_identifier. */
  function SetRewardsTokenIdentifier(
    l: Ledger, isValid: TokenIdentifier -> bool, caller: Address, value: CallValue, id: TokenIdentifier)
    : (r: Result<Ledger>)
    ensures r.Ok? <==> !IsPaid(value) && caller == l.owner && isValid(id)
    ensures !IsPaid(value) && caller == l.owner && !isValid(id) ==> r == Err(InvalidTokenIdentifier)
    ensures r.Ok? ==> r.value == l.(eduToken := id)
  {
    match OwnerGuard(l, caller, value)
    case Some(e) => Err(e)
    case None =>
      if !isValid(id) then Err(InvalidTokenIdentifier)
      else Ok(l.(eduToken := id))
  }

  /** issue_token: anyone, payable in EGLD only; sends the issue request and
      leaves storage alone. The only guard is the empty nftTokenId: no
      pending flag is kept. */
  function IssueToken(l: Ledger, caller: Address, value: CallValue, name: string, ticker: string)
    : (r: Result<Ledger>)
    ensures r.Ok? <==> value.esdt == [] && l.nftTokenId == ""
    ensures value.esdt == [] && l.nftTokenId != "" ==> r == Err(AlreadyIssued)
    ensures r.Ok? ==>
      r.value == l.(pending := l.pending + [IssueRequest(caller, value.egld, name, ticker, ISSUE_PROPERTIES)])
  {
    if value.esdt != [] then Err(EsdtNotAccepted)
    else if l.nftTokenId != "" then Err(AlreadyIssued)
    else
      var request := IssueRequest(
        issuer := caller, payment := value.egld, name := name, ticker := ticker, properties := ISSUE_PROPERTIES);
      Ok(l.(pending := l.pending + [request]))
  }

  /** Whether issue_callback sends a refund: the returned value is EGLD and positive. */
  predicate RefundDue(returned: CallValue)
    ensures RefundDue(returned) <==>
      && EgldOrSingleEsdt(returned).Some?
      && EgldOrSingleEsdt(returned).value.token.Egld?
      && EgldOrSingleEsdt(returned).value.amount > 0
  {
    returned.esdt == [] && returned.egld > 0
  }

  /** issue_callback, on the ledger whose pending request has already been
      taken out. `caller` is the account the platform reports as the caller
      of the callback; `returned` is the value that comes back with it. */
  function IssueCallback(l: Ledger, caller: Address, result: AsyncResult, returned: CallValue)
    : (r: Result<Ledger>)
    ensures r.Err? <==> result == AsyncOk(Egld) || (result.AsyncErr? && |returned.esdt| > 1)
    ensures result.AsyncOk? && result.token.Esdt? ==> r == Ok(l.(nftTokenId := result.token.id))
    ensures result.AsyncErr? && r.Ok? ==>
      && r.value.(transfers := l.transfers) == l
      && r.value.transfers == l.transfers + (if RefundDue(returned) then [Transfer(caller, Egld, 0, returned.egld)] else [])
  {
    match result
    case AsyncOk(token) =>
      if token.Egld? then Err(EgldTokenIdentifier)
      else Ok(l.(nftTokenId := token.id))
    case AsyncErr =>
      match EgldOrSingleEsdt(returned)
      case None => Err(IncorrectEsdtCount)
      case Some(payment) =>
        if payment.token.Egld? && payment.amount > 0 then
          Ok(l.(transfers := l.transfers + [Transfer(caller, Egld, 0, payment.amount)]))
        else Ok(l)
  }

  /** set_local_roles: owner-only; asks for NftCreate on nftTokenId for the
      contract's own address and changes no storage. */
  function SetLocalRoles(l: Ledger, caller: Address, value: CallValue): (r: Result<Ledger>)
    ensures r.Ok? <==> !IsPaid(value) && caller == l.owner && l.nftTokenId != ""
    ensures !IsPaid(value) && caller == l.owner && l.nftTokenId == "" ==> r == Err(TokenNotIssued)
    ensures r.Ok? ==>
      r.value == l.(roleRequests := l.roleRequests + [RoleRequest(l.selfAddress, l.nftTokenId, [NftCreate])])
  {
    match OwnerGuard(l, caller, value)
    case Some(e) => Err(e)
    case None =>
      match RequireTokenIssued(l)
      case Some(e) => Err(e)
      case None => Ok(l.(roleRequests := l.roleRequests + [RoleRequest(l.selfAddress, l.nftTokenId, [NftCreate])]))
  }

  /** The pending issue requests once the one at `i` has been answered. */
  function RemoveAt<T>(s: seq<T>, i: nat): (r: seq<T>)
    requires i < |s|
    ensures |r| == |s| - 1
    ensures forall k :: 0 <= k < i ==> r[k] == s[k]
    ensures forall k :: i <= k < |r| ==> r[k] == s[k + 1]
  {
    s[..i] + s[i + 1..]
  }
}
