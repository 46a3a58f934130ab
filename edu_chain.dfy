/** The EduChain contract as the object the platform keeps: three storage
    entries updated in place by the endpoints, plus the platform records
    those endpoints extend. Each endpoint is a method that either aborts,
    leaving every field as it was, or performs its update; its contract ties
    the outcome and the new state to the matching function of EduChainSpec.
    The callback is the one exception to "an abort changes nothing": the
    request it answers leaves the pending list even when it aborts, because
    the platform delivers each callback once. */
module EduChainContract {
  import opened Esdt
  import S = EduChainSpec

  /** `r` and `after` are what a call with specified outcome `spec` must
      produce from `before`: the return value and new state on success, the
      error and the untouched state on an abort. */
  predicate CommittedWith<T(==)>(spec: S.Result<(S.Ledger, T)>, r: S.Result<T>, before: S.Ledger, after: S.Ledger) {
    match spec
    case Ok((l, x)) => r == S.Ok(x) && after == l
    case Err(e) => r == S.Err(e) && after == before
  }

  /** CommittedWith for an endpoint that returns nothing. */
  predicate Committed(spec: S.Result<S.Ledger>, r: S.Result<()>, before: S.Ledger, after: S.Ledger) {
    match spec
    case Ok(l) => r == S.Ok(()) && after == l
    case Err(e) => r == S.Err(e) && after == before
  }

  class EduChain {
    const owner: Address
    const selfAddress: Address
    /** The platform's is_valid_esdt_identifier. */
    const isValidEsdtIdentifier: TokenIdentifier -> bool

    // storage mappers
    var nftTokenId: TokenIdentifier
    var eduToken: TokenIdentifier
    var availableRewards: nat

    // platform records the endpoints extend
    var lastNonce: map<TokenIdentifier, nat>
    var minted: seq<NftUnit>
    var transfers: seq<Transfer>
    var pending: seq<IssueRequest>
    var roleRequests: seq<RoleRequest>

    /** The object's state as a ledger value. */
    function State(): S.Ledger
      reads this
    {
      S.Ledger(owner, selfAddress, nftTokenId, eduToken, availableRewards,
               lastNonce, minted, transfers, pending, roleRequests)
    }

    /** Deployment; init and upgrade store nothing. */
    constructor (owner: Address, selfAddress: Address, isValidEsdtIdentifier: TokenIdentifier -> bool)
      ensures State() == S.Deployed(owner, selfAddress)
      ensures this.isValidEsdtIdentifier == isValidEsdtIdentifier
    {
      this.owner := owner;
      this.selfAddress := selfAddress;
      this.isValidEsdtIdentifier := isValidEsdtIdentifier;
      nftTokenId, eduToken, availableRewards := "", "", 0;
      lastNonce, minted, transfers, pending, roleRequests := map[], [], [], [], [];
    }

    /** esdt_nft_create: the platform mints NFT_AMOUNT units of `token` for
        the contract and hands back their nonce. */
    method CreateNft(token: TokenIdentifier, name: string, attributes: Attributes, roleGranted: bool)
      returns (r: S.Result<nat>)
      modifies this
      ensures CommittedWith(S.Mint(old(State()), token, name, attributes, roleGranted), r, old(State()), State())
    {
      if token == "" {
        return S.Err(S.MintRejected(S.NoTokenIdentifier));
      }
      if !roleGranted {
        return S.Err(S.MintRejected(S.NoCreateRole));
      }
      var nonce := (if token in lastNonce then lastNonce[token] else 0) + 1;
      lastNonce := lastNonce[token := nonce];
      minted := minted + [NftUnit(token, nonce, S.NFT_AMOUNT, name, 0, S.H0, attributes, [])];
      r := S.Ok(nonce);
    }

    /** issueCertificate. */
    method IssueCertificate(
      caller: Address, value: CallValue,
      tokenName: string, studentName: string, programName: string,
      grade: u16, creditPoints: u16, expirationTimestamp: u64,
      blockTimestamp: u64, roleGranted: bool) returns (r: S.Result<nat>)
      modifies this
      ensures CommittedWith(
        S.IssueCertificate(old(State()), caller, value, tokenName, studentName, programName,
                           grade, creditPoints, expirationTimestamp, blockTimestamp, roleGranted),
        r, old(State()), State())
    {
      if IsPaid(value) {
        return S.Err(S.NotPayable);
      }
      if caller != owner {
        return S.Err(S.Unauthorized);
      }
      var token := nftTokenId;
      var attributes := CertificateAttributes(
        name := studentName, programName := programName, grade := grade, creditPoints := creditPoints,
        creationTimestamp := blockTimestamp, expirationTimestamp := expirationTimestamp);
      r := CreateNft(token, tokenName, Certificate(attributes), roleGranted);
    }

    /** registerUser: the mint and the transfer to `user` succeed or fail together. */
    method RegisterUser(
      caller: Address, value: CallValue, name: string, user: Address,
      blockTimestamp: u64, roleGranted: bool, accepted: bool) returns (r: S.Result<nat>)
      modifies this
      ensures CommittedWith(
        S.RegisterUser(old(State()), caller, value, name, user, blockTimestamp, roleGranted, accepted),
        r, old(State()), State())
    {
      if IsPaid(value) {
        return S.Err(S.NotPayable);
      }
      if caller != owner {
        return S.Err(S.Unauthorized);
      }
      var token := nftTokenId;
      var lastNonceBefore, mintedBefore := lastNonce, minted;
      r := CreateNft(token, name, User(UserAttributes(creationTimestamp := blockTimestamp)), roleGranted);
      if r.Err? {
        return;
      }
      if !accepted {
        // the failed transfer aborts the call, and the platform undoes the mint
        lastNonce, minted := lastNonceBefore, mintedBefore;
        return S.Err(S.TransferFailed);
      }
      transfers := transfers + [Transfer(user, Esdt(token), r.value, 1)];
    }

    /** depositRewards. */
    method DepositRewards(caller: Address, value: CallValue) returns (r: S.Result<()>)
      modifies this
      ensures Committed(S.DepositRewards(old(State()), caller, value), r, old(State()), State())
    {
      if caller != owner {
        return S.Err(S.Unauthorized);
      }
      if |value.esdt| != 1 {
        return S.Err(S.IncorrectEsdtCount);
      }
      var received := value.esdt[0];
      if received.token != eduToken {
        return S.Err(S.WrongToken);
      }
      availableRewards := availableRewards + received.amount;
      r := S.Ok(());
    }

    /** setRewardsTokenIdentifier. */
    method SetRewardsTokenIdentifier(caller: Address, value: CallValue, id: TokenIdentifier)
      returns (r: S.Result<()>)
      modifies this
      ensures Committed(
        S.SetRewardsTokenIdentifier(old(State()), isValidEsdtIdentifier, caller, value, id),
        r, old(State()), State())
    {
      if IsPaid(value) {
        return S.Err(S.NotPayable);
      }
      if caller != owner {
        return S.Err(S.Unauthorized);
      }
      if !isValidEsdtIdentifier(id) {
        return S.Err(S.InvalidTokenIdentifier);
      }
      eduToken := id;
      r := S.Ok(());
    }

    /** issueToken: records the outstanding issue request and returns; the
        outcome arrives later through IssueCallback. */
    method IssueToken(caller: Address, value: CallValue, name: string, ticker: string)
      returns (r: S.Result<()>)
      modifies this
      ensures Committed(S.IssueToken(old(State()), caller, value, name, ticker), r, old(State()), State())
    {
      if value.esdt != [] {
        return S.Err(S.EsdtNotAccepted);
      }
      if nftTokenId != "" {
        return S.Err(S.AlreadyIssued);
      }
      pending := pending + [IssueRequest(caller, value.egld, name, ticker, S.ISSUE_PROPERTIES)];
      r := S.Ok(());
    }

    /** issue_callback for the outstanding request at index `i`. The platform
        delivers it once, so the request is answered even when the callback
        itself aborts. */
    method IssueCallback(i: nat, caller: Address, result: AsyncResult, returned: CallValue)
      returns (r: S.Result<()>)
      requires i < |pending|
      modifies this
      ensures pending == S.RemoveAt(old(pending), i)
      ensures var answered := old(State()).(pending := S.RemoveAt(old(pending), i));
              Committed(S.IssueCallback(answered, caller, result, returned), r, answered, State())
    {
      pending := S.RemoveAt(pending, i);
      match result
      case AsyncOk(token) =>
        if token.Egld? {
          return S.Err(S.EgldTokenIdentifier);
        }
        nftTokenId := token.id;
        r := S.Ok(());
      case AsyncErr =>
        if |returned.esdt| > 1 {
          return S.Err(S.IncorrectEsdtCount);
        }
        if returned.esdt == [] && returned.egld > 0 {
          transfers := transfers + [Transfer(caller, Egld, 0, returned.egld)];
        }
        r := S.Ok(());
    }

    /** setLocalRoles. */
    method SetLocalRoles(caller: Address, value: CallValue) returns (r: S.Result<()>)
      modifies this
      ensures Committed(S.SetLocalRoles(old(State()), caller, value), r, old(State()), State())
    {
      if IsPaid(value) {
        return S.Err(S.NotPayable);
      }
      if caller != owner {
        return S.Err(S.Unauthorized);
      }
      if nftTokenId == "" {
        return S.Err(S.TokenNotIssued);
      }
      roleRequests := roleRequests + [RoleRequest(selfAddress, nftTokenId, [NftCreate])];
      r := S.Ok(());
    }
  }

  /** Deploy, issue the collection, receive "EDU-abcdef" in the callback and
      issue two certificates: they get nonces 1 and 2. */
  method IssueThenCertifyTwice(owner: Address, selfAddress: Address, systemContract: Address,
                               isValid: TokenIdentifier -> bool, fee: nat, blockTimestamp: u64)
    returns (first: S.Result<nat>, second: S.Result<nat>)
    ensures first == S.Ok(1) && second == S.Ok(2)
  {
    var chain := new EduChain(owner, selfAddress, isValid);
    var issued := chain.IssueToken(owner, CallValue(fee, []), "EduToken", "EDU");
    assert |chain.pending| == 1;
    var answered := chain.IssueCallback(0, systemContract, AsyncOk(Esdt("EDU-abcdef")), NoValue);
    assert chain.nftTokenId == "EDU-abcdef";
    first := chain.IssueCertificate(owner, NoValue, "EduCert", "Ana", "Computer Science",
                                    10, 60, 0, blockTimestamp, true);
    assert chain.lastNonce["EDU-abcdef"] == 1;
    second := chain.IssueCertificate(owner, NoValue, "EduCert", "Dan", "Computer Science",
                                     9, 30, 0, blockTimestamp, true);
  }
}
