/** Sequences of calls against one ledger, processed one at a time as the
    platform serialises them, and the properties every such sequence keeps:
    rewards never decrease and only the owner moves them, an issued
    collection stays issued so issue_token keeps failing, nonces are never
    reused, and two issue_token calls may both pass before any callback. */
module Traces {
  import opened Esdt
  import opened EduChainSpec

  /** One call of an endpoint, or the delivery of the callback for the
      outstanding issue request at `index`. The trailing booleans of the
      minting calls are the platform's answers: whether the contract holds
      NftCreate on the token, and whether the receiver accepts the unit. */
  datatype Event =
    | IssueCertificateCall(caller: Address, value: CallValue, tokenName: string, studentName: string,
                           programName: string, grade: u16, creditPoints: u16,
                           expirationTimestamp: u64, blockTimestamp: u64, roleGranted: bool)
    | RegisterUserCall(caller: Address, value: CallValue, name: string, user: Address,
                       blockTimestamp: u64, roleGranted: bool, accepted: bool)
    | DepositRewardsCall(caller: Address, value: CallValue)
    | SetRewardsTokenIdentifierCall(caller: Address, value: CallValue, id: TokenIdentifier)
    | IssueTokenCall(caller: Address, value: CallValue, name: string, ticker: string)
    | IssueCallbackDelivery(index: nat, caller: Address, result: AsyncResult, returned: CallValue)
    | SetLocalRolesCall(caller: Address, value: CallValue)

  /** The ledger when the call's outcome is committed, the old one when it aborts. */
  function Commit(l: Ledger, r: Result<Ledger>): Ledger {
    if r.Ok? then r.value else l
  }

  /** The ledger after one event. A callback for a request that is not
      outstanding is never delivered, so it changes nothing. */
  function Apply(isValid: TokenIdentifier -> bool, l: Ledger, e: Event): (r: Ledger)
    ensures r.owner == l.owner && r.selfAddress == l.selfAddress
    ensures r.availableRewards >= l.availableRewards
    ensures r.availableRewards != l.availableRewards ==> e.DepositRewardsCall? && e.caller == l.owner
    ensures r.eduToken != l.eduToken ==> e.SetRewardsTokenIdentifierCall? && e.caller == l.owner
    ensures r.nftTokenId != l.nftTokenId ==> e.IssueCallbackDelivery? && e.result.AsyncOk?
  {
    match e
    case IssueCertificateCall(c, v, tn, sn, pn, g, cp, exp, ts, role) =>
      var out := IssueCertificate(l, c, v, tn, sn, pn, g, cp, exp, ts, role);
      if out.Ok? then out.value.0 else l
    case RegisterUserCall(c, v, n, u, ts, role, acc) =>
      var out := RegisterUser(l, c, v, n, u, ts, role, acc);
      if out.Ok? then out.value.0 else l
    case DepositRewardsCall(c, v) => Commit(l, DepositRewards(l, c, v))
    case SetRewardsTokenIdentifierCall(c, v, id) => Commit(l, SetRewardsTokenIdentifier(l, isValid, c, v, id))
    case IssueTokenCall(c, v, n, t) => Commit(l, IssueToken(l, c, v, n, t))
    case IssueCallbackDelivery(i, c, res, ret) =>
      if i < |l.pending| then
        var answered := l.(pending := RemoveAt(l.pending, i));
        Commit(answered, IssueCallback(answered, c, res, ret))
      else l
    case SetLocalRolesCall(c, v) => Commit(l, SetLocalRoles(l, c, v))
  }

  /** The ledger after the events in order. */
  function Run(isValid: TokenIdentifier -> bool, l: Ledger, events: seq<Event>): Ledger
    decreases |events|
  {
    if events == [] then l else Run(isValid, Apply(isValid, l, events[0]), events[1..])
  }

  /** No endpoint subtracts from availableRewards. */
  lemma {:induction false} RewardsNeverDecrease(isValid: TokenIdentifier -> bool, l: Ledger, events: seq<Event>)
    ensures Run(isValid, l, events).availableRewards >= l.availableRewards
    ensures Run(isValid, l, events).owner == l.owner
    decreases |events|
  {
    if events != [] {
      RewardsNeverDecrease(isValid, Apply(isValid, l, events[0]), events[1..]);
    }
  }

  /** Calls that do not come from the owner leave availableRewards and
      eduToken exactly as they were. */
  lemma {:induction false} OnlyOwnerMovesRewards(isValid: TokenIdentifier -> bool, l: Ledger, events: seq<Event>)
    requires forall k :: 0 <= k < |events| ==> events[k].caller != l.owner
    ensures Run(isValid, l, events).availableRewards == l.availableRewards
    ensures Run(isValid, l, events).eduToken == l.eduToken
    decreases |events|
  {
    if events != [] {
      var next := Apply(isValid, l, events[0]);
      assert events[0].caller != l.owner;
      OnlyOwnerMovesRewards(isValid, next, events[1..]);
    }
  }

  /** The one event that can empty nftTokenId again: an Ok callback that
      carries the empty identifier. */
  predicate ClearsTokenId(e: Event) {
    e.IssueCallbackDelivery? && e.result == AsyncOk(Esdt(""))
  }

  /** Once nftTokenId is set it stays set. */
  lemma {:induction false} IssuedStaysIssued(isValid: TokenIdentifier -> bool, l: Ledger, events: seq<Event>)
    requires l.nftTokenId != ""
    requires forall k :: 0 <= k < |events| ==> !ClearsTokenId(events[k])
    ensures Run(isValid, l, events).nftTokenId != ""
    decreases |events|
  {
    if events != [] {
      var next := Apply(isValid, l, events[0]);
      assert !ClearsTokenId(events[0]);
      assert next.nftTokenId != "";
      IssuedStaysIssued(isValid, next, events[1..]);
    }
  }

  /** After an Ok callback with a non-empty identifier has landed, every later
      issue_token that carries no ESDT is rejected with "Token already
      issued", whatever happened in between. */
  lemma IssueRejectedAfterOk(
    isValid: TokenIdentifier -> bool, l: Ledger, i: nat, ackCaller: Address, id: TokenIdentifier,
    returned: CallValue, between: seq<Event>, caller: Address, value: CallValue, name: string, ticker: string)
    requires i < |l.pending| && id != ""
    requires forall k :: 0 <= k < |between| ==> !ClearsTokenId(between[k])
    requires value.esdt == []
    ensures var issued := Apply(isValid, l, IssueCallbackDelivery(i, ackCaller, AsyncOk(Esdt(id)), returned));
            IssueToken(Run(isValid, issued, between), caller, value, name, ticker) == Err(AlreadyIssued)
  {
    var issued := Apply(isValid, l, IssueCallbackDelivery(i, ackCaller, AsyncOk(Esdt(id)), returned));
    IssuedStaysIssued(isValid, issued, between);
  }

  /** Every minted unit has a nonce the platform has handed out for its
      token, and units of one token appear in strictly increasing nonce
      order, so no two share a nonce. */
  ghost predicate NoncesConsistent(l: Ledger) {
    && (forall k :: 0 <= k < |l.minted| ==>
          l.minted[k].token in l.lastNonce && 0 < l.minted[k].nonce <= l.lastNonce[l.minted[k].token])
    && (forall j, k :: 0 <= j < k < |l.minted| && l.minted[j].token == l.minted[k].token ==>
          l.minted[j].nonce < l.minted[k].nonce)
  }

  /** A mint keeps the nonces consistent. */
  lemma MintKeepsNonces(l: Ledger, token: TokenIdentifier, name: string, attributes: Attributes, roleGranted: bool)
    requires NoncesConsistent(l)
    ensures var r := Mint(l, token, name, attributes, roleGranted);
            r.Ok? ==> NoncesConsistent(r.value.0) && r.value.1 == r.value.0.lastNonce[token]
  {
  }

  /** One event keeps the nonces consistent. */
  lemma ApplyKeepsNonces(isValid: TokenIdentifier -> bool, l: Ledger, e: Event)
    requires NoncesConsistent(l)
    ensures NoncesConsistent(Apply(isValid, l, e))
  {
  }

  /** Any sequence of events keeps the nonces consistent. */
  lemma {:induction false} RunKeepsNonces(isValid: TokenIdentifier -> bool, l: Ledger, events: seq<Event>)
    requires NoncesConsistent(l)
    ensures NoncesConsistent(Run(isValid, l, events))
    decreases |events|
  {
    if events != [] {
      ApplyKeepsNonces(isValid, l, events[0]);
      RunKeepsNonces(isValid, Apply(isValid, l, events[0]), events[1..]);
    }
  }

  /** From deployment on, no two units of one token ever share a nonce. */
  lemma NoncesNeverReused(isValid: TokenIdentifier -> bool, owner: Address, selfAddress: Address,
                          events: seq<Event>, j: nat, k: nat)
    requires var l := Run(isValid, Deployed(owner, selfAddress), events);
             j < k < |l.minted| && l.minted[j].token == l.minted[k].token
    ensures var l := Run(isValid, Deployed(owner, selfAddress), events);
            l.minted[j].nonce < l.minted[k].nonce
  {
    RunKeepsNonces(isValid, Deployed(owner, selfAddress), events);
  }

  /** Two successful mints in a row under the same nftTokenId return
      consecutive nonces. */
  lemma SuccessiveCertificatesIncrease(
    l: Ledger, caller: Address, value: CallValue, tokenName: string, studentName: string, programName: string,
    grade: u16, creditPoints: u16, expirationTimestamp: u64, blockTimestamp: u64,
    studentName2: string, grade2: u16, creditPoints2: u16, expirationTimestamp2: u64, blockTimestamp2: u64)
    requires IssueCertificate(l, caller, value, tokenName, studentName, programName, grade, creditPoints,
                              expirationTimestamp, blockTimestamp, true).Ok?
    ensures var (l1, n1) := IssueCertificate(l, caller, value, tokenName, studentName, programName, grade,
                                             creditPoints, expirationTimestamp, blockTimestamp, true).value;
            var second := IssueCertificate(l1, caller, value, tokenName, studentName2, programName, grade2,
                                           creditPoints2, expirationTimestamp2, blockTimestamp2, true);
            second.Ok? && second.value.1 == n1 + 1
  {
  }

  /** Two successful deposits add both amounts to availableRewards. */
  lemma TwoDepositsAdd(l: Ledger, v1: CallValue, v2: CallValue)
    requires |v1.esdt| == 1 && v1.esdt[0].token == l.eduToken
    requires |v2.esdt| == 1 && v2.esdt[0].token == l.eduToken
    ensures var first := DepositRewards(l, l.owner, v1);
            first.Ok? && DepositRewards(first.value, l.owner, v2).Ok?
            && DepositRewards(first.value, l.owner, v2).value.availableRewards
               == l.availableRewards + v1.esdt[0].amount + v2.esdt[0].amount
  {
  }

  /** With no pending flag, a second issue_token before any callback passes
      the same guard: two requests end up outstanding. */
  lemma DoubleIssueRace(l: Ledger, c1: Address, v1: CallValue, c2: Address, v2: CallValue,
                        name: string, ticker: string)
    requires l.nftTokenId == "" && v1.esdt == [] && v2.esdt == []
    ensures var first := IssueToken(l, c1, v1, name, ticker);
            first.Ok? && IssueToken(first.value, c2, v2, name, ticker).Ok?
            && IssueToken(first.value, c2, v2, name, ticker).value.pending
               == l.pending + [IssueRequest(c1, v1.egld, name, ticker, ISSUE_PROPERTIES),
                               IssueRequest(c2, v2.egld, name, ticker, ISSUE_PROPERTIES)]
  {
  }

  /** issue_callback does not check that nftTokenId is empty: the second of
      two Ok answers overwrites the first. */
  lemma SecondOkOverwrites(l: Ledger, c: Address, id1: TokenIdentifier, id2: TokenIdentifier, ret: CallValue)
    ensures var first := IssueCallback(l, c, AsyncOk(Esdt(id1)), ret);
            first.Ok? && IssueCallback(first.value, c, AsyncOk(Esdt(id2)), ret) == Ok(l.(nftTokenId := id2))
  {
  }
}
