/** Values of the MultiversX platform that the EduChain contract handles:
    token identifiers, attached call value, minted NFT units, outgoing
    transfers and the asynchronous requests sent to the ESDT system
    contract. The platform's own behaviour is not modelled here, only the
    shape of what the contract sends and receives. */
module Esdt {

  type byte = x: int | 0 <= x < 0x100
  type u16 = x: int | 0 <= x < 0x1_0000
  type u64 = x: int | 0 <= x < 0x1_0000_0000_0000_0000

  type Address = seq<byte>

  /** A token identifier as stored by the contract; the empty string is the
      value an unset storage entry reads as. */
  type TokenIdentifier = string

  datatype Option<T> = None | Some(value: T)

  /** EgldOrEsdtTokenIdentifier: the native currency or an ESDT token. */
  datatype TokenRef = Egld | Esdt(id: TokenIdentifier)

  /** One ESDT transfer attached to a call. */
  datatype EsdtTransfer = EsdtTransfer(token: TokenIdentifier, nonce: nat, amount: nat)

  /** Everything attached to one call: an EGLD amount and a list of ESDT transfers. */
  datatype CallValue = CallValue(egld: nat, esdt: seq<EsdtTransfer>)

  /** EgldOrEsdtTokenPayment. */
  datatype Payment = Payment(token: TokenRef, nonce: nat, amount: nat)

  const NoValue: CallValue := CallValue(0, [])

  /** Something is attached to the call (rejected by endpoints without #[payable]). */
  predicate IsPaid(v: CallValue) {
    v.egld > 0 || v.esdt != []
  }

  /** call_value().single_esdt(): the call must carry exactly one ESDT transfer. */
  function SingleEsdt(v: CallValue): (r: Option<EsdtTransfer>)
    ensures r.Some? <==> |v.esdt| == 1
    ensures r.Some? ==> r.value == v.esdt[0]
  {
    if |v.esdt| == 1 then Some(v.esdt[0]) else None
  }

  /** call_value().egld_or_single_esdt(): the EGLD value when no ESDT is
      attached, the ESDT when exactly one is, and a failure otherwise. */
  function EgldOrSingleEsdt(v: CallValue): (r: Option<Payment>)
    ensures r.None? <==> |v.esdt| > 1
    ensures v.esdt == [] ==> r == Some(Payment(Egld, 0, v.egld))
    ensures |v.esdt| == 1 ==>
      r == Some(Payment(Esdt(v.esdt[0].token), v.esdt[0].nonce, v.esdt[0].amount))
  {
    if |v.esdt| == 0 then Some(Payment(Egld, 0, v.egld))
    else if |v.esdt| == 1 then Some(Payment(Esdt(v.esdt[0].token), v.esdt[0].nonce, v.esdt[0].amount))
    else None
  }

  datatype CertificateAttributes = CertificateAttributes(
    name: string,
    programName: string,
    grade: u16,
    creditPoints: u16,
    creationTimestamp: u64,
    expirationTimestamp: u64)

  datatype UserAttributes = UserAttributes(creationTimestamp: u64)

  /** The attribute record a minted unit carries. */
  datatype Attributes = Certificate(cert: CertificateAttributes) | User(user: UserAttributes)

  /** One unit created by esdt_nft_create. */
  datatype NftUnit = NftUnit(
    token: TokenIdentifier,
    nonce: nat,
    amount: nat,
    name: string,
    royalties: nat,
    hash: seq<byte>,
    attributes: Attributes,
    uris: seq<string>)

  /** One outgoing transfer sent by the contract. */
  datatype Transfer = Transfer(to: Address, token: TokenRef, nonce: nat, amount: nat)

  /** NonFungibleTokenProperties of an issue request. */
  datatype NftProperties = NftProperties(
    canFreeze: bool,
    canWipe: bool,
    canPause: bool,
    canTransferCreateRole: bool,
    canChangeOwner: bool,
    canUpgrade: bool,
    canAddSpecialRoles: bool)

  /** An issue_non_fungible request to the ESDT system contract, still
      waiting for its callback. */
  datatype IssueRequest = IssueRequest(
    issuer: Address,
    payment: nat,
    name: string,
    ticker: string,
    properties: NftProperties)

  datatype LocalRole = NftCreate

  /** A set_special_roles request to the ESDT system contract (no callback). */
  datatype RoleRequest = RoleRequest(account: Address, token: TokenIdentifier, roles: seq<LocalRole>)

  /** ManagedAsyncCallResult of the issue request, as the callback receives it. */
  datatype AsyncResult = AsyncOk(token: TokenRef) | AsyncErr
}
