# EduChain ledger contract in Dafny

EduChain is a MultiversX smart contract that mints certificate and user
records as NFT units, holds a running total of deposited reward tokens, and
obtains its own NFT collection through an asynchronous request to the ESDT
system contract. It owns three storage entries: `nftTokenId` (empty until
the collection is issued), `eduToken` (the accepted reward token) and
`availableRewards` (a non-negative big integer).

The model has four files:

- `esdt.dfy` (module `Esdt`) holds the platform values the contract handles. These are token identifiers, the value attached to a call, minted units, transfers, and issue and role requests. It also has the two call-value readers `single_esdt` and `egld_or_single_esdt`.
- `ledger.dfy` (module `EduChainSpec`) holds the `Ledger` value: the storage entries, the owner, and the platform records the endpoints extend. It has one pure function per endpoint. Each one gives the error a call aborts with, or the new ledger. Its contract states when the call succeeds (both directions), which error a named guard raises, and the exact new state.
- `edu_chain.dfy` (module `EduChainContract`) holds the class `EduChain`. Its fields are updated in place by one method per endpoint. Each method's contract says it ends in exactly the outcome of the matching `EduChainSpec` function, and that an abort leaves every field as it was, except that a callback always removes the request it answers. A client method plays the deploy → `issueToken` → callback → two certificates scenario, which returns nonces 1 and 2.
- `traces.dfy` (module `Traces`) runs sequences of calls and callbacks on one ledger and proves what every such sequence keeps.

Modelling choices:

- The platform's foreign pieces are inputs. `is_valid_esdt_identifier` is an uninterpreted `TokenIdentifier -> bool`. The block timestamp is a parameter. Whether the contract holds the NftCreate role, and whether a user accepts a transferred unit, are boolean parameters. The caller of a call or callback, and the value that comes back with a callback, are parameters too.
- Nonce assignment is a per-token last-nonce map: the next unit gets the last nonce plus one.
- The attribute digest is hashed over a freshly created, empty buffer. So every unit carries the same constant `H0`, the SHA-256 digest of the empty message. This is kept exactly as written, not replaced by a hash of the real attributes.
- An asynchronous `issue_token` request is a record in `pending`. A callback answers one pending record and removes it, even when the callback itself aborts.
- The framework runs some checks before the endpoint body, and the model includes them:
  - an endpoint without `#[payable]` rejects any attached value before the owner check;
  - `#[payable("EGLD")]` rejects ESDT transfers;
  - `single_esdt` requires exactly one ESDT transfer;
  - `unwrap_esdt` aborts on the EGLD identifier.

In these points the code is less strict than an ESDT contract usually is; the model follows the code:

- `issue_token` does not check that the EGLD payment is non-zero.
- `issue_callback` sets `nftTokenId` on every `Ok`, without an emptiness check. So a second `Ok` overwrites the first, and the identifier is not write-once.
- The failure refund goes to the caller of the callback (`ToCaller`). The model does not identify that account with the account that issued the request.
- `issue_certificate` and `register_user` do not call `require_token_issued`. An empty identifier makes the mint itself fail (`MintRejected(NoTokenIdentifier)`).
- No pending flag is stored. Two `issue_token` calls before any callback both pass the guard (`Traces.DoubleIssueRace`).

## Model

| member | source | states |
|---|---|---|
| `Esdt.SingleEsdt` | src/edu_chain.rs:110 | yields a transfer exactly when the call carries one ESDT transfer, and then it is that transfer |
| `Esdt.EgldOrSingleEsdt` | src/edu_chain.rs:143 | fails exactly when more than one ESDT transfer is attached; with none it is the EGLD value, with one it is that ESDT transfer |
| `EduChainSpec.OwnerGuard` | src/edu_chain.rs:35-36 | the framework checks of a non-payable owner-only endpoint: passes iff no value is attached and the caller is the owner; attached value gives NotPayable first, then a foreign caller gives Unauthorized |
| `EduChainSpec.Mint` | src/edu_chain.rs:62-70 | succeeds iff the identifier is non-empty and the NftCreate role is granted; the empty identifier fails inside the mint; on success the nonce is the token's next nonce, exactly one unit (NFT_AMOUNT, zero royalties, H0, no URIs) is appended, and nothing else changes |
| `EduChainSpec.RefundDue` | src/edu_chain.rs:143-144 | a refund is due iff the returned value read by egld_or_single_esdt is EGLD and greater than 0 |
| `EduChainSpec.RequireTokenIssued` | src/edu_chain.rs:195-197 | passes exactly when nftTokenId is non-empty, else fails with "Token not issued" |
| `EduChainSpec.IssueCertificate` | src/edu_chain.rs:35-72 | succeeds iff no value is attached, the caller is the owner, nftTokenId is non-empty and the platform grants NftCreate; with the owner and an empty identifier it fails inside the mint; on success it returns the next nonce of nftTokenId and appends exactly one unit (amount NFT_AMOUNT = 1, zero royalties, hash H0, no URIs, attributes copied from the arguments with the block timestamp as creation time), and nothing else changes |
| `EduChainSpec.RegisterUser` | src/edu_chain.rs:74-104 | succeeds iff no value, owner, non-empty nftTokenId, NftCreate granted and the receiver accepts; on success it mints one unit with user attributes and hash H0, transfers amount 1 of that same nonce to `user`, returns that nonce, and changes nothing else; any failure keeps the mint from happening |
| `EduChainSpec.DepositRewards` | src/edu_chain.rs:106-119 | succeeds iff the owner calls with exactly one ESDT transfer whose token equals eduToken; a mismatched token is "Deposited token not correct"; on success availableRewards grows by exactly the amount and every other field is unchanged |
| `EduChainSpec.SetRewardsTokenIdentifier` | src/edu_chain.rs:121-129 | succeeds iff no value, owner, and the identifier is valid; an invalid one aborts with "Provided Token ID not valid!"; on success eduToken becomes exactly the argument, whatever it was, and nothing else changes |
| `EduChainSpec.IssueToken` | src/edu_chain.rs:151-177 | any caller; succeeds iff no ESDT is attached and nftTokenId is empty, fails with "Token already issued" when it is set; on success storage is untouched and one issue request (caller, attached EGLD, name, ticker, fixed properties) is added to the outstanding requests |
| `EduChainSpec.IssueCallback` | src/edu_chain.rs:133-149 | aborts exactly on an Ok carrying EGLD or an Err whose returned value has several ESDT transfers; an Ok with an ESDT identifier sets nftTokenId to it unconditionally; an Err leaves storage unchanged and appends an EGLD refund of exactly the returned amount to the callback's caller iff the returned value is EGLD and positive |
| `EduChainSpec.SetLocalRoles` | src/edu_chain.rs:179-197 | succeeds iff no value, owner, and nftTokenId non-empty (else "Token not issued"); on success storage is untouched and one NftCreate role request for nftTokenId and the contract's own address is added |
| `EduChainContract.EduChain.constructor` | src/edu_chain.rs:29-33 | deployment: the owner and address are recorded, every storage entry is empty and no platform record exists |
| `EduChainContract.EduChain.CreateNft` | src/edu_chain.rs:62-70 | the in-place mint ends exactly as `EduChainSpec.Mint` from the old state, and an abort changes no field |
| `EduChainContract.EduChain.IssueCertificate` | src/edu_chain.rs:35-72 | the in-place endpoint returns and stores exactly what `EduChainSpec.IssueCertificate` gives; an abort changes no field |
| `EduChainContract.EduChain.RegisterUser` | src/edu_chain.rs:74-104 | as `EduChainSpec.RegisterUser`; a refused transfer undoes the mint already done |
| `EduChainContract.EduChain.DepositRewards` | src/edu_chain.rs:106-119 | as `EduChainSpec.DepositRewards`; availableRewards is updated in place by addition |
| `EduChainContract.EduChain.SetRewardsTokenIdentifier` | src/edu_chain.rs:121-129 | as `EduChainSpec.SetRewardsTokenIdentifier`, with the object's validity oracle |
| `EduChainContract.EduChain.IssueToken` | src/edu_chain.rs:151-177 | as `EduChainSpec.IssueToken`: only the outstanding-request list grows |
| `EduChainContract.EduChain.IssueCallback` | src/edu_chain.rs:133-149 | the answered request leaves the outstanding list in every case; the rest is as `EduChainSpec.IssueCallback` |
| `EduChainContract.EduChain.SetLocalRoles` | src/edu_chain.rs:179-192 | as `EduChainSpec.SetLocalRoles`: only the role-request list grows |
| `EduChainContract.IssueThenCertifyTwice` | src/edu_chain.rs:35-177 | deploy, issue, an Ok callback with "EDU-abcdef", then two certificates by the owner: they return nonces 1 and 2 |
| `Traces.Apply` | src/edu_chain.rs:35-197 | one call keeps the owner; availableRewards never drops and changes only by an owner deposit; eduToken changes only by an owner call to set_rewards_token_identifier; nftTokenId changes only by an Ok callback |
| `Traces.RewardsNeverDecrease` | src/edu_chain.rs:116-118 | after any sequence of calls and callbacks, availableRewards is at least what it was |
| `Traces.OnlyOwnerMovesRewards` | src/edu_chain.rs:106-129 | a sequence of calls none of which comes from the owner leaves availableRewards and eduToken as they were |
| `Traces.IssuedStaysIssued` | src/edu_chain.rs:138-141 | once nftTokenId is non-empty it stays non-empty, unless an Ok callback delivers the empty identifier |
| `Traces.IssueRejectedAfterOk` | src/edu_chain.rs:138-156 | after an Ok callback with a non-empty identifier, issue_token called later without ESDT, after any events in between, fails with "Token already issued" |
| `Traces.MintKeepsNonces` | src/edu_chain.rs:62-70 | a mint keeps every unit's nonce among the nonces handed out for its token, and units of one token in strictly increasing nonce order |
| `Traces.ApplyKeepsNonces` | src/edu_chain.rs:62-96 | every call and callback keeps that nonce invariant |
| `Traces.RunKeepsNonces` | src/edu_chain.rs:62-96 | every sequence of calls keeps the nonce invariant |
| `Traces.NoncesNeverReused` | src/edu_chain.rs:62-96 | from deployment on, two units of one token never share a nonce, and the later one has the larger nonce |
| `Traces.SuccessiveCertificatesIncrease` | src/edu_chain.rs:62-71 | two successful certificates in a row get consecutive nonces |
| `Traces.TwoDepositsAdd` | src/edu_chain.rs:116-118 | two matching deposits leave availableRewards equal to the old value plus both amounts |
| `Traces.DoubleIssueRace` | src/edu_chain.rs:153-177 | with nftTokenId empty, two issue_token calls in a row both succeed and leave both requests outstanding |
| `Traces.SecondOkOverwrites` | src/edu_chain.rs:138-141 | two Ok callbacks in a row leave nftTokenId at the second identifier |

## Left out

- The command-line interactor (`interactor/src/interact.rs`) is not part of this model. It handles argument parsing, wallet loading, `state.toml` persistence and network calls.
- The scenario test (`tests/edu_chain_scenario_rs_test.rs`) is not modelled. It only runs the JSON scenario `scenarios/edu_chain.scen.json`; the Rust file has no assertions.
- `init` and `upgrade` have empty bodies. The constructor stands for deployment.
- SHA-256 is not implemented. The only input it is ever given is the empty buffer, so the model uses that one digest as a constant.
- `is_valid_esdt_identifier` is an uninterpreted predicate. Its format rules live in the multiversx-sc SDK, outside this contract.
- TopEncode/TopDecode serialisation of the attribute structs is not modelled. Attributes are kept as records.
- The platform's side of minting, issuing and role setting is not modelled. This includes role bookkeeping, the collection's creation and its fee. Only what the contract sends and receives is modelled.
- Whether the contract holds the NftCreate role is an input, not derived from earlier role requests.
- The contract's EGLD balance and the escrowed issue fee are not tracked. Only the refund transfer is recorded.
- The error code and message of a failed issue request are dropped: `issue_callback` ignores them.
- Nonces are unbounded naturals. A u64 overflow of the platform's nonce counter is not modelled.
- Real concurrency, timeouts and callbacks that never fire are not modelled. Calls are a sequential interleaving. An unanswered request simply stays in `pending` forever.
- The account that receives the failure refund is whatever the platform reports as the callback's caller. It is not tied to the request's issuer.
