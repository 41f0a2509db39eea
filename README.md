# Payment matching in the solana-shop transactions provider

This project models the payment-matching engine of a browser checkout widget
for Solana. The engine is the `TransactionsProvider` React component. It
watches a deposit address and polls the network for the latest signatures
touching that address. It fetches the parsed transaction and status behind
each signature and keeps only those that are a payment to the merchant. For
each kept signature it publishes a normalised record: fee payer, signature,
amount, block time, on-chain error, commitment and confirmation count. A
`loading` flag is published beside the list. The model also covers
`shortenAddress`, the helper that abbreviates an address for display.

The modules:

- `JsBuiltins` (`jsbuiltins.dfy`): `undefined`/`null` as `Option`,
  `Array.prototype.findIndex` by equality, and `String.prototype.slice` with
  its negative and out-of-range indices.
- `BigNumbers` (`bignumbers.dfy`): the part of bignumber.js the classifier
  uses. A value is an exact decimal (`real`) or NaN. NaN spreads through
  `minus` and makes `lt` false. `ParseDecimal` reads a `uiAmountString`.
- `Chain` (`chain.dfy`): the RPC records the classifier reads: parsed
  transaction, meta, balances, instructions and signature status.
- `Classification` (`classification.dfy`): the rule chain for one signature
  (`Classify`) and the `map(...).filter(...)` over all signatures
  (`ClassifyBatch`), with their lemmas.
- `TransactionsProvider` (`provider.dfy`): class `Provider` holds the four
  state cells `associatedToken`, `signatures`, `transactions` and `loading`.
  It also holds the three effects. Each effect's `changed` flag is an epoch
  counter: an in-flight call remembers the epoch of the instance that issued
  it, and it is stale once the effect's epoch has moved on. Each callback
  React or the event loop would run is one method: an effect (re)starting,
  an interval tick, a call resolving or rejecting, and unmounting.
- `ProviderScenarios` (`scenarios.dfy`): event sequences on a fresh
  provider, showing what follows from the method contracts alone.

Behaviour of the code worth knowing:

- A signature whose status is only `processed` is kept, because the guard
  only asks for a truthy `confirmationStatus`
  (src/components/contexts/TransactionsProvider.tsx:136-137).
- A failed address derivation changes nothing. The rejected promise is
  simply dropped; `associatedToken` is already `undefined` only because the
  previous cleanup cleared it (src/components/contexts/TransactionsProvider.tsx:47-57).
- The token amount is the difference of the two `uiAmountString`s. The
  token's declared decimals are never read (src/components/contexts/TransactionsProvider.tsx:183-194).
- The callback throws a `TypeError` in two cases. One is a transaction with
  no account keys, where `accountKeys[0].pubkey` is read
  (src/components/contexts/TransactionsProvider.tsx:128-132). The other is a
  parsed instruction whose `parsed` field is `null`, where `parsed.info` is
  read (src/components/contexts/TransactionsProvider.tsx:144). The throw
  happens inside `setTransactions(...)`, so the whole list is not published.
  The model calls this verdict `Fault`, and `ClassifyBatch` returns `None`.
- A balance index past the end of `preBalances`/`postBalances` gives
  `new BigNumber(undefined)`, which is NaN. `NaN.lt(x)` is false, so the
  record is published with a NaN amount. The non-negativity guarantee is
  therefore "NaN or at least 0".

Constants: `LAMPORTS_PER_SOL` is 1 000 000 000. `MAX_CONFIRMATIONS` is taken
as 32; `utils/constants.ts` is not part of this model. `arraysEqual` is taken
to be element-wise equality in order; `utils/arraysEqual.ts` is not part of
this model.

## Model

| member | source | states |
|---|---|---|
| `Classification.Classify` | src/components/contexts/TransactionsProvider.tsx:123-215 | An accepted signature had meta, a status, a truthy block time and commitment, exactly one instruction, and that instruction parsed. The record's signature, fee payer (`accountKeys[0]`), timestamp, error, status and confirmations come from those inputs. The amount is NaN or at least 0. In native mode the instruction is a system `transfer` to the recipient, not from it, the recipient is among the account keys, and the amount is the lamport delta at its index divided by `LAMPORTS_PER_SOL`. In token mode the instruction is an spl-token `transfer`/`transferChecked` to the token account, not from it, the account is among the keys, both token balances with a `uiAmountString` exist, and the amount is post minus pre. A fault comes exactly from missing account keys, or from a null `parsed` once the earlier guards passed |
| `Classification.NativeTransferAccepted` | src/components/contexts/TransactionsProvider.tsx:147-166 | Converse of native mode: a single parsed system transfer into the recipient, from someone else, whose balance did not drop, is accepted with the exact lamport delta in SOL, whatever its commitment (including `processed`) |
| `Classification.TokenTransferAccepted` | src/components/contexts/TransactionsProvider.tsx:167-195 | Converse of token mode: a single parsed token transfer into the token account, from another account, with both ui amounts present and not decreasing, is accepted with amount post minus pre |
| `Classification.NativeNegativeDeltaRejected` | src/components/contexts/TransactionsProvider.tsx:157-198 | In native mode, when `postBalances[i] < preBalances[i]` at the recipient's index i, the signature is never accepted, whatever else the transaction holds |
| `Classification.TokenNegativeDeltaRejected` | src/components/contexts/TransactionsProvider.tsx:178-198 | In token mode, when both balances for the token account's index carry a `uiAmountString` and the post amount is `lt` the pre amount, the signature is never accepted |
| `Classification.Verdicts` | src/components/contexts/TransactionsProvider.tsx:122-123 | The `map` gives one verdict per signature, in order, and an accepted verdict carries the signature at its own position |
| `Classification.Survivors` | src/components/contexts/TransactionsProvider.tsx:216 | The `filter` keeps no more records than there were verdicts, and each kept record comes from an accepted verdict |
| `Classification.ClassifyBatch` | src/components/contexts/TransactionsProvider.tsx:121-217 | The list handed to `setTransactions` has at most one record per signature, each carrying one of the input signatures; no list is built only when the callback throws for some signature |
| `Classification.NativeAmountExample` | src/components/contexts/TransactionsProvider.tsx:162-166 | 1 000 000 000 lamports before and 2 500 000 000 after is a payment of exactly 1.5 SOL |
| `Classification.TokenAmountExample` | src/components/contexts/TransactionsProvider.tsx:183-200 | Token balances "10.0" before and "15.25" after are a payment of exactly 5.25, with no lamport division |
| `Classification.EndToEndExample` | src/components/contexts/TransactionsProvider.tsx:121-217 | Signature S1 for a confirmed 2 SOL system transfer to R with 3 confirmations publishes exactly one record with fee payer, amount 2, timestamp, no error, status and confirmations as fetched |
| `Classification.SurvivorsInOrder` | src/components/contexts/TransactionsProvider.tsx:216 | The filter keeps exactly the accepted verdicts: the k-th record belongs to the k-th accepted position, positions increase, and no accepted position is skipped |
| `Classification.SurvivorsAligned` | src/components/contexts/TransactionsProvider.tsx:216 | The k-th survivor is the record of the verdict at the k-th surviving position |
| `Classification.SurvivorPositionsIncrease` | src/components/contexts/TransactionsProvider.tsx:216 | Surviving positions are strictly increasing, so the output keeps input order |
| `Classification.SurvivorPositionsComplete` | src/components/contexts/TransactionsProvider.tsx:216 | Every accepted position is among the surviving positions |
| `Classification.SurvivorsMembership` | src/components/contexts/TransactionsProvider.tsx:216 | A record is in the output if and only if some verdict accepted it |
| `Classification.BatchFollowsSignatures` | src/components/contexts/TransactionsProvider.tsx:121-217 | The published list is the signatures filter-mapped in order: each record is the accepted classification of the signature at an increasing position and carries that signature; rejected signatures are omitted, not padded |
| `Classification.BatchOneRecordPerSignature` | src/components/contexts/TransactionsProvider.tsx:121-217 | With distinct input signatures, no signature is published twice |
| `Classification.BatchFaultAborts` | src/components/contexts/TransactionsProvider.tsx:121-217 | No list is produced if and only if the callback throws for some signature |
| `BigNumbers.ParseUnsigned` | src/components/contexts/TransactionsProvider.tsx:193-194 | A string read as an unsigned decimal is non-empty and non-negative whenever it is a number |
| `BigNumbers.ParseDecimal` | src/components/contexts/TransactionsProvider.tsx:193-194 | A negative value only comes from a string with a leading minus sign |
| `BigNumbers.IntegerNotation` | src/components/contexts/TransactionsProvider.tsx:193-194 | Without a dot, a string is a number exactly when it is a non-empty run of digits, and then its value is what those digits spell |
| `BigNumbers.ParsesTo` | src/components/contexts/TransactionsProvider.tsx:193-194 | `whole.fraction` denotes the whole part plus the fraction moved past the point by its own length |
| `BigNumbers.TrailingZeroFraction` | src/components/contexts/TransactionsProvider.tsx:193-194 | An amount followed by `.0`, `.00`, … has the same value as the amount itself |
| `BigNumbers.ScaleDownDivides` | src/components/contexts/TransactionsProvider.tsx:193-194 | Moving k decimal places is dividing by 10^k |
| `BigNumbers.UiAmountDelta` | src/components/contexts/TransactionsProvider.tsx:193-200 | "15.25" minus "10.0" is exactly 5.25 |
| `Chain.FindBalance` | src/components/contexts/TransactionsProvider.tsx:183-191 | `find` on the token balances returns the first entry of the list for that account index, and returns nothing only when no entry has that index |
| `Chain.FirstWithIndex` | src/components/contexts/TransactionsProvider.tsx:183-191 | The position found holds the account index, and no earlier entry does |
| `JsBuiltins.FindIndex` | src/components/contexts/TransactionsProvider.tsx:157-160 | `findIndex` is -1 exactly when the key is absent; otherwise it is the first position holding the key |
| `TransactionsProvider.KeepIfEqual` | src/components/contexts/TransactionsProvider.tsx:75-78 | The stored list equals the fetched list element by element, and the previous array object is kept whenever it already held that list |
| `TransactionsProvider.PollTarget` | src/components/contexts/TransactionsProvider.tsx:68-72 | Signatures are polled for the token account when there is one, otherwise for the recipient |
| `TransactionsProvider.TransactionPollMillis` | src/components/contexts/TransactionsProvider.tsx:27 | The transaction poll interval is never 0: an absent or zero setting becomes 10000 ms, any other is kept |
| `TransactionsProvider.Provider.constructor` | src/components/contexts/TransactionsProvider.tsx:36-39 | The cells start as no token account, `[]`, `[]` and not loading, with no effect mounted and no call in flight |
| `TransactionsProvider.Provider.CleanupAddressEffect` | src/components/contexts/TransactionsProvider.tsx:54-57 | The cleanup clears `associatedToken` and makes every pending derivation stale |
| `TransactionsProvider.Provider.RunAddressEffect` | src/components/contexts/TransactionsProvider.tsx:42-58 | After cleaning up the old instance, no token means no call and no cleanup registered; a token starts one derivation tagged with the new epoch |
| `TransactionsProvider.Provider.AddressDerived` | src/components/contexts/TransactionsProvider.tsx:48-51 | A derived address is stored only if its instance is still current; a stale one leaves `associatedToken` unchanged |
| `TransactionsProvider.Provider.AddressFailed` | src/components/contexts/TransactionsProvider.tsx:47-52 | A rejected derivation changes no state cell |
| `TransactionsProvider.Provider.CleanupSignatureEffect` | src/components/contexts/TransactionsProvider.tsx:90-94 | The cleanup resets `signatures` to a new empty array and makes every pending signature poll stale |
| `TransactionsProvider.Provider.RunSignatureEffect` | src/components/contexts/TransactionsProvider.tsx:61-95 | After cleanup the new instance polls `associatedToken || recipient`, sets `loading` and issues one poll at once |
| `TransactionsProvider.Provider.StartSignaturePoll` | src/components/contexts/TransactionsProvider.tsx:64-72 | The start of `run` sets `loading` and issues one poll for the captured target, tagged with the current epoch |
| `TransactionsProvider.Provider.SignatureTick` | src/components/contexts/TransactionsProvider.tsx:87 | A tick of a mounted instance sets `loading` and issues a poll; a cleared interval does nothing |
| `TransactionsProvider.Provider.SignaturesFetched` | src/components/contexts/TransactionsProvider.tsx:68-84 | A stale response leaves `signatures` alone; a current one stores the fetched list by value and keeps the old array when equal; `loading` is false afterwards either way |
| `TransactionsProvider.Provider.SignaturesFailed` | src/components/contexts/TransactionsProvider.tsx:80-84 | A failed poll keeps the list and clears `loading` |
| `TransactionsProvider.Provider.CleanupTransactionsEffect` | src/components/contexts/TransactionsProvider.tsx:223-226 | The cleanup makes every pending fetch stale and keeps the published list |
| `TransactionsProvider.Provider.RunTransactionsEffect` | src/components/contexts/TransactionsProvider.tsx:98-102 | After cleanup, an empty signature list mounts nothing; otherwise the new instance captures signatures, recipient and token account and issues one fetch at once |
| `TransactionsProvider.Provider.StartTransactionsPoll` | src/components/contexts/TransactionsProvider.tsx:102-111 | The start of `run` sets `loading` and issues one batched fetch of the captured signatures, recipient and token account, tagged with the current epoch |
| `TransactionsProvider.Provider.TransactionsTick` | src/components/contexts/TransactionsProvider.tsx:220 | A tick of a mounted instance sets `loading` and issues a fetch of what it captured; a cleared interval does nothing |
| `TransactionsProvider.Provider.TransactionsFetched` | src/components/contexts/TransactionsProvider.tsx:105-217 | `loading` is false afterwards; the published list becomes the batch classification of the captured inputs only if the instance is current and no callback threw, and is unchanged otherwise |
| `TransactionsProvider.Provider.TransactionsFailed` | src/components/contexts/TransactionsProvider.tsx:112-118 | A failed fetch keeps the published list and clears `loading` |
| `TransactionsProvider.Provider.Unmount` | src/components/contexts/TransactionsProvider.tsx:42-227 | Every cleanup runs: no effect stays mounted, the token account and signatures are cleared, the published list is kept, and every pending call is stale |
| `ProviderScenarios.StaleSignaturePollIgnored` | src/components/contexts/TransactionsProvider.tsx:73 | A signature poll that resolves after the deposit address changed leaves the list empty, and `loading` is still cleared |
| `ProviderScenarios.EqualPollKeepsArray` | src/components/contexts/TransactionsProvider.tsx:75-78 | Two polls returning the same list leave the very same array in the cell |
| `ProviderScenarios.StaleClassificationIgnored` | src/components/contexts/TransactionsProvider.tsx:119 | A fetch resolving after the recipient changed publishes nothing; the fetch of the new instance publishes the classification for the new recipient |
| `Bouncer.ShortenAddress` | src/components/helpers/Bouncer.ts:111-113 | For 1 <= chars <= length, the first and last chars characters around `...`, of length 2·chars+3; with chars 0 the whole address after `...`; with chars at least the length the address twice; a negative count follows `slice`'s negative-index rules |
| `Bouncer.DefaultShortening` | src/components/helpers/Bouncer.ts:111 | The default count is 4, so an address of four or more characters shortens to 11 characters |

## Left out

- `awaitTransactionSignatureConfirmation` in `Bouncer.ts`: it is built on timers, a websocket subscription and a race between resolve and reject.
- `getTokenWallet` and `fetchMetadata` in `Bouncer.ts`: thin wrappers over `findProgramAddress`, whose hashing and curve check are not part of this model.
- `filterCollection`, `extractData` and `bouncer` in `Bouncer.ts`: network and HTTP calls only. (`bouncer` always returns `false`, because the result of its `forEach(async …)` is discarded.)
- `Mint.ts`: a one-off script that builds and sends a transaction through the SDK.
- `getAssociatedTokenAddress`, `getSignaturesForAddress`, `getParsedConfirmedTransactions` and `getSignatureStatuses` are not modelled as code. Their results are the arguments of the event methods `AddressDerived`, `SignaturesFetched` and `TransactionsFetched`, and their rejections are the `…Failed` methods.
- Timing: `setInterval` periods (5000 ms for signatures, `pollInterval` for transactions) are not modelled. Each tick is an event method, and `Promise.all` is one request that settles as a whole. Overlapping polls are allowed, as in the source, because nothing stops a tick while an earlier call is in flight.
- `console.error` logging is not modelled.
- React scheduling: a state update is applied at once rather than batched, and re-running an effect is a call the environment makes when the effect's inputs change. `recipient` and `splToken` are passed to the effect methods as arguments, not stored as cells. The `connection` object is not modelled at all, so the effects re-running when the connection changes (the dependency lists at lines 95 and 227 of `TransactionsProvider.tsx`) is not modelled either.
- BigNumber `toString`: the amount is kept as an exact value (`Decimal`), not formatted as a string.
- BigNumbers.ParseDecimal: only plain decimal notation with an optional leading `-` is read. Exponent notation, a leading `+`, surrounding whitespace and other bases become NaN, while bignumber.js accepts some of them. RPC `uiAmountString` values are plain decimals.
- BigNumbers.UiAmountDelta: only the one pair of strings is worked out. A general theorem about the difference of two decimal strings is not stated.
- Public keys are compared as their base-58 text, so `pubkey.equals(k)` is string equality.
- JsBuiltins.Slice: indexes Unicode characters, while JavaScript's `slice` indexes UTF-16 code units. The two agree on base-58 addresses, which are ASCII.
- The presentation components (`Transactions.tsx` and its own signature truncation, `PendingRoute.tsx`, `Token.tsx`, `Whitelist.tsx`, `Summary.tsx`, `GenerateButton.tsx`) and `usePayment.ts`, which has no logic.
