# Liquid Connect wallet SDK: a verified model

The SDK sits inside a wallet and decides, on behalf of its owner, what may be shown, signed and
sent. This project models those decisions in Dafny and proves what they are worth.

- **Fund templates** (`Approval.dfy`, `ApprovalFields.dfy`, `ApprovalTheorems.dfy`). A relying party proposes a partially
  signed transaction and an amount to fund. The verifier folds inputs, explicit issuances and outputs
  into checked per-asset sums. It accepts exactly when a rule that mentions no row order and no loop
  holds, and then the wallet's net outflow over the true committed amounts is never above the amount,
  and exactly it unless the inputs mint the asset where the check does not look.
- **Typed lending claims** (`Covenant.dfy`, `CovenantLayout.dfy`, `Lending.dfy`, `LendingFields.dfy`,
  `LendingTheorems.dfy`, `LendingBinding.dfy`, `ExplicitTemplates.dfy`, `LendingCollections.dfy`,
  `LendingExercise.dfy`, `Amounts.dfy`). Eleven kinds of claim are checked against the same rows, each accepted
  exactly when a predicate over the claim, the request and the outputs' fields holds. An
  accepted claim pays what it promises, its token included, and its covenant script fixes its terms up to a hash
  collision that the proof hands over.
- **The session core and its transport** (`Wire.dfy`, `Session.dfy`, `SessionCore.dfy`,
  `SessionMirror.dfy`, `SessionSync.dfy`, `SessionRuns.dfy`, `SessionAnswers.dfy`,
  `SessionSecrecy.dfy`, `Transport.dfy`, `TransportTheorems.dfy`, `TransportStream.dfy`).
  `SessionCore.WalletConnectCore` is the stateful object; every method is proved to do what the functions of `Session` say, and the theorems are about every run of those
  functions. `Transport.Runner` is the connection loop, driven by an arbitrary script of connects,
  failures, messages, host inputs given at any time and sinks that accept only some of the frames.
- **Venue clear-signing** (`Venue.dfy`, `VenueLayout.dfy`, `VenueSigning.dfy`, `LoginForm.dfy`). Tagged preimages, the
  in-place key-spend signer and the login form body.
- **The short wallet id** (`ShortId.dfy`) and **the handle lifetime protocol** of the Kotlin binding
  (`Handle.dfy`), under every interleaving of its atomic steps.

`Common.dfy` and `Pset.dfy` hold the shared vocabulary: machine-width integers, byte encodings, sums,
and the decoded fields of a partially signed Elements transaction.

## Conventions

- Foreign cryptography is a record of function-valued parameters, so the theorems hold for every
  choice of functions. Nothing is assumed about them beyond one hypothesis that is written out,
  `ApprovalTheorems.Truthful`: the proofs attached to this template's own rows, where they verify, do
  so for what the commitments open to, and the host's declarations about its own coins are true.
  Nothing is said of other proofs: commitments hide perfectly, so for every claim one exists.
- No hash is assumed to be injective. Where two scripts or digests agree, the theorem's other case
  names two different strings, among those hashed on the way, with equal hashes; or two tweaks with
  one output key; or a string that hashes to a pinned program leaf.
- `u32` and `u64` are the source's widths. Checked additions are refusals, and the one 32-bit
  accumulator drops what passes bit 31.
- Refusals are constructors instead of message texts.

## Where the code and its documents differ

- `lc-wallet-core/src/core.rs:395-397` says that a login's holdings reports are the truth. The loop at
  `lc-wallet-core/src/core.rs:413-416` skips empty reports, so a domain whose last report is empty keeps
  showing an older one. `SessionSync.SnapshotIsTheTruthIff` gives the exact condition, and
  `SessionSync.EmptyReportAtLoginIsIgnored` a concrete family of failures.
- A collection claim lists several receipts, and each is checked alone
  (`lc-wallet-core/src/lending.rs:914-919`). One output can serve two entries of one asset, so the listed
  total is not guaranteed: `LendingCollections.OneOutputServesTwo` is a case that passes both checks, and
  `LendingCollections.CollectionTotalsExact` says exactly when it is.
- The repository's document on lending funds says that a full exercise burns the token, one unit in and one to a
  data output. The code looks at output 0's asset and script and never at its amount
  (`lc-wallet-core/src/lending.rs:978-983`): `LendingExercise.FullExerciseBurnsIff` says when a unit is burned,
  and `LendingExercise.FullExerciseMayKeepToken` is a template that burns none.
- The NUL that keeps a service login's domain and challenge apart
  (`lc-wallet-core/src/venue.rs:489-491`) does so exactly when neither contains one:
  `Venue.ServiceLoginExact`.
- `docs/ONBOARDING.md:31-33` describes a short id of sixteen characters. The id built at
  `lc-wallet-core/src/short_id.rs:43-59` has eight, and that is what is modelled.

## Model

| member | source | states |
|---|---|---|
| `Approval.CheckOwned` | lc-wallet-core/src/approval.rs:240-249 | passes exactly when every declared index is inside the template and no two are equal; a refusal names an index that really is outside or really is declared twice |
| `Approval.SumInputs` | lc-wallet-core/src/approval.rs:251-334 | succeeds with sums that hold, for every asset, the total of all coins and new issuances, and the number of proven rows; fails only on an unreadable row or when some asset's input total exceeds a u64 |
| `Approval.SumOutputs` | lc-wallet-core/src/approval.rs:336-381 | the same on the output side, with the number of fee outputs and, when there is one, its value |
| `Approval.CheckDeficit` | lc-wallet-core/src/approval.rs:389-405 | passes exactly when the requested asset lacks exactly the amount and every other asset covers itself; each refusal states the shortfall or surplus that is there |
| `Approval.CheckTotals` | lc-wallet-core/src/approval.rs:382-405 | exactly one fee output, not zero, and then the deficit rule |
| `Approval.VerifyFundTemplateOwned` | lc-wallet-core/src/approval.rs:209-415 | accepts if and only if the declarative multiset rule `Accepts` holds; the summary's counts, fee and deficit are those of the template; every refusal names a fact that is true of it |
| `ApprovalFields.AcceptsIffFields` | lc-wallet-core/src/approval.rs:237-405 | a template is accepted if and only if a rule over the fields of its inputs, outputs and declarations holds, with none of the row readers in it |
| `ApprovalFields.CoinReadIff` | lc-wallet-core/src/approval.rs:251-299 | an input counts as an amount of an asset if and only if its coin is explicit and agrees with any declaration, or is confidential and declared, or is confidential and both its proofs verify |
| `ApprovalFields.IssuanceReadIff` | lc-wallet-core/src/approval.rs:301-334 | a stated issuance is allowed if and only if it is not blinded, carries no inflation keys, is no reissuance and has entropy |
| `ApprovalFields.OutputReadIff` | lc-wallet-core/src/approval.rs:336-381 | an output counts as an amount of an asset if and only if it states it without commitments, or commits to it, is not the fee, and both its proofs verify |
| `ApprovalTheorems.TotalsAreTrue` | lc-wallet-core/src/approval.rs:233-236 | on an accepted template the totals are those of the true committed amounts, unless a row's own proof verifies for something false or a declaration lies |
| `ApprovalTheorems.NetOutflowIsExactlyAmount` | lc-wallet-core/src/approval.rs:191-194 | if the host adds only its own inputs and outputs and the transaction balances per asset, what it adds flows out by the amount in the requested asset, less what the inputs mint of it unread, so never by more and by exactly that if and only if nothing unread mints it; and by nothing in any other asset |
| `ApprovalTheorems.RowOrderIrrelevant` | lc-wallet-core/src/approval.rs:237-405 | reordering inputs (owned indexes following their rows) and outputs never changes the verdict |
| `ApprovalTheorems.DeclarationsCoverExactly` | lc-wallet-core/src/approval.rs:240-256 | exactly as many input rows rest on the host's word as it declared; every other row is read without it |
| `ApprovalTheorems.OwnCoinsAreDeclared` | lc-wallet-core/src/approval.rs:256-270 | on an accepted template the host's declarations add up, per asset, to what its template inputs truly hold: explicit rows by comparison, confidential ones by its honesty |
| `Covenant.V2Preimage` | lc-wallet-core/src/lending.rs:1076-1097 | the buffer holds the position terms in witness order, integers big-endian |
| `Covenant.V4Preimage` | lc-wallet-core/src/lending.rs:1102-1129 | the same, followed by the last look |
| `Covenant.OfferPreimage` | lc-wallet-core/src/lending.rs:1032-1065 | the buffer holds the offer header and exactly four row slots, absent rows zero |
| `Covenant.PositionEncodingInjective` | lc-wallet-core/src/lending.rs:1087-1128 | equal position preimages have equal terms and equal tails |
| `Covenant.OfferEncodingExact` | lc-wallet-core/src/lending.rs:1043-1064 | two offers share a preimage if and only if headers agree and the four slots agree |
| `Covenant.WellFormedRowsBind` | lc-wallet-core/src/lending.rs:846-849 | with one to four rows and no zero term the preimage fixes the rows and their number |
| `Covenant.UncheckedRowsDoNotBind` | lc-wallet-core/src/lending.rs:1051-1063 | without those checks a trailing zero row, or a fifth row, leaves the preimage unchanged |
| `Covenant.BranchInjective` | lc-wallet-core/src/lending.rs:1202-1205 | a branch preimage fixes its children as an unordered pair |
| `Covenant.BranchSymmetric` | lc-wallet-core/src/lending.rs:1202-1205 | the order in which a branch's children are given does not matter |
| `CovenantLayout.BranchExact` | lc-wallet-core/src/lending.rs:1202-1205 | a branch hashes the tag's hash twice and then its children, the one that is the smaller big-endian number first |
| `CovenantLayout.PositionScriptExact` | lc-wallet-core/src/lending.rs:1172-1180 | a position or offer script, string by string from the debt slot to the tweak, children in ascending order |
| `CovenantLayout.ClaimScriptExact` | lc-wallet-core/src/lending.rs:1185-1188 | a claim script, string by string |
| `CovenantLayout.PositionLayout` | lc-wallet-core/src/lending.rs:1076-1097 | the byte offset of every position term |
| `CovenantLayout.LastLookLayout` | lc-wallet-core/src/lending.rs:1123-1128 | the byte offset of every last-look field |
| `CovenantLayout.OfferLayout` | lc-wallet-core/src/lending.rs:1032-1065 | the byte offset of every header field and of each of the four row slots, absent rows zero |
| `CovenantLayout.RowLayout` | lc-wallet-core/src/lending.rs:1051-1063 | the byte offset of every term of a row |
| `Covenant.NumsScriptBinds` | lc-wallet-core/src/lending.rs:1207-1221 | equal output scripts have equal tree roots, or a collision or tweak clash is exhibited |
| `Covenant.PositionScriptBinds` | lc-wallet-core/src/lending.rs:1172-1180 | a position or offer script fixes program, terms and debt, or the strings hashed to build the two scripts exhibit what went wrong |
| `Covenant.ClaimScriptBinds` | lc-wallet-core/src/lending.rs:1185-1188 | the hash of a claim script fixes the lender token, or a collision or tweak clash is exhibited |
| `LendingTheorems.BestIsBest` | lc-wallet-core/src/lending.rs:892-896 | the filter-and-max finds the largest payment, and none exactly when all are below the floor |
| `LendingFields.VerifyTypedFundExact` | lc-wallet-core/src/lending.rs:466-998 | for each of the eleven variants a claim is accepted if and only if a predicate over the claim, the request, the wallet's outputs, its declarations and the outputs' fields holds, the funded amount of an exercise and every fee cap included |
| `LendingTheorems.PaidForReal` | lc-wallet-core/src/lending.rs:491-497 | a payment found among the wallet's outputs is there over the true committed amounts, each output counted once |
| `LendingTheorems.PromiseIsPaid` | lc-wallet-core/src/lending.rs:499-997 | in every asset the wallet's outputs truly pay at least what the accepted claim promises: its money and its one-unit token, which are one output only for an amount of at most one |
| `LendingTheorems.WalletNetsThePromise` | lc-wallet-core/src/lending.rs:466-998 | both checks together, all in true committed amounts: in every asset the wallet nets at least the promise, less what it declared it owns and, in the requested asset only, less the amount |
| `LendingTheorems.TokenComesBack` | lc-wallet-core/src/lending.rs:877-984 | in a cancel, a collection or a partial exercise whose only template input of the wallet is the spent token, the wallet nets no loss of that token unless it is the asset it was asked to fund |
| `LendingTheorems.ReportedReceipt` | lc-wallet-core/src/lending.rs:452-457 | the reported receipt is the proceeds of a fill, the best single payment of a cancel, sale or exercise, the first listed amount of a collection, and zero for an offer |
| `LendingBinding.AcceptedFillIsCommitted` | lc-wallet-core/src/lending.rs:551-828 | an accepted fill's position output is the covenant of its own terms and debt; from v3 on the lender is paid at its token's claim script; a last look ends before expiry |
| `LendingBinding.FillsBind` | lc-wallet-core/src/lending.rs:551-828 | two accepted fills whose position outputs carry one script agree on program, every digested term, the last look and the debt, or a collision or clash is exhibited |
| `LendingBinding.OfferCoinsAreCommitted` | lc-wallet-core/src/lending.rs:858-865 | every coin of an accepted offer is the offer covenant for its terms and its own amount |
| `LendingBinding.OffersBind` | lc-wallet-core/src/lending.rs:841-875 | two accepted offers sharing one coin's script agree on all terms, the rows and their number included, and on that amount, or a failure is exhibited |
| `LendingBinding.CheckedTotalIsSum` | lc-wallet-core/src/lending.rs:844-844 | the checked fold fails exactly when the sum does not fit a u64, and else is the sum |
| `LendingBinding.RenderedOfferTotal` | lc-wallet-core/src/lending.rs:1375-1375 | on an accepted offer the unchecked sum in the shown text overflows at no prefix and equals the funded amount |
| `LendingBinding.OpReturnForms` | lc-wallet-core/src/lending.rs:1224-1240 | a payload is read from a script if and only if the script is one of the two single-push forms of that payload |
| `LendingExercise.FullExerciseBurnsIff` | lc-wallet-core/src/lending.rs:978-984 | a full exercise that passes both checks burns, over the true committed amounts, exactly what output 0 states, so a unit of the token if and only if that amount is not zero |
| `LendingExercise.FullExerciseMayKeepToken` | lc-wallet-core/src/lending.rs:978-984 | a template that a chain could hold and both checks accept as a full exercise, whose output 0 burns no unit while a stranger is paid the token |
| `LendingCollections.LeastIsPaid` | lc-wallet-core/src/lending.rs:912-919 | every collection that passes both checks pays at least the largest entry of each asset, beside the returned token when that is an entry above one |
| `LendingCollections.OnlyPassablePasses` | lc-wallet-core/src/lending.rs:909-911 | no collection passes both checks unless its fee is 1 to 20000, something is listed, and the returned token fits a u64 beside what is listed of it |
| `LendingCollections.LeastIsReached` | lc-wallet-core/src/lending.rs:903-924 | for every other collection some template, with no coin spent twice and none empty, passes both checks, its fee in the policy asset where that has room, and pays exactly that least (one unit of an asset listed with zeros alone) |
| `LendingCollections.OneOutputServesTwo` | lc-wallet-core/src/lending.rs:914-919 | a collection listing 5 and 7 of one asset passes both checks and pays 7 |
| `LendingCollections.CollectionTotalsExact` | lc-wallet-core/src/lending.rs:903-924 | over all templates that a chain could hold and that pass both checks, the listed total of an asset is always paid if and only if at most one entry of it is not zero (for the returned token, also if the entries exceed the largest by at most the unit at output 0), or the collection cannot pass at all |
| `Amounts.Fmt8Shape` | lc-wallet-core/src/lending.rs:1451-1459 | trimming never crosses the point: digits, and for a fraction a point and one to eight digits, the last not zero |
| `Amounts.Fmt8RoundTrip` | lc-wallet-core/src/lending.rs:1451-1459 | an exact inverse gives back the number of satoshis |
| `Amounts.Fmt8Injective` | lc-wallet-core/src/lending.rs:1451-1459 | different amounts are shown differently |
| `Amounts.Fmt8InSatoshis` | lc-wallet-core/src/lending.rs:1451-1459 | before the point the whole hundreds of millions of satoshis without a leading zero, after it the remainder as eight digits less the zeros at its end |
| `SessionCore.SyncRequests` | lc-wallet-core/src/core.rs:249-274 | map and effects are those of the reconciliation functions, for any map and list; the six routines differ only in the request type |
| `SessionCore.SyncHoldings` | lc-wallet-core/src/core.rs:398-420 | the same for holdings |
| `SessionCore.ReplayActions` | lc-wallet-core/src/core.rs:489-497 | one frame per pending action, in id order |
| `SessionCore.WalletConnectCore.constructor` | lc-wallet-core/src/core.rs:220-243 | the object starts in the initial state: nothing held, first action id 1 |
| `SessionCore.WalletConnectCore.AddUserAction` | lc-wallet-core/src/core.rs:661-673 | the whole new state and effects: the action is queued under a new id and sent if connected |
| `SessionCore.WalletConnectCore.FinishRequest` | lc-wallet-core/src/core.rs:697-701 | a mobile request is handed back once |
| `SessionCore.WalletConnectCore.SendFcmToken` | lc-wallet-core/src/core.rs:703-714 | a frame exactly when there is a token and the session is logged in |
| `SessionCore.WalletConnectCore.SyncAll` | lc-wallet-core/src/core.rs:499-505 | the whole new state and effects of the seven synchronisations, in order |
| `SessionCore.WalletConnectCore.HandleResponse` | lc-wallet-core/src/core.rs:464-516 | the whole new state and effects of each response |
| `SessionCore.WalletConnectCore.HandleNotification` | lc-wallet-core/src/core.rs:518-659 | the whole new state and effects of each notification |
| `SessionCore.WalletConnectCore.HandleServerMessage` | lc-wallet-core/src/core.rs:675-695 | responses, errors and notifications; an error drops and reports the action it answers |
| `SessionCore.WalletConnectCore.SignMessageDigest` | lc-wallet-core/src/core.rs:453-462 | a signature over the stored request's decoded digest, or none |
| `SessionCore.WalletConnectCore.HandleAnswer` | lc-wallet-core/src/core.rs:743-962 | the whole new state and effects of every approval and refusal |
| `SessionCore.WalletConnectCore.Handle` | lc-wallet-core/src/core.rs:717-1010 | one call is one step of the state machine the run theorems are about |
| `SessionSync.SnapshotReconciles` | lc-wallet-core/src/core.rs:249-274 | for any previous map and any list, duplicates included: exactly the listed ids, old bodies kept, first occurrences of new ones |
| `SessionSync.SnapshotIsAnnounced` | lc-wallet-core/src/core.rs:260-273 | one removal per vanished id in id order, then one addition per new id in list order, and nothing else |
| `SessionSync.HoldingsReconcile` | lc-wallet-core/src/core.rs:398-420 | only reported domains; the last non-empty report of each, else what was there; never an empty report |
| `SessionSync.SnapshotIsTheTruthIff` | lc-wallet-core/src/core.rs:395-420 | a login response leaves, in any state, the holdings that a run of the same reports as notifications leaves in a new wallet, if and only if no domain's last report is empty while the wallet or an earlier report has one |
| `SessionSync.EmptyReportAtLoginIsIgnored` | lc-wallet-core/src/core.rs:413-416 | in a run, a shown holding survives a login whose only report for the domain is empty and the host is told nothing of it, although as a notification the report clears it |
| `SessionMirror.MirrorStep` | lc-wallet-core/src/core.rs:717-1010 | folding one step's effects into the old maps gives the new maps |
| `SessionMirror.HostMirrorsCore` | lc-wallet-core/src/core.rs:249-657 | over every run a host that folds the effects from empty maps holds exactly the core's request and holdings maps |
| `SessionRuns.IdsAdvance` | lc-wallet-core/src/core.rs:661-665 | action ids are positive, never decrease, and are never used twice |
| `SessionRuns.PendingExactly` | lc-wallet-core/src/core.rs:510-512 | over every run an action is pending under an id if and only if some input queued it there and no response or error with that id has arrived since |
| `SessionAnswers.AnswersAdd` | lc-wallet-core/src/core.rs:743-1010 | over every run, input by input: the action each answer of the user or the host adds under the next id and, when connected, sends, its fields taken from the input, and the inputs that add none |
| `SessionAnswers.StepAdds` | lc-wallet-core/src/core.rs:743-1010 | a step adds exactly the action that a table over the input's fields and the live requests gives, or nothing |
| `SessionAnswers.PendingIsCaused` | lc-wallet-core/src/core.rs:510-512 | an action is pending if and only if an input caused it by that table and it has not been answered |
| `SessionAnswers.FramesAreCaused` | lc-wallet-core/src/core.rs:661-673 | every action frame ever sent goes back to an input that causes that very action |
| `SessionAnswers.DigestIff` | lc-wallet-core/src/core.rs:453-462 | a digest is decoded if and only if the text is the sixty-four hexadecimal digits of its bytes, in either case |
| `SessionAnswers.CreatedEnters` | lc-wallet-core/src/core.rs:518-657 | a created request enters the map of its own kind, under its id, changes nothing else, and is announced |
| `SessionAnswers.RemovedLeaves` | lc-wallet-core/src/core.rs:518-657 | a removed request leaves the map of the named kind, changes nothing else, and is announced |
| `SessionAnswers.HoldingsFollow` | lc-wallet-core/src/core.rs:518-657 | what each holdings and session notification changes and tells, and nothing else |
| `SessionAnswers.LoginTakesTheLists` | lc-wallet-core/src/core.rs:499-507 | a login response brings each list into the map of its own kind and announces the sessions |
| `SessionAnswers.PlumbingFrames` | lc-wallet-core/src/core.rs:464-475 | frames without an action have id 0; a challenge is asked for exactly on connecting; a login frame is sent exactly as the answer to a challenge, with key, signature over it and installation in their places |
| `SessionAnswers.PushesExactly` | lc-wallet-core/src/core.rs:703-714 | push registration is sent exactly at a login response or a registration that finds a token, a login and a live connection |
| `SessionAnswers.FailuresTell` | lc-wallet-core/src/core.rs:675-691 | a failure is told exactly when the server refuses a pending action or a login lacks the key it asks for, with that action and those words |
| `SessionAnswers.MobileHandBack` | lc-wallet-core/src/core.rs:697-701 | over every run a request waits for its mobile user exactly from a mobile link until its answer, and the user is handed back exactly then |
| `SessionRuns.FrameProvenance` | lc-wallet-core/src/core.rs:489-497 | every action frame was queued by an earlier or the same input under the id it carries, and was unanswered when sent |
| `SessionRuns.EqualIdsEqualActions` | lc-wallet-core/src/core.rs:661-673 | frames with equal action ids carry equal actions, however often re-sent |
| `SessionRuns.LoginResendsPending` | lc-wallet-core/src/core.rs:486-497 | each login response sends the whole pending set, once each, in ascending id order, and no other action |
| `SessionRuns.LiveIffShown` | lc-wallet-core/src/core.rs:518-657 | a request is live in the core if and only if the host's latest news of it is that addition |
| `SessionRuns.ShownIsSigned` | lc-wallet-core/src/core.rs:812-831 | a signature queued by `SignMessageAccepted` is over the digest of the latest request the host was shown under that id, with no removal since |
| `SessionRuns.AcceptsWereShown` | lc-wallet-core/src/core.rs:833-952 | every sign-message, pay, fund, receive-address or asset-balance acceptance ever sent answers a request the host had been shown and not seen removed |
| `SessionRuns.LoginsAreBound` | lc-wallet-core/src/core.rs:743-776 | every login acceptance ever sent comes from `LoginAccepted` for that request, and carries key and signature when the host's latest news of it has a service challenge |
| `SessionRuns.FlagsTell` | lc-wallet-core/src/core.rs:720-740 | connected, logged-in and push-token state say exactly what has happened since the last disconnect or registration |
| `SessionRuns.PushesOnlyLoggedIn` | lc-wallet-core/src/core.rs:703-714 | push registration is sent only between a login response and the next disconnect, with the token registered last |
| `SessionSecrecy.DescriptorIsConfined` | lc-wallet-core/src/core.rs:766-774 | over every run, changing the wallet's descriptor changes that field of its login acceptances and nothing else in state or effects |
| `SessionSecrecy.DescriptorUnusedBeforeLogin` | lc-wallet-core/src/core.rs:743-774 | in a run without `LoginAccepted` the descriptor has no influence at all |
| `Transport.ApplyEffects` | lc-wallet-core/src/transport.rs:260-317 | appends the frames to the outgoing buffer and the rest to the event channel |
| `Transport.Runner.Give` | lc-wallet-core/src/transport.rs:253-257 | an input joins the channel whatever the connection does |
| `Transport.Runner.SendFrames` | lc-wallet-core/src/transport.rs:403-421 | delivers every frame, or those before the first failure and then disconnects |
| `Transport.Runner.Connect` | lc-wallet-core/src/transport.rs:337-357 | a connection starts with the core's challenge and stays up even if the first send fails |
| `Transport.Runner.Round` | lc-wallet-core/src/transport.rs:359-408 | one round of the connected loop: a message, the next waiting input, a ping, a failure or the end |
| `Transport.Runner.Run` | lc-wallet-core/src/transport.rs:319-421 | the nested loops do, for every script of moves, what the step function says, inputs given at any time included |
| `TransportTheorems.ApplyKeepsOrder` | lc-wallet-core/src/transport.rs:260-317 | frames and events stand at exactly the positions, in order, of the effects they come from |
| `TransportTheorems.LoginImpliesConnected` | lc-wallet-core/src/transport.rs:359-419 | in every reachable state `login_succeed` implies `connected`, `connected` follows the loop, and the loop's logged-in flag agrees with the core |
| `TransportTheorems.HostMirrorsThroughEvents` | lc-wallet-core/src/transport.rs:260-317 | a host that folds the events it is sent holds the core's maps after every move |
| `TransportTheorems.OneLoggedInPerConnection` | lc-wallet-core/src/transport.rs:372-375 | between two logged-in events the host is told of a disconnect |
| `TransportTheorems.PendingIsDelivered` | lc-wallet-core/src/transport.rs:403-407 | while a logged-in connection is up every pending action has been delivered on it, whatever earlier connections lost |
| `TransportTheorems.CoreRuns` | lc-wallet-core/src/transport.rs:319-421 | every state of the transport's core is one a run of the core reaches |
| `TransportTheorems.ConnectDelivers` | lc-wallet-core/src/transport.rs:337-353 | a connection made is told, starts with nothing delivered but the challenge, and has delivered that if the sink takes one frame |
| `TransportTheorems.DropDisconnects` | lc-wallet-core/src/transport.rs:408-421 | a lost connection is told and leaves the core neither connected nor logged in |
| `TransportTheorems.StatusExactly` | lc-wallet-core/src/transport.rs:359-408 | a live connection goes on exactly when the sink takes all frames of the round, and the loop ends exactly when no handle is left and nothing waits |
| `TransportStream.CarriedInOrder` | lc-wallet-core/src/transport.rs:319-421 | over every script, a live connection has carried, in order and once each, exactly the frames produced since it was made, or all but the first challenge |
| `TransportStream.ToldInOrder` | lc-wallet-core/src/transport.rs:260-317 | over every script, the host has been told, in order and once each, exactly the effects of the run that are not frames |
| `TransportTheorems.InputsWait` | lc-wallet-core/src/transport.rs:387-397 | after every script the host's handled inputs are a prefix of those given and the rest waits in order |
| `TransportTheorems.PendingMeansQueued` | lc-wallet-core/src/transport.rs:319-421 | over every script: pending exactly when queued and unanswered, and then delivered on any logged-in connection that is up |
| `TransportTheorems.NoApprovalIsLost` | lc-wallet-core/src/transport.rs:253-421 | over every script, each input a host gave still waits or was handled after exactly those before it; the action it queued is pending under its id until that id's response or error, and while pending it has been delivered on any logged-in connection that is up |
| `Venue.OrderPreimage` | lc-wallet-core/src/venue.rs:393-419 | the buffer is the v2 preimage with fee caps and the v1 preimage without |
| `Venue.WithdrawPreimage` | lc-wallet-core/src/venue.rs:427-440 | the buffer is the withdrawal preimage |
| `Venue.DelegatePreimage` | lc-wallet-core/src/venue.rs:456-463 | the buffer is the delegation preimage |
| `Venue.LoginPreimage` | lc-wallet-core/src/venue.rs:467-473 | the buffer is the login preimage |
| `Venue.ServiceLoginPreimage` | lc-wallet-core/src/venue.rs:492-501 | the buffer is the service-login preimage |
| `VenueLayout.OrderLayout` | lc-wallet-core/src/venue.rs:393-419 | the byte offset of every field of an order, the side as 0 for a purchase and 1 for a sale, in either version |
| `VenueLayout.WithdrawLayout` | lc-wallet-core/src/venue.rs:427-440 | the byte offset of every field of a withdrawal |
| `VenueLayout.DelegateLayout` | lc-wallet-core/src/venue.rs:456-463 | the byte offset of every field of a delegation |
| `VenueLayout.ServiceLoginLayout` | lc-wallet-core/src/venue.rs:492-501 | the byte offset of every field of a service login |
| `VenueLayout.TypedDigestExact` | lc-wallet-core/src/venue.rs:738-786 | a request gets a digest if and only if it is one the wallet signs, and then the hash of that request's own string; each refusal has its exact condition |
| `Venue.TagsTellApart` | lc-wallet-core/src/venue.rs:46-63 | equal preimages have equal tags and equal bodies, although the tags differ in length |
| `Venue.PreimagesBind` | lc-wallet-core/src/venue.rs:393-501 | equal preimages are the same message, kind and version included, for NUL-free service-login domains |
| `Venue.ServiceLoginExact` | lc-wallet-core/src/venue.rs:482-501 | another domain and challenge share a service-login preimage if and only if the domain or the challenge contains a NUL |
| `Venue.TypedDigestBinds` | lc-wallet-core/src/venue.rs:738-786 | two typed requests with one digest under one key are the same up to the withdrawal's script, or a collision is exhibited |
| `Venue.TypedNeverService` | lc-wallet-core/src/venue.rs:475-480 | a digest rebuilt from a typed request is never that of a service login or of another key's message, or a collision is exhibited |
| `VenueSigning.FindMine` | lc-wallet-core/src/venue.rs:226-241 | exactly the non-final inputs paying one of the key's scripts, in order |
| `VenueSigning.CollectPrevouts` | lc-wallet-core/src/venue.rs:245-256 | every prevout, or the first input without one |
| `VenueSigning.SignMine` | lc-wallet-core/src/venue.rs:259-263 | in place: inputs paying the untweaked script get a signature by the untweaked key, those paying the tweaked one a signature by the tweaked key, over the one transaction extracted before the loop and all its prevouts |
| `VenueSigning.SignKeyspendInputs` | lc-wallet-core/src/venue.rs:215-265 | the count returned and the PSET afterwards, which key signed what included; unchanged on an error or when nothing is ours |
| `VenueSigning.SignedExactly` | lc-wallet-core/src/venue.rs:232-263 | the signed PSET is the one in which each non-final input paying the untweaked script carries one signature by the untweaked key, each other one paying the tweaked script one by the tweaked key, and every other input is as it was |
| `VenueSigning.OutcomeExactly` | lc-wallet-core/src/venue.rs:215-265 | zero exactly when nothing is ours, else the first input without a coin, else a transaction that cannot be extracted, else how many inputs are ours |
| `VenueSigning.SecondCallSignsNothing` | lc-wallet-core/src/venue.rs:226-244 | after a call none of the inputs is ours to sign, so a second call returns 0 |
| `LoginForm.FormRoundTrip` | lc-wallet-core/src/venue.rs:324-339 | splitting and percent-decoding the body gives back the pairs, for all values and separator-free keys |
| `LoginForm.LoginBodyRoundTrip` | lc-wallet-core/src/venue.rs:313-339 | every login body parses back to the values it was built from |
| `LoginForm.LoginBodyInjective` | lc-wallet-core/src/venue.rs:313-339 | equal bodies are equal logins, absent fields included |
| `LoginForm.ServerReads` | lc-wallet-core/src/venue.rs:313-339 | a server that reads the body finds key, signature, challenge, identity and link code under their own names, and nothing else |
| `LoginForm.BodyExact` | lc-wallet-core/src/venue.rs:313-339 | the body, field by field |
| `LoginForm.ByteExact` | lc-wallet-core/src/venue.rs:328-336 | a byte is sent as itself exactly when it is unreserved, and else as a percent sign and two upper-case digits |
| `ShortId.TakeByte` | lc-wallet-core/src/short_id.rs:49-50 | shifting a byte into the 32-bit accumulator loses nothing |
| `ShortId.EmitDigit` | lc-wallet-core/src/short_id.rs:51-54 | the masked accumulator yields the same digit as the whole number |
| `ShortId.EmitDigits` | lc-wallet-core/src/short_id.rs:51-54 | the inner loop emits base-32 digits of the number until fewer than five bits are held |
| `ShortId.ShortWalletId` | lc-wallet-core/src/short_id.rs:43-59 | the packer's output is the eight base-32 digits of the first five bytes as one number, grouped |
| `ShortId.Normalize` | lc-wallet-core/src/short_id.rs:63-78 | the kept characters, grouped, if none is rejected and there are eight |
| `ShortId.IdsInjective` | lc-wallet-core/src/short_id.rs:43-59 | equal ids come from equal first five bytes |
| `ShortId.NormalizeIdempotent` | lc-wallet-core/src/short_id.rs:61-78 | normalising a normal form changes nothing |
| `ShortId.GeneratedIdsAreNormal` | lc-wallet-core/src/short_id.rs:80-83 | every generated id is its own normal form and matches its key |
| `ShortId.SeparatorsIgnored` | lc-wallet-core/src/short_id.rs:67-67 | a dash or space anywhere changes nothing |
| `ShortId.ConfusablesIgnored` | lc-wallet-core/src/short_id.rs:66-71 | case, and I, L and 1, and O and 0, are interchangeable at any position |
| `ShortId.NormalFormsAreIds` | lc-wallet-core/src/short_id.rs:61-83 | every input that normalises names some digest: only spellings of ids are accepted |
| `ShortId.NormalizedExactly` | lc-wallet-core/src/short_id.rs:63-78 | a text has a normal form if and only if, dashes and spaces apart, it is eight characters that each mean a digit; one other character anywhere is enough for none |
| `ShortId.IdExact` | lc-wallet-core/src/short_id.rs:43-59 | each digit of an id by its place in the alphabet |
| `Handle.NextKeepsInv` | bindings/kotlin/uniffi/lc_wallet_ffi/lc_wallet_ffi.kt:1749-1789 | every atomic step of any invocation keeps the protocol's invariant |
| `Handle.CounterCountsCalls` | bindings/kotlin/uniffi/lc_wallet_ffi/lc_wallet_ffi.kt:1750-1789 | under every interleaving the counter is the calls in flight plus one until destroy's decrement, and stays within a Long |
| `Handle.CleansSafely` | bindings/kotlin/uniffi/lc_wallet_ffi/lc_wallet_ffi.kt:1752-1789 | at most one clean, never before destroy, never with a call in flight then or ever after |
| `Handle.ZeroIsForever` | bindings/kotlin/uniffi/lc_wallet_ffi/lc_wallet_ffi.kt:1768-1779 | a counter at zero stays there: no late compare-and-set revives the handle |
| `Handle.CleanedExactlyOnce` | bindings/kotlin/uniffi/lc_wallet_ffi/lc_wallet_ffi.kt:1752-1789 | at rest the handle was cleaned exactly once if destroyed, and not at all otherwise |
| `Handle.LoneCall` | bindings/kotlin/uniffi/lc_wallet_ffi/lc_wallet_ffi.kt:1766-1789 | a call that meets no other step gets in flight and leaves everything as it found it, and is refused exactly at a counter of zero or of the largest Long |
| `Handle.LoneDestroy` | bindings/kotlin/uniffi/lc_wallet_ffi/lc_wallet_ffi.kt:1752-1763 | the first destroy cleans at once if no call is in flight, and else leaves it to them; a second does nothing |
| `Handle.LastCallCleans` | bindings/kotlin/uniffi/lc_wallet_ffi/lc_wallet_ffi.kt:1783-1788 | on a destroyed handle the last call to end cleans |
| `Handle.FFIObject.constructor` | bindings/kotlin/uniffi/lc_wallet_ffi/lc_wallet_ffi.kt:1749-1750 | count one, not destroyed |
| `Handle.FFIObject.LoadCounter` | bindings/kotlin/uniffi/lc_wallet_ffi/lc_wallet_ffi.kt:1771-1778 | the load and its two guards |
| `Handle.FFIObject.CompareAndSetCounter` | bindings/kotlin/uniffi/lc_wallet_ffi/lc_wallet_ffi.kt:1779-1779 | the increment succeeds exactly when the counter is still what was loaded |
| `Handle.FFIObject.ReleaseCall` | bindings/kotlin/uniffi/lc_wallet_ffi/lc_wallet_ffi.kt:1783-1788 | the decrement tells the last call that it must clean |
| `Handle.FFIObject.ClaimDestroyFlag` | bindings/kotlin/uniffi/lc_wallet_ffi/lc_wallet_ffi.kt:1755-1755 | one destroyer wins |
| `Handle.FFIObject.DropInitialCount` | bindings/kotlin/uniffi/lc_wallet_ffi/lc_wallet_ffi.kt:1757-1757 | destroy's decrement tells it whether it must clean |
| `Handle.FFIObject.RunCleaner` | bindings/kotlin/uniffi/lc_wallet_ffi/lc_wallet_ffi.kt:1758-1785 | when the cleaner runs no call is in flight and it has run once |

## Left out

- VerifyFundTemplateOwned: does not fix which undeclared asset a refusal names (the source takes the smallest asset id), and starts from a decoded template and asset id; base64, PSET and hex decoding are foreign code.
- NetOutflowIsExactlyAmount: rests on `Truthful` and `Completes`; what neither check reads, such as an issuance given only by a commitment or inflation keys without an amount, enters `Completes` as the parameter `unread`; range and surjection proofs, blinding and signature hashes are foreign code.
- CollectionTotalsExact: takes a list to have fewer than 2^64 entries, as the source's index type does; the fee of the template it exhibits is in the policy asset unless the policy asset's listed amount leaves no u64 room for it, since neither check looks at the fee's asset.
- HandleServerMessage: starts from decoded messages; JSON text that does not parse is an input that changes nothing.
- HandleAnswer: `next_action_id` is unbounded, so its overflow of the source's integer is not modelled; log lines are dropped.
- SyncRequests: stands for six routines of the source that are the same text over six request types.
- Run: the reconnect delay, timers and pings have no effect on the core and are reduced to moves; both the first failed frame and those after it count as lost.
- SignKeyspendInputs: transaction extraction and BIP 340 signing are functions of the signer.
- ShortWalletId: starts from the tagged hash of the key, which is foreign code.
- CleansSafely: covers the two methods of the handle; the garbage collector's own call of the cleaner and the `close` alias of `destroy` are not part of this model, and atomics are sequentially consistent.
- RenderedOfferTotal: covers the sum in the text; the wording of the dialogs only formats verified fields.
- Parsing of memos, typed descriptions and links (`parse_typed_fund`, `parse_typed_description`, `link.rs`): field-by-field decoding.
- `identity.rs`, `payjoin.rs` and the network half of `sdk_login`: HTTP calls.
- `summarize_pset` and `annotate_payjoin`: listings without a decision.
- `lc-wallet-ffi/src/lib.rs` and the generated converters: field-by-field copies.
- Key derivation, curve arithmetic and address parsing: function parameters where a result is needed.
