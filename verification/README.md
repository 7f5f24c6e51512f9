# Daxib's core, modelled and proved

Daxib is a Bitcoin wallet. This project models its coin selection, its sealed spending policy and
rolling spend ledger, the path from reservation to settlement, its two crash-safe rotations, its
transaction journal and its exact codecs, and proves what they promise over every input and every
run. `dafny verify dfyconfig.toml` checks all of it.

How the files fit together:

- `VSize`, `Bnb`, `CoinSelect`, `CoinSelectLaws`, `CoinSelectNumbers`: coin selection.
  `CoinSelect.Selection` is the selection as a function of its inputs; `Bnb.Searcher` and the methods
  of `CoinSelect` are the loops and the search closure, proved equal to it; `CoinSelectLaws` proves
  what it promises and `CoinSelectNumbers` says what every outcome amounts to in satoshis and vBytes.
- `Policies`, `Verdicts`, `Sealing`, `SealingVerdicts`, `Administration`, `AdminRotation`: the policy,
  its verdicts read off its text, its canonical writer and tri-state reader on JSON values, which
  policies keep their verdicts, the administrator's edits, and the admin-key rotation with its recovery.
- `Ledger`, `LedgerLaws`: one network's counter file as a class with a ghost history, and
  rolling-window safety over every interleaving of locked calls.
- `Outflow`, `OutflowLaws`, `Recipients`: what signing a PSBT charges, the loss of balance it stands
  for, and the recipients' gate.
- `Settlement`, `Outcomes`, `Signing`: reserve, sign, journal, broadcast and settle as a step system
  with crashes, its invariant, what undisturbed operations come to, and the signing, broadcasting and
  reconciling code as runs of it; `SettlementNeeds` has the runs that break a conclusion when a hypothesis is dropped.
- `KeyRotation`: keystore re-encryption and its recovery.
- `Lines`, `Journal`, `JournalStore`, `JournalLink`: the append-only journal as a file of bytes, and
  its records as those of the settlement protocol.
- `Ulid`, `Amounts`, `AddressKeys`, `Derivation`, `Combine`: codecs, watermarks, PSBT combining.
- `Base`, `Orders`, `Texts`: option type, ASCII folding, decimal digits, string order, sorting and
  white space.

Conventions. Every write that can fail or be cut short draws from a schedule of faults held by the
object, so a contract that holds for every schedule holds at every crash point. An atomic write or
rename that reports an error has no effect, except where a fault says that it landed unheard. A
`SliceStable` is the stable insertion sort `Orders.SortBy`; an unstable `Slice` is the same sort,
which makes a difference only between elements with equal keys. Case folding is ASCII.

What the code does where its comments say otherwise:

- Branch-and-bound at its iteration cap returns the best choice found so far (select.go:304-306),
  not `ok=false` (select.go:244-246). Soundness is proved with the cap, exactness below it.
- The size estimate is the exact BIP-141 size of a P2WPKH transaction up to 252 inputs, and two
  vBytes short from 253 to 65535: the input counter is taken to be one byte.
- The changeless tail after the knapsack loop is reached only when a kept set of at least 100,000
  coins starves the search; `TailNeedsHundredThousandCoins` gives the exact condition.
- Signing says that the change address passes the `include_self` gate (psbt.go:490). It does so only
  as a recipient: a PSBT that pays nobody but the wallet is checked under the empty name and refused
  by any allowlist (`NamelessIsRefused`). The amount charged is said to be clamped at 0 (psbt.go:414);
  it is negative when the external outputs sum below 0, and only then (`ChargeIsTheLoss`).
- Resealing under a staged key sets the nonce to one above the watermark. That is above the nonce it
  replaces exactly when the replaced policy's nonce is at the watermark (`Guardrails.Reseal`); after
  two changes whose anchor never landed it is strictly lower (`RotateAfterUnlandedChanges`).
- `SatsToBTC` prints every 64-bit amount but the least, whose negation overflows; the text it then
  returns is no number.
- Signing is said to charge exactly the net outflow (psbt.go:408-411). A coin of the wallet spent by
  an input that reports no spent output, or another's, is left unsigned and not charged, and a coin
  the backend does not know is charged at the reported value. `ChargeIsTheLoss` says exactly when the
  charge is the loss, `SigningsCoverExactly` when the charges of several signings together cover it.
- The first address of a chain is said to be recorded in the chain's canonical form (wallet.go:191).
  It is encoded for the network the wallet is bound to, so a wallet bound to regtest records a regtest
  address there and testnet addresses after it (`Derivation.Derives`).

Hypotheses the theorems name, each shown to be needed or explained by a lemma: a commit never meets
a released row (`CommittingReleasedRowsBreaksTheWindow`; without it, `RunsAreSafeButForRevivals` and
`WindowsHoldButForStaleLines` say which rows can exceed the limit, `CommitBreaksExactly` when); a
backend's rejection is final (`FickleAnswersLoseCount`); for the window through the protocol, no
failed append leaves a line for a transaction whose PSBT was handed out, and no PSBT is handed out
for one of which a send has left such a line (`StaleLineBreaksTheWindow`,
`StaleSendBreaksTheWindow`); for one transaction staying counted, none of its sends leaves such a
line (`DirtyAppendLosesCount`; `AcceptedStaysCounted` has the exact condition without it); a
commit-marker write that reports an error has not put the marker there (`ForwardNeedsAllOrNothing`);
rules whose names fold together agree (`SealMayReorderCaseVariants`; every administrator's change
keeps names distinct, and `SealKeepsVerdictsExactly` has the exact condition). No transaction spends
an outpoint twice, identifiers are new, the clock does not run back, distinct passphrase and salt
pairs derive distinct seal keys, a signature verifies exactly under its own key, JSON encodings are
one line and decode to what was encoded, and public derivation fails from index 2^31 on.

## Model

| member | source | states |
|---|---|---|
| VSize.EstimateIsExactUpTo252Inputs | internal/coinselect/vsize.go:26-123 | the closed form equals the BIP-141 virtual size iff there are at most 252 inputs, and is two short up to 65535 |
| Bnb.Searcher.Dfs | internal/coinselect/select.go:264-299 | the closure mutating the path, the best choice and the counter does exactly one call of the reference search, restoring the path |
| Bnb.Run | internal/coinselect/select.go:247-307 | the whole search returns the reference search's best choice, or nothing iff there is none |
| Bnb.IterationCount | internal/coinselect/select.go:265-268 | the counter ends at the number of calls an uncapped search makes, or at the cap |
| Bnb.CallsBound | internal/coinselect/select.go:264-299 | an uncapped search over n coins makes at most 2^(n+1)-1 calls |
| Bnb.FifteenCoinsAreUncapped | internal/coinselect/select.go:47-51 | fifteen coins or fewer never reach the cap |
| Bnb.SearchSound | internal/coinselect/select.go:269-281 | with or without the cap, a returned choice is distinct positions summing into the window |
| Bnb.SearchExact | internal/coinselect/select.go:240-307 | below the cap an answer exists iff some choice sums into the window, and it has the fewest inputs and then the smallest sum |
| Bnb.WholeSetMissedIffStarved | internal/coinselect/select.go:240-307 | if everything together lies in the window, the search misses it iff the first path meets the cap while still short of the target |
| CoinSelect.Filter | internal/coinselect/select.go:97-115 | the filter loop keeps exactly the economic coins and totals their values and effective values |
| CoinSelect.PickCoins | internal/coinselect/select.go:160-165 | the picked coins are those at the chosen positions, and the sum is their value |
| CoinSelect.Knapsack | internal/coinselect/select.go:182-237 | largest-first accumulation ends at the first prefix with room for a change output, else in the changeless tail or a refusal |
| CoinSelect.Select | internal/coinselect/select.go:63-238 | the running selection equals the selection function on every input |
| CoinSelectNumbers.SelectInNumbers | internal/coinselect/select.go:33-132 | from the request's own numbers: which refusal is given when; a refusal for want of funds names the value of the coins worth more than 68 times the rate and the target with one input's fee; a result is there iff some choice pays for itself, its size is 11 and 68 per input and the outputs, its fee is size times rate with change and less than 31 rates and 294 above it without, and value is conserved |
| CoinSelectLaws.SelectConserves | internal/coinselect/select.go:33-46 | inputs = target + fee + change; each coin used at most once; change is none or at least 294 with fee exactly size times rate; a changeless fee exceeds size times rate by less than 31 rates plus 294 |
| CoinSelectLaws.GateIsExact | internal/coinselect/select.go:117-132 | the fast gate refuses iff no choice of the coins covers the target and its own changeless fee |
| CoinSelectLaws.SelectComplete | internal/coinselect/select.go:63-238 | a valid target succeeds iff some sub-multiset pays for it, so the last refusal is unreachable |
| CoinSelectLaws.TailNeedsHundredThousandCoins | internal/coinselect/select.go:206-226 | the changeless tail is reached iff the kept set is in the window and starves the capped search |
| CoinSelectLaws.SelectPrefersTight | internal/coinselect/select.go:151-180 | below the cap, whenever some choice of the economical coins pays with a surplus too small for change, the result is changeless, with no more inputs than that choice, and with as many no larger fee |
| CoinSelectLaws.ChangeUsesFewestInputs | internal/coinselect/select.go:182-208 | a result with change uses no more inputs than any choice of economical coins with room for change |
| CoinSelectLaws.SelectIgnoresOrder | internal/coinselect/select.go:134-149 | with distinct outpoints, permuting the coins gives the identical result or refusal |
| CoinSelectLaws.NoOverflow | internal/coinselect/select.go:86-226 | under the money cap and the rate cap, with 4000 coins and a 10 kvB output at most, every intermediate value fits 64 bits |
| Policies.ComputeLimits | internal/policy/evaluate.go:180-207 | the override loop yields the resolved limits of the first rule whose name folds to the network's |
| Policies.MatchPin | internal/policy/evaluate.go:250-257 | the search loop finds a pin iff one of source address folds to the destination |
| Policies.MatchSelf | internal/policy/evaluate.go:263-273 | the destination is own iff it is the change address or in the sealed snapshot |
| Policies.Judge | internal/policy/evaluate.go:79-178 | the gates in their order give exactly the verdict function's decision |
| Verdicts.VerdictFromText | internal/policy/evaluate.go:79-240 | read off the policy's own text, each verdict is given exactly when its gate is the first that refuses: denied destinations, those off an allowlist that is on, and amounts over the text of the first rule whose name is the network's but for case, or of the default where that rule is silent; null lets all pass, and a text that is no number only what is not positive |
| Verdicts.DenialFromText | internal/policy/evaluate.go:94-178 | a denial reports the number its cap's text denotes, what was attempted and, for the day, when to try again |
| Sealing.FieldWriter.LimitFields | internal/policy/body.go:149-202 | writing a limit block step by step appends its members in the fixed order, absent ones omitted or null |
| Sealing.EmitBody | internal/policy/body.go:105-239 | the step-by-step writer produces the canonical document |
| Sealing.DecodeNetworks | internal/policy/body.go:360-415 | strict decoding of all rules followed by the tri-state pass equals reading each rule once, unknown members refusing all |
| Sealing.LimitBlockRoundTrip | internal/policy/body.go:174-202 | a written limit block reads back with absent, null and value kept apart; the default block reads back full |
| Sealing.ReadAfterWrite | internal/policy/body.go:348-415 | reading a written policy gives its canonical form: sorted lists, lower-case own addresses, a full default block |
| Sealing.WriteReadWrite | internal/policy/body.go:94-104 | writing, reading and writing again gives the same document |
| Sealing.SealKeepsVerdict | internal/policy/evaluate.go:79-240 | sealing and reopening changes no verdict for any spend, window total or time |
| SealingVerdicts.SealKeepsVerdictsExactly | internal/policy/body.go:105-227 | what is read back gives every verdict alike iff sorting moves no rule of another effect in front of the first that folds to a name |
| SealingVerdicts.DifferentEffectDifferentVerdict | internal/policy/evaluate.go:79-178 | limits of different effect are told apart by some spend |
| SealingVerdicts.SealMayReorderCaseVariants | internal/policy/body.go:133-134 | two rules whose names differ only in case, one spend: over the cap before sealing, allowed after reading back |
| Administration.EditNetwork | internal/policy/admin.go:309-318 | the in-place update merges into the first matching rule or appends and sorts |
| Administration.EditPin | internal/policy/admin.go:320-335 | the in-place update relabels the first matching pin or appends one |
| Administration.CompactPins | internal/policy/admin.go:337-346 | removal in place keeps the other pins in order |
| Administration.ChangeMeans | internal/policy/admin.go:92-123 | a pin makes its list hold the address up to case, an unpin makes it not, limits given replace the default ones field by field, and all else in the policy stays |
| Administration.UpsertAllOverrides | internal/policy/admin.go:92-101 | changes to networks override the limits of exactly the networks they name up to case, one after the other |
| Administration.UpsertChangesOneNetwork | internal/policy/admin.go:291-318 | setting limits for a network overrides that network's resolved limits in the given fields and no other network's |
| Administration.UpsertPinPins | internal/policy/admin.go:320-335 | pinning an address matches that address, up to case, and nothing else new |
| Administration.RemovePinUnpins | internal/policy/admin.go:337-346 | unpinning an address stops matching it and nothing else |
| Administration.ChangeKeepsDistinct | internal/policy/admin.go:92-123 | no administrator's change makes two network names fold together |
| AdminRotation.SealedLoads | internal/policy/engine.go:90-126 | a body sealed under a pinned key at or above the watermark loads as its canonical form |
| AdminRotation.GuardedVerdict | internal/policy/engine.go:199-220 | whatever policy is on disk in a guarded state gives the verdicts of the guarded rules |
| AdminRotation.ConvergedKeepsRules | internal/policy/rotation.go:153-202 | recovery of a guarded pair leaves one pinned key, the one that sealed the policy, the same rules, no lower watermark, and is idempotent |
| AdminRotation.Guardrails.Stage | internal/policy/rotation.go:49-78 | staging succeeds iff a key is pinned, none is staged, the new passphrase is not empty and the current one authenticates |
| AdminRotation.Guardrails.Reseal | internal/policy/rotation.go:86-120 | resealing keeps the rules under the staged key, and says when the nonce rises |
| AdminRotation.RotateAfterUnlandedChanges | internal/policy/rotation.go:86-120 | two changes whose anchor never lands, then a rotation: the resealed nonce is one below the policy's before |
| AdminRotation.Guardrails.Promote | internal/policy/rotation.go:126-151 | promotion happens iff the policy verifies under the staged key, and never lowers the watermark |
| AdminRotation.Guardrails.RecoverRotation | internal/service/policy.go:228-248 | recovery lands the converged anchor or changes nothing; the policy stays guarded whatever its write meets |
| AdminRotation.Guardrails.ChangeAdminPassphrase | internal/service/policy_ops.go:263-320 | wherever the rotation stops the policy is guarded with the same rules; landed, only the new passphrase authenticates; undisturbed, it lands iff the current passphrase is right and the new one not empty |
| AdminRotation.Guardrails.Mutate | internal/policy/admin.go:157-210 | a change seals exactly the edited policy with a higher nonce, refuses iff the passphrase is wrong, and once landed the replaced policy is refused as rolled back |
| AdminRotation.Guardrails.SealAndLand | internal/service/policy_ops.go:346-373 | policy first, anchor second: at every stop the policy on disk loads |
| AdminRotation.Guardrails.Reset | internal/policy/admin.go:125-149 | a reset seals a default policy above the watermark, authenticated by the anchor alone |
| AdminRotation.Guardrails.InitSeal | internal/policy/admin.go:46-87 | bootstrap refuses an existing trust root; until the anchor lands the policy is refused, then it loads at watermark one |
| AdminRotation.DefaultAllowsAll | internal/policy/admin.go:276-289 | the policy a reset or a bootstrap seals allows every spend |
| AdminRotation.Administer | internal/policy/rotation.go:13-40 | over any run of changes, resets, rotations and reopenings cut short anywhere the policy on disk loads and the watermark never goes down; rotations alone never change the rules; a clean reopening leaves one pinned key |
| Ledger.Counter.Sum | internal/policy/counter.go:109-135 | the window loop sums exactly the rows that count |
| Ledger.Counter.Write | internal/policy/counter.go:84-161 | a write stores the pruned rows, a failed one leaves the file alone |
| Ledger.Counter.Reserve | internal/policy/engine.go:293-335 | a denial writes nothing; a grant appends one reserved row with the window charge and prunes, with the clock read three times |
| Ledger.Counter.Transit | internal/policy/engine.go:371-391 | a transition moves one row, never a committed one to released, and an unknown id changes nothing |
| Ledger.Counter.ReleaseReservation | internal/policy/engine.go:493-531 | an operator's release frees a reserved row and refuses a committed or unknown one |
| Ledger.Counter.Orphans | internal/policy/engine.go:404-440 | exactly the still-reserved rows |
| LedgerLaws.Drive | internal/policy/engine.go:268-391 | any sequence of calls on the counter object is the run that sequence describes |
| LedgerLaws.ShiftChangesOneRow | internal/policy/engine.go:371-391 | a transition changes the state of the first row with the id, and its transaction id if one is given, unless that would release a committed row; every other row stays |
| LedgerLaws.RollingSumCounts | internal/policy/counter.go:109-133 | whatever the file holds, the rolling sum is that of the reserved and committed rows with a readable amount stamped in the last 24 hours, unreadable stamps counting as such |
| LedgerLaws.PruneDrops | internal/policy/counter.go:135-163 | pruning drops exactly settled rows 24 hours old and released rows without a readable stamp, never a reserved one |
| LedgerLaws.PruningIsInvisible | internal/policy/counter.go:131-161 | at every later instant the pruned file sums to what the whole history does, and holds every reserved row |
| LedgerLaws.StepKeepsInvExcept | internal/policy/engine.go:293-391 | every locked call keeps the file tracking the history and every window within the limit, leaving out the rows taken back from released to committed |
| LedgerLaws.StepKeepsInv | internal/policy/engine.go:293-391 | so a call that commits no released row keeps every window within the limit |
| LedgerLaws.CommitBreaksExactly | internal/policy/engine.go:371-391 | a commit breaks the limit iff its row is released and its charge no longer fits some window holding its stamp |
| LedgerLaws.RunsAreSafeButForRevivals | internal/policy/engine.go:284-335 | over every run the unreleased charges of every 24-hour window stay within the day limit, leaving out the rows taken back from released to committed; so a window exceeds it by at most what those spend there |
| LedgerLaws.RunsAreSafe | internal/policy/engine.go:284-335 | over every run in which no commit meets a released row the unreleased charges of every 24-hour window stay within the day limit |
| LedgerLaws.CommittingReleasedRowsBreaksTheWindow | internal/policy/engine.go:381-384 | for every positive limit, a run that commits a released row and doubles the limit |
| Settlement.StepKeepsInv | internal/service/psbt.go:501-695 | every step of signing, journaling, broadcasting, settling, reconciling and crashing keeps the protocol's invariant |
| Settlement.AcceptedStaysCounted | internal/service/policy.go:136-206 | after any run with crashes anywhere, a reservation signed for without an error counts once some backend took its transaction; a taken transaction goes uncounted iff all its records are lines of failed appends whose rows were freed, one of them a send's |
| Settlement.CleanTransactionStaysCounted | internal/service/tx_send.go:164-195 | a transaction none of whose sends leaves a line by a failed append is counted once taken, whatever happens to others |
| Settlement.StepKeepsOrderly | internal/journal/store.go:260-278 | no broadcast of a PSBT that was handed out finds a line whose row was freed |
| Settlement.UndisciplinedIsStale | internal/service/psbt.go:644-695 | a commit of the protocol meets a released row only when a PSBT broadcast finds a line left by a failed append |
| Settlement.WindowsHoldButForStaleLines | internal/service/psbt.go:484-695 | through every run of the protocol, crashes and failed appends anywhere, the charges of every 24-hour window stay within the day limit, leaving out rows taken back from released to committed; each of these belongs to a line of a failed append, of a transaction handed out as a PSBT and taken by a backend |
| Settlement.ProtocolIsDisciplined | internal/policy/engine.go:371-391 | while broadcasts find no stale line, no commit of the protocol meets a released row, and its ledger calls are the ledger's own |
| Settlement.WindowHoldsThroughTheProtocol | internal/service/psbt.go:484-575 | through whole protocol runs the day limit holds in every window, if no failed append leaves a line for a transaction whose PSBT was handed out, nor a PSBT is handed out over a send's such line |
| Outcomes.SettledIs | internal/service/psbt.go:649-695 | an answer settled with every write working leaves exactly the record found and its row changed, as the answer says |
| Outcomes.OneMore | internal/service/policy.go:176-206 | one orphan reconciled with every read and write working meets its fate, and no other row changes |
| SettlementNeeds.StaleLineBreaksTheWindow | internal/service/psbt.go:558-575 | a run in which a PSBT is signed again, its append fails after its line, and the first one's broadcast commits the freed row: three charges under a limit for two |
| SettlementNeeds.StaleSendBreaksTheWindow | internal/service/tx_send.go:538-570 | the same through a send's stale line, rebroadcast before the PSBT of its transaction |
| SettlementNeeds.DirtyAppendLosesCount | internal/service/tx_send.go:538-570 | a run in which a send's failed append has left its line, the row is released, and the line is rebroadcast and accepted |
| SettlementNeeds.FickleAnswersLoseCount | internal/service/psbt.go:669-695 | a run in which an accepted transaction is later rejected and its row released |
| Outflow.FindOwned | internal/service/psbt.go:332-350 | exactly the inputs whose reported script is the wallet's, in order |
| Outflow.VerifyOwnedValues | internal/service/psbt_helpers.go:39-72 | the backend's value where it knows the coin, the reported one elsewhere |
| Outflow.Classify | internal/service/psbt.go:381-406 | outputs split by script into change and external, both summed, the change address the first that renders |
| Outflow.ExternalIs | internal/service/psbt.go:392-406 | an output is external iff its script is not the wallet's |
| Outflow.DeriveCharge | internal/service/psbt.go:355-425 | the running derivation equals the charge function: what is owned and its value, the change and external sums, the split and the rate |
| Outflow.ChargeNamesOwn | internal/service/psbt.go:333-397 | there is a charge iff some input claims a script of the wallet's, and its change address is the first of the wallet's own outputs that renders, or empty iff none does |
| Outflow.RateInNumbers | internal/service/psbt_helpers.go:84-145 | the rate is the fee over the size: the inputs' worth less the outputs when all inputs are owned, else the reported fee, else the wallet's loss, never below 0 |
| OutflowLaws.ChargeIsTheLoss | internal/service/psbt.go:375-423 | amount plus fee is what the wallet's balance falls by when the transaction confirms, less the gap between what the chain holds at the inputs and what they are valued at, or 0; so the charge is the loss iff there is no gap, or neither the loss nor what the gap leaves of it is positive; the amount is negative iff the external sum is |
| OutflowLaws.GapIsTheUnclaimed | internal/service/psbt.go:333-350 | with a backend that knows the coins signed for, there is no gap iff every coin of the wallet that is spent is claimed with its script |
| OutflowLaws.SoleOwnerPaysExactly | internal/service/psbt.go:408-423 | a wallet that owns every input is charged the external sum and the exact fee, at the fee's rate |
| OutflowLaws.SigningsCoverExactly | internal/service/psbt.go:333-575 | however often one transaction is signed, the charges cover its loss iff the gaps of the signings that charged sum to at most one loss less than their number |
| OutflowLaws.OneFullSigningCovers | internal/service/psbt.go:333-575 | one signing without a gap covers the loss |
| OutflowLaws.ShortfallIsTheChange | internal/service/psbt.go:333-575 | when every coin is charged for in some signing, the charges fall short by at most the change once per further signing |
| OutflowLaws.UnclaimedCoinsAreNotCharged | internal/service/psbt.go:332-350 | one of two coins left unclaimed: charged 100 for a loss of 1100; two such signings sign the transaction for 200 |
| OutflowLaws.UnknownCoinsTrustTheReport | internal/service/psbt_helpers.go:41-48 | offline, a PSBT that understates its input by 1000 is charged nothing for a loss of 1000 |
| Recipients.ScriptsCover | internal/service/psbt.go:457-462 | the checked scripts are exactly the external ones |
| Recipients.Screen | internal/service/psbt.go:444-487 | each distinct external script is checked in order, the first denial standing |
| Recipients.ScreenedPaysOnlyAllowed | internal/service/psbt.go:444-487 | past the screen, every external output pays a destination the lists let pass |
| Recipients.AllowedExactly | internal/service/psbt.go:444-511 | while no row ages out, screen and reservation allow exactly what pays only destinations the lists let pass and fits the caps as a whole; the zero-amount checks add nothing to the caps |
| Recipients.NamelessIsRefused | internal/service/psbt.go:447-508 | under an allowlist a PSBT with no external output, or one whose script has no address, is refused, whatever its change address |
| Signing.TraceKeepsInv | internal/service/psbt.go:501-695 | a sensible run keeps the protocol's invariant |
| Signing.Service.ReconcileOrphans | internal/service/policy.go:162-206 | the reconcile loop, its reads and writes failing or cut short anywhere, is a run of the protocol; undisturbed, a reserved row with no record or a failed one is released, one with a broadcast or confirmed record committed, one with a signed record still reserved, and nothing else changes |
| Signing.Service.PSBTSign | internal/service/psbt.go:501-575 | signing is a run of the protocol: the reservation precedes the signature and the record precedes handing out; a PSBT handed out has its reserved row and its signed record; undisturbed, it is handed out iff the policy allows the spend |
| Signing.Service.SignPacket | internal/service/psbt.go:333-575 | a PSBT handed out pays, in every output that is not the wallet's, a destination the lists let pass given the first own address among the outputs, and has a reserved row charging the wallet's net outflow, which fitted the caps on top of the window as it stood at some instant of the call; undisturbed, while no row ages out, it is handed out iff an input is the wallet's and the policy permits all that |
| Signing.Service.FindLatest | internal/journal/store.go:260-278 | the latest record carrying the transaction id |
| Signing.Service.PSBTBroadcast | internal/service/psbt.go:634-695 | broadcasting is a run of the protocol; undisturbed, the latest record of the transaction becomes broadcast and its reserved row committed when accepted, failed and released when rejected, and both stay when no backend answers |
| KeyRotation.KeyDir.SwapOne | internal/keys/passphrase.go:317-343 | one rename, a missing staged copy of an existing file counting as done |
| KeyRotation.KeyDir.SwapStaged | internal/keys/passphrase.go:317-343 | the renames keep the directory recoverable wherever they stop, and finished leave every file under the new passphrase |
| KeyRotation.KeyDir.RecoverRotation | internal/keys/passphrase.go:345-390 | recovery with a marker finishes the renames, without one removes what is staged, and may itself be cut short and repeated |
| KeyRotation.KeyDir.StageAll | internal/keys/passphrase.go:100-150 | staging re-encrypts the manifest and every listed wallet and touches no live file |
| KeyRotation.KeyDir.CommitAndSwap | internal/keys/passphrase.go:150-189 | before the marker nothing has changed; after it the directory is recoverable to the new passphrase |
| KeyRotation.KeyDir.HasOrphanBlobs | internal/keys/passphrase.go:207-231 | found iff some wallet file is missing from the metadata |
| KeyRotation.KeyDir.RotationFileSet | internal/keys/passphrase.go:193-205 | exactly the manifest and the listed wallets, sorted |
| KeyRotation.KeyDir.ChangePassphrase | internal/keys/passphrase.go:68-189 | all or nothing at every stop; a wrong passphrase or an orphan refuses without change; undisturbed, on files under one passphrase, it rotates iff that is the one given, with the verifier renewed |
| KeyRotation.RotateThenReopen | internal/keys/passphrase.go:345-390 | after any rotation and any reopenings with faults, a finished recovery leaves every file opening under one passphrase, old or new, contents unchanged, no marker |
| KeyRotation.RotateAcrossRuns | internal/keys/passphrase.go:68-189 | any sequence of rotations and reopenings, each cut short anywhere, stays recoverable to the last acknowledged passphrase or one begun since; an undisturbed reopening ends under one of these, nothing staged, no marker |
| KeyRotation.ForwardNeedsAllOrNothing | internal/keys/passphrase.go:150-170 | rolling forward from all-old files is safe iff all staged copies are there or none |
| Lines.SegmentsJoin | internal/journal/store_jsonl.go:207-215 | splitting is exact: the segments, joined, are the data, and hold no line feed |
| Lines.AfterLastLineFeed | internal/journal/store_jsonl.go:86-91 | the cut position is the start of the unterminated tail |
| Journal.FoldLatest | internal/journal/store.go:343-354 | the fold loop keeps, per id, the last line of the highest number |
| Journal.FoldIsLatest | internal/journal/store.go:343-354 | the fold holds every id on file with a line of its highest number |
| Journal.LastOfTheHighest | internal/journal/store.go:343-354 | of the lines of an id, the last of those with its highest number is its record |
| Journal.AppendIsAtomic | internal/journal/store_jsonl.go:103-137 | for every byte prefix of an appended line a reader sees the old records, or the old and the new |
| Journal.EncodeAllReads | internal/journal/store_jsonl.go:187-197 | a rewritten file reads back as the records written |
| Journal.ExchangeSort | internal/journal/store_jsonl.go:179-185 | the nested in-place exchanges give a permutation sorted by number |
| Journal.SnapshotIsUnique | internal/journal/store_jsonl.go:172-185 | with distinct numbers the snapshot is the same whatever order the map is walked in |
| Journal.FoldOfList | internal/journal/store_jsonl.go:168-171 | any listing of the folded records folds to the same map |
| Journal.ListKeepsMaxSeq | internal/journal/store_jsonl.go:168-171 | compaction keeps the highest number |
| JournalStore.RepairKeepsRecords | internal/journal/store_jsonl.go:83-101 | cutting a torn tail changes no record, so repairing and other reads agree |
| JournalStore.Store.ReadAll | internal/journal/store_jsonl.go:36-81 | a read returns the records of the terminated lines and their highest number, and repairs exactly a torn tail |
| JournalStore.Store.AppendLine | internal/journal/store_jsonl.go:108-137 | some prefix of the line reaches the file, all of it on success |
| JournalStore.Store.Compact | internal/journal/store_jsonl.go:172-205 | on success the file lists the folded records once each, sorted; on failure it is unchanged |
| JournalStore.Store.MaybeCompact | internal/journal/store_jsonl.go:145-166 | the fold and the highest number are unchanged; the file is rewritten only from 5000 superseded lines or 8 MiB on, and on success fewer than 5000 lines are superseded |
| JournalStore.Store.Append | internal/journal/store.go:132-168 | the folded map gains the record under the next number, schema version, id and time filled in if missing, or nothing changes; on success it has gained it |
| JournalStore.Store.SetState | internal/journal/store.go:170-196 | a known id moves to its transitioned record or not at all; an empty or unknown one changes nothing |
| JournalStore.Store.ByTxid | internal/journal/store.go:257-278 | a record with the txid and the highest number, none iff there is none |
| JournalStore.Store.Unresolved | internal/journal/store.go:280-297 | each record that is signed or broadcast once, newest first |
| JournalStore.StepLosesNothing | internal/journal/store.go:343-354 | a mutation loses no id and lowers no number |
| JournalStore.Replay | internal/journal/store.go:130-196 | over any run of calls with failures and torn writes anywhere, line numbers rise and no acknowledged record is lost or rolled back |
| JournalLink.AppendIsJournaling | internal/journal/store.go:136-172 | an append is a journaling step of the protocol: acknowledged it is written; otherwise its line is on file or nothing changed |
| JournalLink.SetStateIsStatus | internal/journal/store.go:174-196 | a transition on file is the protocol's status change, all of it or nothing |
| JournalLink.LookupIsLatest | internal/journal/store.go:260-278 | the record found by transaction id is the protocol's latest |
| Ulid.SymbolsAreDigits | internal/journal/id.go:66-102 | the packed symbols are the 26 base-32 digits of the 128-bit value |
| Ulid.EncodeULID | internal/journal/id.go:68-102 | masking then shifting spells those digits |
| Ulid.EncodeCrockford | internal/policy/id.go:33-62 | shifting then masking spells the same digits, so the two encoders agree on every input |
| Ulid.EncodingKeepsOrder | internal/journal/id.go:11-13 | identifiers compare as strings exactly as their values compare |
| Ulid.EncodingIsInjective | internal/journal/id.go:66-102 | different identifiers have different texts |
| Ulid.TimeOrder | internal/journal/id.go:46-64 | identifiers of different milliseconds sort by time whatever their random parts |
| Ulid.NewULIDAt | internal/journal/id.go:46-64 | a fresh identifier is the encoding of the time stamp and the random bytes |
| Amounts.DenotesByEight | internal/domain/amount.go:118-136 | the eight digits that count give exactly the value a text denotes, and a later non-zero digit means it denotes no whole satoshi |
| Amounts.ReadDigits | internal/domain/amount.go:139-151 | the capped 64-bit digit loop is exact, refuses iff a non-digit or over the cap, and never overflows |
| Amounts.ParseSatSuffix | internal/domain/amount.go:94-116 | the whole-satoshi body, exact up to the cap |
| Amounts.ParseBTCBody | internal/domain/amount.go:118-153 | the decimal body, exact up to the cap |
| Amounts.ParseAmountToSats | internal/domain/amount.go:32-55 | an amount is what its text means, and a refused text means nothing or more than the cap |
| Amounts.WholeAmounts | internal/domain/amount.go:32-116 | digits mean so many satoshis before sat or sats, and so many coins before btc or alone, and no other number |
| Amounts.PointAmounts | internal/domain/amount.go:118-153 | digits, a point and up to eight digits mean exactly the number of coins they denote |
| Amounts.DecimalBTCToSats | internal/backend/amount.go:24-60 | refuses iff the text denotes no whole satoshis, else the signed value modulo 2^64 |
| Amounts.ParseFeeRate | internal/service/fee.go:112-142 | accepted iff digits within the relay floor and the cap, with their value |
| Amounts.SatsToBTC | internal/domain/chain.go:56-94 | prints whole coins and eight digits for every amount but the least |
| Amounts.ShownDenotes | internal/domain/chain.go:56-78 | the printed text denotes the amount and no other |
| Amounts.PrintThenParse | internal/domain/amount.go:12-55 | printing then parsing gives the amount back iff it is between 0 and 21e14 |
| Amounts.PrintThenRead | internal/backend/amount.go:19-60 | printing then reading in the backend gives the amount back iff it is not the least 64-bit value |
| AddressKeys.ParseUint32 | internal/keys/meta.go:281-300 | accepts exactly the canonical prints of 32-bit numbers, with their value |
| AddressKeys.ParseAddressKey | internal/keys/meta.go:264-279 | reads back exactly the printed keys |
| AddressKeys.CanonicalIsPrint | internal/domain/wallet_ref.go:71-85 | a canonical text is the print of its number |
| AddressKeys.KeyInjective | internal/domain/wallet_ref.go:59-64 | different branches or indices have different keys |
| Derivation.MigrateV1 | internal/keys/meta.go:159-202 | migration fails iff a network is unknown, and else makes each old wallet a bound one with its single chain, coin 0 for mainnet and 1 elsewhere, watermarks and addresses kept |
| Derivation.CheckWatermark | internal/keys/meta.go:225-255 | the opening check passes iff every recorded address has a canonical key below its branch's watermark |
| Derivation.AdvanceKeepsSound | internal/keys/account.go:86-98 | recording the next index keeps the check passing, and its key was not recorded before |
| Derivation.Keystore.DeriveNext | internal/keys/account.go:50-114 | allocates the first unused index of the network's coin, never one handed out before, and reports it, with its address on the caller's network, only once on disk; the file gains exactly the address of that index on the coin's canonical network under its key, or is as it was; undisturbed it is refused only when there is no such chain or no such address |
| Derivation.Keystore.CreateWallet | internal/keys/wallet.go:152-274 | a new wallet has, for each network it serves, a chain made from that network's account key with its first address, and nothing else changes; undisturbed it is refused iff the name is taken or a first address does not derive; nothing handed out can be handed out again |
| Derivation.Keystore.WalletUpgrade | internal/keys/wallet.go:276-356 | a bound wallet becomes agnostic with a chain for either coin, the missing ones made from the account key, existing chains untouched, nothing handed out twice; undisturbed it is refused only when no bound wallet has the name or a first address does not derive |
| Derivation.Drive | internal/keys/keys.go:56-105 | over any run of creations, upgrades and allocations on any networks, whatever the writes meet, no slot is handed out twice, every opening passes, and addresses that were the ones their keys derive stay so |
| Combine.CombineParts | internal/psbt/combine.go:21-54 | merges into a fresh copy changing no part; refuses iff no parts or parts of different transactions or shapes |
| Combine.MergeInputInto | internal/psbt/combine.go:70-91 | the in-place merge of one input is the merge of the two values |
| Combine.UnionLookup | internal/psbt/combine.go:78-87 | a union has both sides' keys and a shared key keeps the left entry |
| Combine.FirstPartWins | internal/psbt/combine.go:21-54 | every list of signatures or derivation hints has the union of the keys over all parts, and every key keeps the entry of the first part that has it |
| Combine.FirstFieldsWin | internal/psbt/combine.go:70-91 | the spent output, the spent transaction and the signature hash type of an input are those of the first part that has them |
| Combine.MergeAssociative | internal/psbt/combine.go:70-100 | merging is associative |
| Combine.MergeIdempotent | internal/psbt/combine.go:70-100 | merging a packet with itself changes nothing |
| Combine.CombineInGroups | internal/psbt/combine.go:26-54 | combining in groups is combining all at once |
| Combine.OrderKeepsKeys | internal/psbt/combine.go:26-54 | the order of the parts changes no key set of any input or output |
| Combine.SwapKeepsEntry | internal/psbt/combine.go:78-87 | two orders give a key the same entry iff the sides do not disagree on it |

## Left out

- Cryptography: key derivation, encryption, signatures, the script engine and address encoding are ideal functions of their inputs.
- The real file system: locks, fsync, permissions and the directory-fsync path that reports an error after a rename.
- HTTP backends, dialing and the classification of broadcast answers; an answer is accepted, rejected or exhausted.
- Replacement by fee, abandoning, waiting for confirmations beyond one observation, and the permissive mode without a policy.
- Outflow: the address scan that finds the wallet's scripts, and the fee the PSBT library computes, are inputs; 64-bit sums do not wrap; the signings of one transaction see one backend view.
- Recipients.AllowedExactly: one window total for all the checks, since a row that ages out between them makes a later check laxer; `ScreenedExactly` has each check's own.
- Settlement: one network and one process at a time; recovery is not concurrent with a live send; the operator's release of a reservation is a step of the ledger only; a PSBT broadcast here is one that signing handed out.
- Signing: covers the PSBT commands and reconciliation; the send command is a run of the protocol in Settlement only. Its journal is a map; `JournalLink` relates the file to that map, replaced records apart.
- Ledger: the spend sums are unbounded integers, as the arbitrary-precision window sum is; the 64-bit sums of amount and fee do not wrap in the model.
- AdminRotation: nonces and watermarks do not wrap at 2^64, scrypt parameters never change, and emitting an anchor to a staging path is not modelled.
- JournalStore: sequence numbers do not wrap at 2^64, an absent file is an empty one, and several networks are several stores.
- Journal.AppendIsAtomic: records carry their unread fields as one text, and the encoder is any that satisfies `Faithful`.
- Sealing: the body is a JSON value; separators, number syntax, member names matched without case and duplicate nested members are not modelled.
- Sealing.ReadAfterWrite: every refusal is one outcome, without the version and writer its message names.
- Policies.Judge: Unicode case folding beyond ASCII, and the wording of denials.
- Policies.ComputeLimits: Unicode case folding beyond ASCII.
- Policies.MatchPin: Unicode case folding beyond ASCII.
- Policies.MatchSelf: Unicode case folding beyond ASCII.
- Lines: a file is its bytes, so white space is the ASCII kind; encoded Unicode spaces around a line that is no record are not trimmed.
- VSize: dust thresholds of arbitrary scripts; the selection uses only the P2WPKH threshold of 294.
- Combine.CombineParts: the base copy goes through serialization and back, which also sorts; the model copies.
- Derivation: a chain stored as JSON null, wallet-name grammar, and the rendering of the result.
- Ulid.NewULIDAt: a failing entropy source, and times before the epoch or past 48 bits.
- Command line, server, rendering, prompts, configuration, contacts and network selection.
