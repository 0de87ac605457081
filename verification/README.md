# A verified model of the Liquid wallet kit's stateful cores

The wallet kit has three parts in which correctness is a matter of whole runs rather than of single
functions. This project models them in Dafny and proves what they are for.

**The swap engine** (`lwk_boltz`). Submarine, reverse and chain swaps are machines driven by status
updates that the server broadcasts to every swap of a session. A call of `advance` takes the next update
that carries the swap's own id, may claim or refund on the chain, and writes the swap's record and the
lists of pending and completed swaps to a key-value store. `SwapTypes`, `ReverseSwap`, `SubmarineSwap`,
`ChainSwap` and `Swap` model one step and the stored forms; `SwapStore` and `SwapLists` the store;
`SwapSystem` a session of any number of swaps with a nondeterministic server and chain; `SwapRuns` the
invariants of a run; `SwapRestart` when restarts are invisible; `SwapLockup` when a lockup is forgotten;
`SwapUpdates` which updates a swap gets to handle; `SwapOutcomes` exactly what each call answers, told from update,
data and world; `SwapFunds` which transactions go out, where to, and what success says about them; `SwapHistory`
the pending list told from events; `SwapQuotes` that claims deliver what was quoted; `SwapResponses` has the responses
as the objects they are, updated in place and proved equal to the steps, and `SwapCompletion` ties running them to
the end to runs of the session.

**The app server** (`lwk_app`). The server keeps a log of requests, appends to it, rewrites it as a
snapshot when something is unloaded, and replays it at the next start. `AppModel` models state, requests
and log; `AppInvariants` what every request keeps; `AppSnapshot` that a snapshot rebuilds its state, in
whatever order hash maps are iterated; `AppReplay` that a restart at any point of any run gives back the
live state; `AppSigners` what becomes of signers over runs; `AppServer` has the server as an object, updated in
place. `ScanLoop` models the scanner thread, its periodic wait and its handshake with the callers of `scan` as a state
machine over all interleavings.

**Exact arithmetic.** `Quote` models the quotes of `lwk_boltz`, `Balance` the difference of balances of
`lwk_common`.

## How the model reads

- Cryptography, descriptors, invoices and transactions are abstract types. What libraries compute about
  them are function fields of `Session` and `Env`; the only laws assumed are in their `Lawful` predicates:
  printed texts parse back, and reissuance tokens are distinct, are not issued assets and are not the policy asset.
- Whatever the network, the chain, the server or a device answers is an argument (`Answers`, `World`,
  the list of published updates), so every theorem is about all answers.
- A session has a store, as the restart and list properties need one. Store operations are atomic and
  succeed, except in the crash lemmas, which cut the completion sequence at each write.
- A response that is dropped and restored continues with the updates the dropped one had not read. Each
  server id is given to one swap, and there is one live response for it.
- The percentage of a quote is an exact rational below one. Amounts and the scan counters are unbounded,
  the 64-bit wrap-around of `Balance - Balance` is modelled as in a release build.
- A snapshot replaces the log file in one step, as the rename in the source does.

## What turned out not to hold

Where a property fails of the code, a lemma shows that it happens and another states exactly when it holds.

- Signers do not always keep distinct fingerprints. A Jade behind an emulator is accepted without a look at its identity,
  so two can be loaded whose ids share a fingerprint, and clash once both are away (`AppSigners.MislabelledClash`).
  Signers stay apart through all connects and disconnects exactly if no two share a fingerprint they report or fall
  back to (`AppSigners.StayApartIff`, `AppSigners.ApartAlongRunIff`); along a run they are distinct exactly if no Jade is
  disconnected whose id has the fingerprint that another signer shows (`AppSigners.DistinctAlongRunIff`).
- A restart does not always succeed: exactly if the emulators are reachable and the signers the log makes are distinct
  (`AppReplay.RestartRestores`); with honest emulators, exactly if they are reachable (`AppSigners.HonestRestart`).
- A software signer that asked not to be persisted can be in the log (`AppSigners.UnpersistedGetsLogged`): exactly if the
  log was rewritten while it was live and it was live ever since (`AppSigners.UnpersistedIsLoggedIff`).
- Removing an asset leaves its token behind in memory and not in the log, so that assets come back as they were exactly
  if each asset stands beside its token (`AppReplay.RestartRestores`, `AppReplay.AssetRemovalIsForgotten`).
- A chain swap can claim and refund any number of times (`SwapFunds.ChainMovesPileUp`): as often as calls are made on an
  update that asks for it while the world lets it go out (`SwapFunds.MovesAreCounted`, `SwapFunds.AtMostOnceIff`).
- A reverse swap can report success although no claim of ours went out (`SwapFunds.ReverseSuccessWithoutClaim`); it did
  exactly if the data said so (`SwapFunds.ReverseSuccessClaimedIff`).
- A crash between the writes that end a swap is repaired at restore only for terminal states
  (`SwapHistory.CrashLeavesPending`, `SwapLists.CrashRecoveryOfSwap`).
- A swap whose first status is terminal is not on the completed list until it is restored or a call completes it, so
  that memory and store do not agree from the start (`SwapRuns.CreationSettles`). A restart is invisible exactly if
  the store reads back as what memory holds (`SwapRestart.RestartIsInvisibleIff`).
- A known lockup txid can be forgotten (`SwapLockup.FailedClaimForgets`): exactly by an `advance` of a chain swap that is
  told of a lockup in the mempool without being told which, or by a restart from a record that lacks the txid and
  that learns none from the server (`SwapLockup.LockupForgottenIff`).
- Chain swap records read back with regtest labels (`ChainSwap.RoundTrip`); no step depends on the label.
- Sending one satoshi less than a receive quote asks for yields less only for a positive amount, and the quotes of
  amounts below the fees do not add up (`Quote.ReceiveQuoteIsExactAndMinimal`, `Quote.QuoteConserves`).
- After the app is stopped, a caller of `scan` may wait for ever (`ScanLoop.StoppedScanHangs`,
  `ScanLoop.StoppedScanNeverReturns`).

## Model

| member | source | states |
|---|---|---|
| `AppReplay.RestartRestores` | lwk_app/src/lib.rs:128-148 | At any point of any run of requests, compactions and restarts, whatever devices report: a restart succeeds if and only if the emulators in the log are reachable and no two of the signers the log makes have the same fingerprint; it then gives back exactly the wallets, both kinds of memos and the registered assets, and of the signers those whose load is logged, with at most unpersisted software signers missing; all assets are as before if and only if assets and tokens are tied |
| `AppReplay.BootIff` | lwk_app/src/lib.rs:138-142 | Any log whose other lines boot and whose signer lines are readable and of distinct names boots if and only if its emulators are reachable and the signers it makes are distinct, and what it then gives |
| `AppReplay.RestartAgain` | lwk_app/src/lib.rs:128-148 | Restarting with other devices at hand gives the same state but for connections |
| `AppReplay.LogOnlyAdds` | lwk_app/src/state.rs:543-572 | In every run the log holds only loads, memos and asset insertions |
| `AppReplay.InvAlways` | lwk_app/src/lib.rs:284-431 | In every reachable state the log stands for the state in memory |
| `AppReplay.RequestAgrees` | lwk_app/src/lib.rs:315-431 | Whatever a request does to state and log, and whatever the world answers, the new log stands for the new state |
| `AppReplay.InvRestart` | lwk_app/src/lib.rs:128-148 | A restart keeps the agreement of log and state |
| `AppReplay.SnapshotAgrees` | lwk_app/src/state.rs:557-574 | A compacted log stands for the state, in whatever order it was written, and holds every live signer |
| `AppReplay.SignerLoadAgrees` | lwk_app/src/lib.rs:390-420 | A signer accepted live is in the log from then on and can be read back from it, unless it asked not to be persisted |
| `AppReplay.AssetRequestsAgree` | lwk_app/src/lib.rs:1267-1302 | An asset fetched from the registry is logged with all it takes to insert it again without the network |
| `AppReplay.GetAvailableAgrees` | lwk_app/src/state.rs:308-359 | Connecting and disconnecting Jades never invalidates the log |
| `AppReplay.AssetRemovalIsForgotten` | lwk_app/src/state.rs:513-519 | Removing any one asset from a tied collection is never restored as it was |
| `AppSigners.StayApartIff` | lwk_app/src/state.rs:308-359 | Signers keep distinct fingerprints through all connects and disconnects if and only if no two share a fingerprint they report or fall back to |
| `AppSigners.ApartAlongRunIff` | lwk_app/src/state.rs:361-376 | Along a run no two signers ever share such a fingerprint if and only if no load and no restart brings one that is taken |
| `AppSigners.DistinctAlongRunIff` | lwk_app/src/state.rs:328-348 | Along a run signers have distinct fingerprints at every point if and only if no Jade is disconnected whose id has the fingerprint that another signer shows |
| `AppSigners.MislabelledClash` | lwk_app/src/state.rs:52-68 | A run of two loads and two disconnects after which two signers have one fingerprint |
| `AppSigners.MislabelledSnapshot` | lwk_app/src/state.rs:52-68 | No snapshot taken after such loads boots anywhere |
| `AppSigners.WalletsAlwaysApart` | lwk_app/src/state.rs:254-278 | In every run no two wallets share their first address |
| `AppSigners.HonestSignersApart` | lwk_app/src/state.rs:308-376 | With honest emulators signers are genuine and have distinct fingerprints in every state |
| `AppSigners.HonestRestart` | lwk_app/src/lib.rs:401-410 | With honest emulators a restart succeeds if and only if those in the log are reachable |
| `AppSigners.UnpersistedIsLoggedIff` | lwk_app/src/lib.rs:396-398 | At any point of any run a live software signer that asked not to be persisted is in the log if and only if the log was rewritten at some point since which the signer was live all along |
| `AppSigners.UnpersistedGetsLogged` | lwk_app/src/state.rs:630-679 | A run in which that happens |
| `AppSigners.UnloadedSignerStaysGone` | lwk_app/src/lib.rs:421-431 | In every run a signer that is unloaded is neither live nor logged from then on, through all requests, compactions and restarts, until a signer of that name is loaded |
| `AppSigners.UnloadedWalletStaysGone` | lwk_app/src/lib.rs:359-366 | So a wallet that is unloaded, and all its memos |
| `AppSnapshot.SnapshotBoots` | lwk_app/src/state.rs:576-690 | A snapshot in any order boots if and only if no fingerprints clash once Jades are unconnected; it then restores wallets, memos and registry data exactly, signers unconnected, and assets tied |
| `AppSnapshot.WolletLinesReplay` | lwk_app/src/state.rs:579-592 | The wallet lines, in any order, load exactly those wallets |
| `AppSnapshot.TxMemoLinesReplay` | lwk_app/src/state.rs:594-610 | The transaction memo lines, in any order, set exactly those memos |
| `AppSnapshot.AddrMemoLinesReplay` | lwk_app/src/state.rs:612-628 | The address memo lines, in any order, set exactly those memos |
| `AppSnapshot.SignerLinesReplay` | lwk_app/src/state.rs:630-679 | The signer lines, in any order, are all accepted if and only if the unconnected fingerprints are distinct |
| `AppSnapshot.AssetLinesReplay` | lwk_app/src/state.rs:681-686 | The asset lines, in any order, restore exactly the registry data, each asset beside its token |
| `AppSnapshot.TiedUnique` | lwk_app/src/state.rs:497-511 | Tied assets are determined by their registry data |
| `AppSnapshot.InsertAssetTied` | lwk_app/src/state.rs:497-511 | Insertion keeps assets and tokens tied, also when it replaces an asset |
| `AppSnapshot.RemovalUnties` | lwk_app/src/state.rs:513-519 | Removing any entry unties the rest |
| `AppInvariants.HandleKeepsOk` | lwk_app/src/lib.rs:284-431 | Every request, whatever the world answers, keeps first addresses distinct, memos with loaded wallets and asset data consistent |
| `AppInvariants.HandleKeepsSigners` | lwk_app/src/state.rs:308-376 | Loads, unloads, connections and disconnections keep fingerprints distinct as long as emulators are honest |
| `AppInvariants.WalletLoadIff` | lwk_app/src/state.rs:254-278 | In any state, a wallet is accepted if and only if it parses, is on the configured network, it and all others have a first address, and neither its name nor its first address is taken; it is then found under its name and nothing else changed |
| `AppInvariants.SignerLoadIff` | lwk_app/src/state.rs:361-376 | A signer is accepted if and only if it can be made and neither its name nor its fingerprint is taken; it is then found under its name and nothing else changed |
| `AppInvariants.SignerUnloadIff` | lwk_app/src/lib.rs:421-431 | Unloading a signer succeeds if and only if the name is loaded; then exactly that signer is gone, nothing else changed and the log is rewritten; otherwise nothing changes at all |
| `AppInvariants.SignerUnloadUndoesLoad` | lwk_app/src/state.rs:378-382 | Loading a signer and unloading it gives back the state before |
| `AppInvariants.SignerCanBeLoadedAgain` | lwk_app/src/state.rs:361-382 | After unloading, name and fingerprint are free: a request that makes the signer that was there is accepted and gives back the state before |
| `AppInvariants.UseSignerIff` | lwk_app/src/state.rs:308-359 | A signer is available if and only if it is a software signer, a Jade that answers or one that is found; exactly which signer is there afterwards, and that nothing else changed |
| `AppInvariants.MemoRequestsIff` | lwk_app/src/lib.rs:1022-1042 | A memo is set if and only if its wallet is loaded and its key parses, and is then read back; only the memos of that kind change |
| `AppInvariants.AssetInsertIff` | lwk_app/src/lib.rs:1267-1278 | An asset is inserted if and only if all three texts parse and the transaction issues it under the contract; then exactly it and its token are there with that data |
| `AppInvariants.AssetFetchIff` | lwk_app/src/lib.rs:1287-1302 | An asset is fetched if and only if it is not there yet, and registry and chain have data that issues it |
| `AppInvariants.AssetRemoveIff` | lwk_app/src/lib.rs:1279-1286 | An entry is removed if and only if it is there, and it alone |
| `AppInvariants.MemoReadsBack` | lwk_app/src/state.rs:432-445 | A memo that is set is read back, and no other memo of any wallet changes |
| `AppInvariants.UnloadUndoesLoad` | lwk_app/src/lib.rs:359-366 | Loading a wallet, giving it any memos and unloading it gives back the state before, to the last memo |
| `AppInvariants.LoadUndoesUnload` | lwk_app/src/lib.rs:315-366 | A wallet that was unloaded can always be loaded again from its descriptor, and only its memos are lost |
| `AppServer.Start` | lwk_app/src/lib.rs:100-148 | The start loop succeeds exactly if the log boots, ends in the booted state, and leaves the file as it was |
| `AppServer.Server.Serve` | lwk_app/src/lib.rs:278-431 | Serving a request moves state and file as one step of the model, and refuses exactly when the model does |
| `AppServer.Server.AsRequests` | lwk_app/src/state.rs:576-690 | The loops over the maps write a snapshot of the state in some order of iteration |
| `AppServer.Server.AddWollet` | lwk_app/src/state.rs:254-278 | The scan of all first addresses accepts exactly a new name with a first address no wallet has |
| `AppServer.Server.AddSigner` | lwk_app/src/state.rs:361-376 | Accepts exactly a new name with a fingerprint no signer has |
| `AppServer.Server.Available` | lwk_app/src/state.rs:308-359 | The signer found, replaced or refused is the one of the model |
| `AppServer.Server.NamesMatchingFingerprint` | lwk_app/src/state.rs:388-401 | Lists every signer with the fingerprint once, and no other |
| `AppServer.Server.NameFromFingerprint` | lwk_app/src/state.rs:404-421 | Names a signer with the fingerprint, finds none exactly if there is none, and warns exactly if there are several |
| `ScanLoop.ScanWaitsForWholeLoop` | lwk_app/src/lib.rs:1418-1436 | In every interleaving, when `scan` returns, some loop began after the call and completed before the return, over at least the wallets loaded since the call |
| `ScanLoop.WholeLoopVisitsAll` | lwk_app/src/lib.rs:187-211 | A whole loop looks at every wallet on its list, scans those still loaded and passes over the others, unless no client could be made |
| `ScanLoop.NoLostWakeUp` | lwk_app/src/lib.rs:161-185 | While a caller's loop has not begun the flag is up, and the scanner does not go back to sleep |
| `ScanLoop.LoopBeginsSoon` | lwk_app/src/lib.rs:159-186 | Whatever others do, the scanner begins the caller's loop within a number of its own steps that is known at the call |
| `ScanLoop.LoopEndsSoon` | lwk_app/src/lib.rs:187-221 | A loop that has begun completes within two steps of the scanner for each wallet and two more, stopped or not |
| `ScanLoop.ReleasedSoon` | lwk_app/src/lib.rs:1418-1436 | Whatever others do, the loop a caller waits for is completed within the steps known at the call, two for each wallet on its list and two more, unless the app is stopped before it begins |
| `ScanLoop.NextLoopBegins` | lwk_app/src/lib.rs:159-177 | With or without calls, as long as the app runs, the scanner begins its next loop within two of its own steps for each started 100 ms of the period, two more, and those left of the loop it is in |
| `ScanLoop.PeriodIsSleptOut` | lwk_app/src/lib.rs:165-175 | Between one loop and the next, if no call comes in, it sleeps exactly once for each started 100 ms of the period |
| `ScanLoop.FirstLoopDoesNotWait` | lwk_app/src/lib.rs:158-173 | Before the first loop it never sleeps |
| `ScanLoop.StoppedScannerLeaves` | lwk_app/src/lib.rs:163-165 | Once the app is stopped, no loop begins other than one about to, and the scanner leaves within the steps left of its loop and one, or within two |
| `ScanLoop.NoClientEndsLoop` | lwk_app/src/lib.rs:212-221 | A loop without a client can do nothing but complete, and counts as completed |
| `ScanLoop.ScannerCanStep` | lwk_app/src/lib.rs:159-222 | Until it has left, the scanner can always take a step |
| `ScanLoop.ReleasedIff` | lwk_app/src/lib.rs:1419-1434 | A poll returns if and only if one loop completed since a call to an idle scanner, two since a call to a busy one |
| `ScanLoop.StepInv` | lwk_app/src/lib.rs:178-222 | Every step of every thread keeps the counters equal or one apart, and every pending wake-up |
| `ScanLoop.StoppedScanNeverReturns` | lwk_app/src/lib.rs:163-165 | Once the scanner has left, a caller whose loop did not complete never returns |
| `ScanLoop.StoppedScanHangs` | lwk_app/src/lib.rs:163-165 | A trace in which that happens |
| `ScanLoop.Shared.BeginLoop` | lwk_app/src/lib.rs:178-185 | The first critical section of a loop is the begin step, with the wallets in some order |
| `ScanLoop.Shared.RequestScan` | lwk_app/src/lib.rs:1419-1426 | The first half of `scan` is the call step and returns the caller's number |
| `ScanLoop.Shared.Released` | lwk_app/src/lib.rs:1429-1432 | One look at the counter releases the caller exactly when the poll step does |
| `ScanLoop.Shared.MustSleep` | lwk_app/src/lib.rs:166-175 | The scanner sleeps exactly when the check step sends it to sleep |
| `SwapRestart.SessionRestartIsInvisible` | lwk_boltz/src/reverse.rs:229-265 | If the last thing done to a swap was a call of `advance` without error, its creation in a state that is not terminal, or `set_lockup_txid`, then dropping and restoring its response changes nothing in the whole session, however many updates came in since and whatever follows: the store is the same to the last list, so are all other swaps, the data up to labels, exactly for a reverse swap, the transactions and every later result; always for reverse swaps, for the others while the restart learns no new lockup txid |
| `SwapRestart.RestartIsInvisibleIff` | lwk_boltz/src/chain_swaps.rs:233-294 | At any point of any run a restart is invisible whatever follows if and only if the store reads back as what memory holds, and a terminal state is put down as completed |
| `SwapRestart.SettledInRun` | lwk_boltz/src/reverse.rs:584-602 | Which events bring memory and store into agreement, and that publications and events of other swaps leave it so |
| `SwapRestart.LiveSwapsReadBack` | lwk_boltz/src/invoice_data.rs:73-132 | In every run every live swap reads back from its own stored form, up to the labels of a chain swap |
| `SwapRuns.RestartVisible` | lwk_boltz/src/submarine.rs:249-296 | A restart of a settled swap is invisible if and only if it learns no lockup txid that memory did not have |
| `SwapRuns.AdvanceSettles` | lwk_boltz/src/reverse.rs:584-602 | After every `advance` without error the record is the data, and a terminal swap is completed and not pending |
| `SwapRuns.CreationSettles` | lwk_boltz/src/reverse.rs:196-226 | So after creation, if and only if the first status is not terminal |
| `SwapRuns.SetLockupSettles` | lwk_boltz/src/chain_swaps.rs:542-546 | Setting the lockup txid brings memory and store into agreement if and only if a terminal state was completed before |
| `SwapLockup.LockupForgottenIff` | lwk_boltz/src/reverse.rs:422-439 | In every run a known lockup txid is unknown after an event if and only if the event is an `advance` of a chain swap told of a lockup in the mempool without its txid, or a restart from a record that lacks it, of a reverse swap or fetching none |
| `SwapLockup.FailedClaimForgets` | lwk_boltz/src/reverse.rs:592-602 | A run in which a reverse swap sees its lockup, cannot build its claim, and forgets the lockup at a restart |
| `SwapRuns.InvOfShare` | lwk_boltz/src/store.rs:136-143 | In every run of a session the record of each swap reads back as its data, and the txids in the data are those of the transactions that went out |
| `SwapRuns.ListsOfSession` | lwk_boltz/src/store.rs:146-182 | In every run both lists are their additions in order, filtered to those not dropped since, free of duplicates and disjoint; every pending swap has a record that reads back |
| `SwapHistory.PendingIsStillOpen` | lwk_boltz/src/store.rs:146-182 | In every run the pending list is the swaps created, in the order of creation, that no event since completed, restored as terminal or removed |
| `SwapHistory.CrashLeavesPending` | lwk_boltz/src/submarine.rs:664-685 | A run in which a submarine swap ends, crashes after writing its record, is restored and still pending |
| `SwapFunds.MovesAreCounted` | lwk_boltz/src/chain_swaps.rs:659-761 | Over every run the claims of a swap are as many as the calls made while its next update asked for a claim and the world let it go out, and so its refunds |
| `SwapFunds.AtMostOnceIff` | lwk_boltz/src/chain_swaps.rs:659-761 | At most one claim, and at most one refund, goes out if and only if at most one such call is made |
| `SwapFunds.ChainMovesPileUp` | lwk_boltz/src/chain_swaps.rs:659-761 | A run in which a chain swap claims twice and refunds twice, with four different transactions |
| `SwapFunds.StepMovesIff` | lwk_boltz/src/chain_swaps.rs:659-761 | A step claims, or refunds, if and only if the update asks for it, the transactions it names or needs are seen, the transaction can be built, and a broadcast succeeds within the retries |
| `SwapFunds.RetriesIff` | lwk_boltz/src/lib.rs:898-915 | A broadcast gets through if and only if one of its first thirty attempts does; a submarine refund also has to be built within five |
| `SwapFunds.ReverseClaimsAtMostOnce` | lwk_boltz/src/reverse.rs:407-484 | Over every run of a session a reverse swap broadcasts at most one claim; the flag is set exactly if the txid is, exactly if that claim went out |
| `SwapFunds.ReverseSuccessClaimedIff` | lwk_boltz/src/reverse.rs:540-605 | A reverse swap reports success only on settlement or direct payment, and a claim of ours had gone out if and only if the data said so |
| `SwapFunds.ReverseSuccessWithoutClaim` | lwk_boltz/src/reverse.rs:563-566 | A run in which it reports success without any claim |
| `SwapFunds.SubmarineSuccessIff` | lwk_boltz/src/submarine.rs:564-688 | Exactly which updates and answers make a step of a submarine swap succeed |
| `SwapFunds.SubmarineSuccessPaidOrRefunded` | lwk_boltz/src/submarine.rs:564-688 | In every run a submarine swap reports success only on the server's word that it claimed or claims our lockup, in the latter case if it wants no help or we lost the invoice, or with our refund out |
| `SwapFunds.ChainSuccessMovedFunds` | lwk_boltz/src/chain_swaps.rs:694-761 | In every run `advance` of a chain swap reports success only if our claim went out, when the last status is claimed, or else our refund |
| `SwapFunds.TxidsAreNeverCleared` | lwk_boltz/src/chain_swaps.rs:626-627 | Claim and refund txids once set stay set through any events and restarts |
| `SwapFunds.MovesPayTheirAddress` | lwk_boltz/src/chain_swaps.rs:596-878 | In every run each claim of a created swap pays the claim address in its data, and each refund the refund address, however often it claims, refunds or is restarted |
| `SwapFunds.ChainSwapPaysGivenAddresses` | lwk_boltz/src/chain_swaps.rs:104-230 | So to the addresses given to the call that created a chain swap |
| `SwapFunds.InvoicePaysGivenAddress` | lwk_boltz/src/reverse.rs:407-484 | A reverse swap claims only, and only to the address given to the call that created it |
| `SwapFunds.PaymentRefundsToGivenAddress` | lwk_boltz/src/submarine.rs:690-753 | A submarine swap refunds only, and only to the address given to the call that created it |
| `SwapOutcomes.StepAnswers` | lwk_boltz/src/chain_swaps.rs:632-792 | For each kind of swap: exactly which statuses, data and answers of the world make a step end well, end badly, go on, and fail |
| `SwapOutcomes.StepErrors` | lwk_boltz/src/chain_swaps.rs:632-792 | Exactly which error a step reports that fails on a status it expects |
| `SwapOutcomes.StepLockup` | lwk_boltz/src/reverse.rs:422-439 | Exactly which lockup txid a step leaves in the data, also when it fails |
| `SwapOutcomes.CallAnswers` | lwk_boltz/src/reverse.rs:540-605 | In every run a call of `advance` handles the next update of its own swap and ends well, ends badly or goes on exactly as that update, the data and the world tell |
| `SwapOutcomes.CompleteIff` | lwk_boltz/src/chain_swaps.rs:880-892 | `complete` returns true if and only if the swap's updates go on up to one that ends well, false if and only if up to one that ends badly |
| `SwapUpdates.EachUpdateOnce` | lwk_boltz/src/lib.rs:826-872 | In every run what was published to a swap since its creation is what its calls handled, in that order and each update once, followed by what is still to be read; restarts lose and repeat nothing |
| `SwapUpdates.SilentCall` | lwk_boltz/src/lib.rs:826-872 | In every run a call without an update changes no data, writes and moves nothing; it reports no update yet if the session polls or the swap ended since its last restart, and a timeout otherwise |
| `SwapUpdates.LiveIff` | lwk_boltz/src/reverse.rs:229-265 | In every run a swap is live from its creation until a restart finds no record of it; ends and removals leave it live, and once gone it does not come back |
| `SwapUpdates.RecordThereIff` | lwk_boltz/src/lib.rs:429-452 | In every run a swap has a record after an event if and only if the event wrote it, or it had one and was not removed; a call without error writes it again after a removal |
| `SwapFunds.DataStaysFixed` | lwk_boltz/src/lib.rs:248-258 | Fees, keys, preimage, addresses and chains stay what creation made them, through any events and restarts |
| `SwapCompletion.CompletionIsRun` | lwk_boltz/src/chain_swaps.rs:880-892 | Running a response to its end is a row of `advance` events of the session, to the same effect on data, store and chain |
| `SwapCompletion.ChainCompleteMovedFunds` | lwk_boltz/src/chain_swaps.rs:880-892 | `complete` returns true only if our claim, or else our refund, went out, whatever all swaps went through before |
| `SwapQuotes.NewSwapDeliversQuote` | lwk_boltz/src/reverse.rs:446-459 | A swap created with the claim fee of the quoted pair is paid exactly the quoted amount when it claims, at whatever point of whatever run, if the server locks what is sent less its fees; if and only if the fees are covered |
| `SwapQuotes.ClaimFeeStays` | lwk_boltz/src/chain_swaps.rs:823-837 | The fee a claim pays stays what creation made it |
| `SwapSystem.SwapsDoNotInterfere` | lwk_boltz/src/lib.rs:826-872 | With any number of swaps on one broadcast and one store, each swap's data, record, places on the lists, transactions and next result are those of that swap alone with its own events |
| `SwapSystem.NextOwnIsHead` | lwk_boltz/src/lib.rs:826-872 | The next status is the first of the swap's own updates, and nothing of its own is skipped |
| `SwapSystem.NextStatus` | lwk_boltz/src/lib.rs:826-872 | The receive loop returns the first own update and leaves what follows it, or reports which kind of silence it met |
| `SwapLists.ListsAfterAnyHistory` | lwk_boltz/src/store.rs:146-182 | After any store operations each list is its additions in order, filtered to those not dropped since, without duplicates |
| `SwapLists.PendingMembers` | lwk_boltz/src/store.rs:146-160 | A swap is pending if and only if it was added and neither completed nor removed since |
| `SwapLists.CompletedMembers` | lwk_boltz/src/store.rs:163-182 | A swap is completed if and only if it was moved there and not removed since |
| `SwapLists.OnBothListsIffRevived` | lwk_boltz/src/store.rs:146-182 | A swap is on both lists if and only if it was added as pending again after it completed |
| `SwapLists.CrashRecovery` | lwk_boltz/src/store.rs:163-182 | A crash at any write after the record, followed by a restore, gives the lists of no crash if and only if the state is terminal, or nothing was left to write |
| `SwapLists.CrashRecoveryOfSwap` | lwk_boltz/src/chain_swaps.rs:780-789 | For each kind of swap, exactly the final statuses for which a crash is repaired |
| `SwapStore.KeysApart` | lwk_boltz/src/store.rs:39-55 | Records and lists never share a key, nor do two swaps |
| `SwapStore.Apply` | lwk_boltz/src/store.rs:80-182 | What an operation does to each list and to each record, and that it touches no other record |
| `SwapStore.DynStore.PersistAndAddToPending` | lwk_boltz/src/store.rs:146-160 | The record is written, and the id appended unless it is there |
| `SwapStore.DynStore.Complete` | lwk_boltz/src/store.rs:163-182 | The id leaves the pending list and is appended to the completed one unless it is there |
| `SwapStore.DynStore.Remove` | lwk_boltz/src/lib.rs:429-452 | The id leaves both lists, and its record is gone |
| `SwapResponses.InvoiceResponse.Advance` | lwk_boltz/src/reverse.rs:540-605 | The call in place has the effect of the step on data, receiver, polling flag, store and chain |
| `SwapResponses.InvoiceResponse.CompletePay` | lwk_boltz/src/reverse.rs:607-619 | The loop runs the swap until it ends or fails |
| `SwapResponses.PreparePayResponse.Advance` | lwk_boltz/src/submarine.rs:564-688 | The call in place has the effect of the step, early exits included |
| `SwapResponses.PreparePayResponse.CompletePay` | lwk_boltz/src/submarine.rs:755-767 | The loop runs the swap until it ends or fails |
| `SwapResponses.LockupResponse.Advance` | lwk_boltz/src/chain_swaps.rs:632-792 | The call in place has the effect of the step, early exits included |
| `SwapResponses.LockupResponse.Complete` | lwk_boltz/src/chain_swaps.rs:880-892 | The loop runs the swap until it ends or fails |
| `Swap.StoredFormReadsBack` | lwk_boltz/src/invoice_data.rs:73-132 | The record of any swap of the session reads back as the swap, up to the labels of a chain swap |
| `Swap.StepFrame` | lwk_boltz/src/chain_swaps.rs:632-792 | A step keeps id, keys, preimage and chain; when it fails it broadcast nothing, when it broadcast it did so once and wrote down that txid |
| `Swap.StepStatus` | lwk_boltz/src/swap_state.rs:47-57 | Which final states each kind of swap can end in, and that a swap that goes on is never in a terminal one |
| `Swap.LockupLostIff` | lwk_boltz/src/chain_swaps.rs:639-643 | A step loses a known lockup txid if and only if a chain swap is told of a lockup in the mempool without being told which |
| `Swap.StepIgnoresLabel` | lwk_boltz/src/chain_data.rs:100-110 | No step depends on the network label |
| `ReverseSwap.RoundTrip` | lwk_boltz/src/invoice_data.rs:73-132 | Reading back gives the same data if and only if keys, preimage, identifier and chain are the session's |
| `ReverseSwap.ReadIff` | lwk_boltz/src/invoice_data.rs:73-132 | Any record is read if and only if its key can be derived, it is this session's, its chain is known and its preimage parses; writing down what was read gives the record back, an absent flag as not claimed |
| `ReverseSwap.NewInvoice` | lwk_boltz/src/reverse.rs:112-226 | Creation succeeds exactly if a key can be derived, the answer has a readable invoice with the routing hint and a script, pays out no more than it takes in, and a known first status arrives; it yields data of the session without a claim, with the claim address given, the chain asked for, that first status, the difference of the amounts as fee, the fees of the pair and the preimage drawn |
| `SubmarineSwap.RoundTrip` | lwk_boltz/src/prepare_pay_data.rs:58-125 | Reading back gives the same data if and only if keys, identifier and chain are the session's |
| `SubmarineSwap.ReadIff` | lwk_boltz/src/prepare_pay_data.rs:58-125 | Any record is read if and only if its key can be derived, it is this session's, its chain is known and its invoices parse; writing down what was read gives the record back |
| `SubmarineSwap.NewPayment` | lwk_boltz/src/submarine.rs:97-246 | Creation succeeds exactly if there is an invoice that cannot be paid directly, a key can be derived, the answer asks for no less than the invoice, is valid and has a script, and a first status arrives; it yields data of the session in no terminal state, with the refund address given, the chain asked for, the difference of the amounts as fee and the invoice to be paid |
| `ChainSwap.RoundTrip` | lwk_boltz/src/chain_data.rs:72-156 | Reading back gives the same data up to labels if and only if it is the session's, and the very same if and only if both chains are regtest as well |
| `ChainSwap.ReadIff` | lwk_boltz/src/chain_data.rs:72-156 | Any record is read if and only if both keys can be derived, it is this session's, both chains are known and its preimage parses; writing down what was read gives the record back |
| `ChainSwap.NewChainSwap` | lwk_boltz/src/chain_swaps.rs:104-230 | Creation succeeds exactly if both keys can be derived, the answer is valid with both scripts, and a known first status arrives; it yields data of the session without claim or refund, with both addresses given, the lockup address and amount answered, the chains of the direction, that first status, the fees of the pair and the preimage drawn |
| `SwapTypes.Retry` | lwk_boltz/src/submarine.rs:690-706 | The retry loop gives the first success among the allowed attempts |
| `SwapTypes.FirstSuccessIsFirst` | lwk_boltz/src/lib.rs:898-915 | A retried action fails exactly if all attempts do, and otherwise gives the first success |
| `Quote.ReceiveQuoteIsExactAndMinimal` | lwk_boltz/src/quote.rs:258-295 | Sending what a receive quote asks for gives the same quote; one less yields less, if and only if the amount is positive |
| `Quote.QuoteGalois` | lwk_boltz/src/quote.rs:258-295 | Inverse at most s if and only if the amount is at most forward of s, exactly when the amount is positive or s covers the fees |
| `Quote.QuoteConserves` | lwk_boltz/src/quote.rs:258-280 | Send is receive plus both fees if and only if the quote is by receive or the fees are covered |
| `Quote.ForwardMonotone` | lwk_boltz/src/quote.rs:258-289 | Sending more never yields less |
| `Quote.RoundTripSlack` | lwk_boltz/src/quote.rs:282-295 | Forward and back loses less than d/(d-n), at most one satoshi for rates up to one half |
| `Quote.DirectionQuotes` | lwk_boltz/src/quote.rs:141-256 | Each of the six directions is quoted from the pair its two assets name: its network fee, limits, rounded-up share, and amounts, the least to send for a given receive amount; it is rejected as not available if and only if the service has no such pair |
| `Quote.QuoteUnique` | lwk_boltz/src/quote.rs:258-295 | What is said of a quote determines it |
| `Quote.OtherPairsDoNotMatter` | lwk_boltz/src/quote.rs:141-256 | A quote does not change, nor its rejection, when any other pair changes |
| `Quote.RejectedIff` | lwk_boltz/src/quote.rs:141-256 | Exactly when a quote is rejected for a missing asset, and which, or for two equal ones; all other directions have a pair |
| `Quote.QuoteMatchesClaim` | lwk_boltz/src/quote.rs:141-256 | For the pair the two assets name, what is locked less the claim fee of the pair is the quoted amount, on either chain, if and only if the fees are covered |
| `Balance.Sub` | lwk_common/src/balance.rs:30-46 | For any order of keys the result is the pointwise wrapped difference, with an entry exactly where the balances differ |
| `Balance.DifferencesTelescope` | lwk_common/src/balance.rs:30-46 | Successive differences add up, modulo 2^64, to the last balance less the first |
| `Balance.SmallDifferencesTelescope` | lwk_common/src/balance.rs:30-46 | Below 2^63 they add up exactly |
| `Balance.DifferenceIsExact` | lwk_common/src/balance.rs:30-46 | A difference is exact if and only if it fits 64 signed bits |

## Left out

- Sessions without a store, encryption of the store, and failures of store operations: every swap is modelled with a store whose operations succeed.
- Restoring swaps from the server's own list (`convert_swap_restore_response_*`): only restoring from the local record is modelled.
- Deadlines in `next_status` and `wait_for_chain_tx`: running out of updates, and not seeing a transaction, are answers of the world.
- The counter behind `derive_next_keypair`: key indices are arguments of creation.
- SwapSystem.NextStatus: a receiver that lags behind the broadcast or is closed is not modelled, every response receives every update.
- AppServer.Server.AddSigner: a connected Jade is taken to answer when asked for its fingerprint, so that comparing fingerprints does not fail.
- Scanned transactions, balances and the other read-only requests of the app: they do not touch the log.
- The experimental store of wallet data on disk that `WalletLoad` can open: wallets are their descriptors.
- The scanner's wait and its client calls as running code: they are steps of the state machine in `ScanLoop`, only the critical sections are methods.
- ScanLoop.Shared.BeginLoop: counters are unbounded, the 32-bit overflow after four billion loops is not modelled.
- Quote.BuildQuote: floating-point rounding of the percentage is not modelled, rates are exact.
- Bindings, command line, RPC client, hardware drivers, fee estimation and display tables: they would only add easy members.
