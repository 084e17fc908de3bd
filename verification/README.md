# Verified models of the EEZ explorer

The explorer is a React page, but five pieces of it are real protocols or real arithmetic. This
project models those pieces in Dafny and proves what they promise over every run and every input.

1. **Treasury submission** (`SafeQuorum`, `TreasuryProtocol`, `TreasurySafety`, `TreasuryCalm`,
   `TreasuryProgress`, `TreasuryPlans`, `TreasuryRuns`, `TreasuryRelock`, `TreasuryInvoice`,
   `TreasuryScreen`). One screen reviews a Safe transaction, collects owner approvals, journals the
   request, sends it once and polls until it is settled or rejected. The screen is a state machine
   over its awaits: the user's action, a poll round, wallet changes and page reloads interleave
   freely, and the chain, the wallet and the invoice fixture answer as they like.
2. **Quote-trace forest** (`TraceModel`, `TraceTree`, `ErrorDecoding`, `TraceTexts`). Frames with
   parent pointers are validated, indexed in one forward pass, filtered by one backward and one forward pass, and
   summed up in two ways. The passes are proved equal to recursive definitions over ancestors.
3. **Viewer and host messages** (`Annotations`, `QuoteViewer`, `QuoteHost`, `QuoteProtocol`,
   `QuoteProgress`). The trace viewer in its frame and the page around it exchange numbered messages. The model delivers
   them in any order, repeatedly or never, and lets the frame reload and reconnect at any time.
4. **Bridge form** (`Numerals`, `BridgeAmounts`, `RecentTokens`, `BridgeTransaction`, `BridgeKey`,
   `BridgeGas`, `BridgeProgress`, `BridgeForm`). Decimal text to base units and back, the recent-token list, the encoded
   transaction, and the machine that estimates gas and submits while inputs keep changing.
5. **Replay and payment split** (`EventReplay`, `ReplayDetails`, `FundingSplit`). Time travel over
   contract events, and the slider that divides a payment between two Safes.

The stateful pieces appear twice: as a step function over values, about which the results are proved,
and as a class (`ConnectedScreen`, `TraceViewer`, `DebuggerHost`, `BridgeScreen`) with one handler for
each event that changes it. A class keeps a ghost trail of its events; `Valid()` says that its fields are
where the protocol is after that trail, every handler keeps it, and so the results hold of every object.

Results come in two kinds. Some say what never happens, over every run. The others, in the modules
called Progress and in `TreasuryPlans`, say what is achieved when nothing interferes, from every
reachable state or from any state at all, and what exactly is then on screen, stored or sent.

`Prelude` and `Arithmetic` hold small shared facts. Fields named `tag`, `job`, `start` and `source`,
and the lists `sends` and `released`, are history labels: the theorems speak about them and no
decision reads them.

## Where the code does less than it seems to

* **Slider.** A position survives storing, rescaling and re-rounding for every amount of at least
  19998 base units, and 19997 fails at position 3333. But 19998 is not the exact boundary: all
  positions survive if and only if `10000 - gcd(amount, 10000) <= amount / 2`, so 10000 works too.
* **Rolled-back count.** The summary's count equals the number of frames labelled "rolled back by an
  ancestor" if and only if no successful frame is under both a failed and an incomplete ancestor;
  such a frame is counted but labelled "effects unknown". Accepted runs with such a frame are given.
* **Invoice submissions.** Every submission is checked against the review and the connected wallet
  just before it is journalled and sent, except that paying an invoice waits for the invoice fixture
  after that check. In this wait the poll can clear the review, and the wallet can change. Reachable runs
  for every owner, payload, nonce, period and identity show both; all other submissions are sent under
  the review on screen from the connected sender. Approvals, quorum and journal are not affected.
* **Detail cache.** Replaying an earlier event after a later one keeps the same entries and statuses, but
  can show a detail that only the later event supplied. Two replays agree if and only if, for every
  entry, the caches they start from agree on its hash, or an event before its own filled the hash in, or
  a consume has overwritten it since.
* **Bridge form.** What is sent is what the form shows unless an edit was made whose effect has not run
  yet. For any two different requests a run sends the one clicked while the form shows the other; the sent
  transaction is still the one its gas was estimated for.
* **Late contrary observation.** A request counts as released once it was seen settled or rejected.
  If a later poll disagrees, the screen locks again, and stays locked as long as the page lives and no
  answer releases the request once more. Once the request is back in the journal, reloads keep the lock
  too. If both writes of that poll round fail, the journal stays empty; the first later reload then tracks
  the request if and only if some poll round in between, or the wallet's answer, was written. A reachable
  run for every setup shows a round without a write, after which a reload tracks nothing.

## Model

| member | source | states |
|---|---|---|
| SafeQuorum.UnchangedIffSameOwners | src/lib/treasury/client.ts:154 | Two snapshots count as unchanged exactly when source, nonce, threshold and the owner list agree, up to letter case: the joined fingerprint text loses nothing. |
| SafeQuorum.JoinedInjective | src/lib/treasury/client.ts:319-322 | Equal joined owner lists come from the same addresses, position by position. |
| SafeQuorum.OwnerCount | src/lib/treasury/safeTransactions.ts:91-103 | Pairwise distinct approvals name as many owners as there are approvals. |
| SafeQuorum.NoMoreApprovalsThanOwners | src/lib/treasury/safeTransactions.ts:87-97 | Distinct approvals by owners never outnumber the owners, so the upper bound of the quorum check cannot fail on them. |
| TreasurySafety.InvAlways | src/components/TreasuryConnected.tsx:92-304 | In every reachable state the journal, the tracked intent, the outcome, the review, its approvals and the waiting action fit together. |
| TreasurySafety.EverySendIsSafe | src/components/TreasuryConnected.tsx:273-304 | In every run eth_sendTransaction is issued one at a time, with its request already in the journal, every earlier send released, a quorum for the reviewed transaction at the reviewed nonce, and, invoices aside, under the review on screen from the connected sender. |
| TreasurySafety.UnreleasedSendLocksTheScreen | src/components/TreasuryConnected.tsx:212-214 | An unreleased send is the only one, stays journalled under its own identity through polls, failures and reloads, and makes Review and Submit do nothing. |
| TreasurySafety.OnlyAnswersRelease | src/components/TreasuryConnected.tsx:172-180 | In every reachable state a step releases a send exactly when it is an accepted observation of that request as settled or rejected, or an accepted refusal of it by the wallet; an uncertain response or a reload never does. |
| TreasuryRelock.ContraryObservationRelocks | src/components/TreasuryConnected.tsx:166-198 | In every reachable state with a final outcome, a pending or unknown result for the tracked request locks Review and Submit, and they stay locked through every later run of the page until an answer releases the request. A later reload tracks it iff this round, a later poll round or the wallet's answer was written; otherwise it tracks nothing. |
| TreasuryRelock.HeldRequestStaysLocked | src/components/TreasuryConnected.tsx:56-59 | An unfinished request that journal and screen hold, released before or not, is held with Review and Submit locked through every later run, reloads included, until an answer releases it. |
| TreasuryRelock.ReloadTracksIffSomeWriteTook | src/components/TreasuryConnected.tsx:182-198 | An unfinished tracked request locks the screen through every later run of the page; the first reload tracks it iff it was in the journal or some write since took it. |
| TreasuryRelock.UnwrittenLockIsForgotten | src/components/TreasuryConnected.tsx:182-198 | For every owner, payload, nonce, terms and identity a reachable run: sent, seen settled, then pending with both writes failing leaves the screen locked, the journal empty, and a reload that tracks nothing. |
| TreasurySafety.ReloadTracksTheJournal | src/components/TreasuryConnected.tsx:56-59 | A reload at any await forgets review, approvals, outcome and every wait, tracks exactly the journalled request again, and leaves every unreleased send tracked under its own identity. |
| TreasurySafety.ApprovalsBelongToTheReview | src/components/TreasuryConnected.tsx:257-272 | In every reachable state each approval was signed for the reviewed transaction by one of the reviewed owners, between two snapshots that agree with the reviewed one; no owner twice; none without a review; the reviewed nonce is the snapshot's. |
| TreasurySafety.SubmitMeansQuorum | src/components/TreasuryConnected.tsx:404-405 | An enabled Submit button means at least `threshold` different owners approved exactly this transaction, and packing the submission accepts those approvals. |
| TreasuryCalm.Follows | src/components/TreasuryConnected.tsx:151-209 | While polls leave review, wallet and a finished request alone, an action goes where it would go by itself. |
| TreasuryProgress.UndisturbedReviewIsShown | src/components/TreasuryConnected.tsx:212-239 | From every reachable state at rest without an unfinished request, a review carried through, polls around it or not, is shown with the payload built, the snapshot read and its nonce, without approvals; a finished request is no longer tracked. |
| TreasuryProgress.UndisturbedSigningApproves | src/components/TreasuryConnected.tsx:257-272 | From every reachable state at rest with a review and no request, when snapshots and periods agree, funding covers and the wallet signs, exactly the connected wallet's approval is appended iff it is a reviewed owner that has not approved; otherwise nothing changes. |
| TreasuryProgress.UndisturbedSubmitSends | src/components/TreasuryConnected.tsx:273-291 | From every reachable state with Submit enabled, a submission carried through while polls come and go without touching review or wallet is sent, once, with the approvals on screen, iff wallet, owners, snapshot and journal agree; otherwise nothing is sent. |
| TreasuryProgress.UndisturbedPollDecides | src/components/TreasuryConnected.tsx:151-199 | From every reachable state with a tracked request, whatever the user is doing, a poll round carried through gives exactly this screen: a final result is shown, releases the request and clears review and journal; another is journalled with the hash learned; a failed write leaves the request as it was, unknown. |
| TreasuryPlans.PlanIsPaid | src/components/TreasuryConnected.tsx:212-304 | From every reachable state at rest without an unfinished request, every payment for a Safe of any threshold can be reviewed, approved by the first owners up to the threshold, sent once with exactly those approvals, and settled, and the screen is ready again. |
| TreasuryPlans.EveryPlanIsPaid | src/components/TreasuryConnected.tsx:151-304 | Every list of payments, of any length, is paid by some run: one send each, in order, all released at the end. |
| TreasurySafety.KeptApprovalIsFromTheConnectedWallet | src/components/TreasuryConnected.tsx:266-271 | A signature is added, at the end and alone, only while its owner is still the connected wallet and its review is still on screen. |
| TreasurySafety.StaleSnapshotDropsTheReview | src/components/TreasuryConnected.tsx:111-118 | On either screen, a snapshot polled while no request is tracked keeps review and approvals iff it agrees with the review; a dropped review never returns, whatever follows. |
| TreasurySafety.StaleBudgetDropsTheReview | src/components/TreasuryConnected.tsx:119-124 | Likewise a polled budget keeps the review iff it is no budgeted payment or the period is the reviewed one. |
| TreasurySafety.LateBudgetDropsTheReview | src/components/TreasuryConnected.tsx:151-163 | The same for a budget polled before a request was looked up that has been refused since. |
| TreasuryInvoice.InvoiceCanBeSentAfterItsReviewWasCleared | src/components/TreasuryConnected.tsx:286-291 | For every owner, payload, nonce, invoice terms and identity, and every snapshot that differs, a reachable run in which an invoice payment is sent after its review was cleared. |
| TreasuryInvoice.InvoiceCanBeSentFromADisconnectedSender | src/components/TreasuryConnected.tsx:286-291 | For every owner, payload, nonce, invoice terms and identity, and every other wallet, a reachable run in which an invoice payment is sent although its sender is no longer connected. |
| TreasuryScreen.ConnectedScreen.StartReview | src/components/TreasuryConnected.tsx:212-216 | A review begins iff no request is unfinished, so never while a send is unreleased; then a finished request is dropped from screen and journal. |
| TreasuryScreen.ConnectedScreen.StartSubmitting | src/components/TreasuryConnected.tsx:273-277 | While any send is unreleased submitting is refused; otherwise it goes on with the review and the approvals on screen; with a review, no request and a wallet it goes on. |
| TreasuryScreen.ConnectedScreen.CheckedNetwork | src/components/TreasuryConnected.tsx:240-256 | After the wallet switched networks the action goes on iff review and wallet are the same and no request is tracked, and then to the step its purpose and payment ask for. |
| TreasuryScreen.ConnectedScreen.RequestSignature | src/components/TreasuryConnected.tsx:265-266 | The wallet is asked to sign iff no captured approval is by an owner with its address; otherwise the action ends. |
| TreasuryScreen.ConnectedScreen.ReadSnapshot | src/components/TreasuryConnected.tsx:132-141 | If a refresh completes an approval, that approval is the only thing added, comes from the connected wallet, and the review is the one signed for; journal and sends are untouched. |
| TreasuryScreen.ConnectedScreen.ReadBudget | src/components/TreasuryConnected.tsx:137-141 | The same for the budget half of a refresh. |
| TreasuryScreen.ConnectedScreen.ShowReview | src/components/TreasuryConnected.tsx:236-238 | A new review is a new object at the nonce just read, with a valid snapshot and no approvals; it is of the payload built, the snapshot read and its terms. |
| TreasuryScreen.ConnectedScreen.Submit | src/components/TreasuryConnected.tsx:279-291 | If it sends: the journal was empty, every earlier send is released, the journal now holds this request, and it carries a quorum for the review on screen from the connected sender. |
| TreasuryScreen.ConnectedScreen.InvoiceArmed | src/components/TreasuryConnected.tsx:286-291 | It sends iff the journal takes the request, and then as safely, except that review and wallet may have changed in the wait. |
| TreasuryScreen.ConnectedScreen.WalletAnswered | src/components/TreasuryConnected.tsx:291-294 | With the write the request is journalled and locked under its hash; without it journal, tracked request and outcome stay as they were; nothing is released. |
| TreasuryScreen.ConnectedScreen.WalletUnsure | src/components/TreasuryConnected.tsx:295-302 | An uncertain response leaves journal, tracked request and released sends as they were. |
| TreasuryScreen.ConnectedScreen.WalletDeclined | src/components/TreasuryConnected.tsx:295-300 | A refusal releases at most this request, and then journal and screen hold none and no send is left unreleased. |
| TreasuryScreen.ConnectedScreen.InvoiceWithdrawn | src/components/TreasuryConnected.tsx:297-300 | The same once the fixture has cancelled a refused invoice. |
| TreasuryScreen.ConnectedScreen.PollSawSnapshot | src/components/TreasuryConnected.tsx:154-163 | A review that survives a polled snapshot without a tracked request agrees with it; journal and sends are untouched; one that agrees, or any with a tracked request, keeps it. |
| TreasuryScreen.ConnectedScreen.PollSawOutcome | src/components/TreasuryConnected.tsx:160-184 | A result for the request asked about gives exactly the screen of the poll theorem; one for a request no longer tracked changes nothing; only a final result releases. |
| TreasuryScreen.ConnectedScreen.PollBroke | src/components/TreasuryConnected.tsx:185-198 | A failed round releases nothing and leaves a tracked request unknown, journalled again iff the write is taken. |
| TreasuryScreen.ConnectedScreen.Remount | src/components/TreasuryConnected.tsx:56-59 | A fresh page keeps the journal and tracks it again, so an unreleased send still locks the screen. |
| TreasuryScreen.ConnectedScreen.CanSubmit | src/components/TreasuryConnected.tsx:404-405 | When it answers yes, enough different owners approved exactly the transaction on screen and packing accepts them. |
| TraceModel.CheckFrames | public/quote-trace/model.js:59-74 | Frames are accepted iff ids are positions, parents are earlier, texts have their formats and lengths, cross-chain flags match the chains and captured bytes are consistent. |
| TraceModel.CheckRuns | public/quote-trace/model.js:38-75 | A trace's runs are accepted iff every run's own fields and frames are, ids are positions, and the run and frame limits hold. |
| TraceModel.IndexRun | public/quote-trace/model.js:79-97 | One forward pass yields exact child and root lists, parent-chain depth, root, and the ancestor-or-self failed and incomplete flags; the lists together have one entry per frame. |
| TraceModel.EveryFrameListedOnce | public/quote-trace/model.js:82-90 | Roots and child lists partition the frames, each list without repeats. |
| TraceModel.RootIsTheParentlessAncestor | public/quote-trace/model.js:84-89 | The recorded root is an ancestor without a parent, and the only one. |
| TraceModel.ChainChangeIsRecorded | public/quote-trace/model.js:70-71 | A frame on another chain than its root has a cross-chain frame on its path. |
| TraceModel.FailureSummary | public/quote-trace/model.js:185-209 | For an accepted run the title says what the frame labels say and names the failed roots, the failed list is exact, the focus is a failed call if there is one, the last child is its latest call, and the count is of the calls that returned under a failed one. |
| TraceModel.TitleAgreesWithDispositions | public/quote-trace/model.js:185-199 | Each of the four titles is shown exactly when the labels of the frames say so; in particular "no failure" iff the run is complete and every frame succeeded. |
| TraceModel.DispositionMeaning | public/quote-trace/model.js:149-157 | Each label says exactly which statuses the frame and its ancestors have: unknown under an incomplete one, succeeded iff all succeeded, rolled back iff returned under a failed one, failed by its own status, inside a success iff the root succeeded. |
| TraceModel.FailedFramesUnderTitle | public/quote-trace/model.js:185-199 | Under "nested failure" every failed frame sits inside a success; under "failed in this run" every failed root is a failed frame, and the roots named are those. |
| TraceModel.RolledBackCountAgrees | public/quote-trace/model.js:191-203 | The rolled-back count is never below the number of rolled-back labels, and equal iff no rolled-back success is hidden by an incomplete ancestor. |
| TraceModel.RolledBackCountIs | public/quote-trace/model.js:191 | The count is the number of calls that returned under a failed call. |
| TraceModel.CountExceedsLabels | public/quote-trace/model.js:191-203 | Accepted runs in which the count exceeds the labels: a returned call under an unfinished one under a failed one. |
| TraceModel.RolledBackCountWhenComplete | public/quote-trace/model.js:191-203 | With no incomplete frame the two numbers agree. |
| TraceModel.FocusIsFirstFailure | public/quote-trace/model.js:187-194 | The focus is the first failed root if any root failed, else the first failed frame. |
| TraceModel.LastChildIsLatestCall | public/quote-trace/model.js:192-195 | The last child offered is the latest call the focus made, and absent iff it made none. |
| TraceTree.SearchShowsLeastClosedSet | public/quote-trace/viewer.js:148-161 | With a search the shown calls are the smallest parent-closed set containing every match. |
| TraceTree.TreeView.DrawTree | public/quote-trace/viewer.js:150-161 | One backward and one forward pass show a call iff it or a descendant matches, or, without a search, iff every strict ancestor is expanded. |
| TraceTree.IncludesIff | public/quote-trace/viewer.js:150-153 | A search matches a text iff it stands somewhere in it. |
| TraceTree.BackwardStep | public/quote-trace/viewer.js:154-156 | A backward step over frame i makes the kept flags exact for all frames from i on. |
| TraceTree.ForwardStep | public/quote-trace/viewer.js:158-160 | A call is shown iff it is kept and its parent is shown and open. |
| TraceTree.FailedLeafExists | public/quote-trace/viewer.js:110-111 | Below any failed call there is a failed call with no failed child. |
| TraceTree.DepthCountsAncestors | public/quote-trace/model.js:84-88 | The recorded depth of a call is the number of calls above it. |
| TraceTree.FirstSelectedIsFailed | public/quote-trace/viewer.js:107-111 | A run with any failed call opens on a failed root or on a failed call without failed children. |
| TraceTree.FailedLeafMeaning | public/quote-trace/viewer.js:110-111 | Selected as a leaf is a call that failed while no call whose parent it is did. |
| TraceTree.TreeView.OpenAncestors | public/quote-trace/viewer.js:112-113 | The parent walk ends and opens exactly the strict ancestors. |
| TraceTree.TreeView.FirstFailedRoot | public/quote-trace/viewer.js:107-108 | Finds the first failed root, or shows there is none. |
| TraceTree.TreeView.FirstFailedLeaf | public/quote-trace/viewer.js:110-111 | Finds the first failed call without failed children, or shows there is none. |
| TraceTree.TreeView.SelectRun | public/quote-trace/viewer.js:102-117 | Selects the first failed root, else the first failed leaf, else the first call; the selection is drawn, and open are its ancestors, the cross-chain calls and the calls with fewer than four calls above them. |
| TraceTree.TreeView.FocusFrame | public/quote-trace/viewer.js:120-127 | Selects the call, empties the search, and leaves the call drawn; only ancestors are opened. |
| ErrorDecoding.MessageDigits | public/quote-trace/model.js:106-112 | For arbitrary captured data the slice handed on is in range, of even length and hexadecimal. |
| ErrorDecoding.ReadsExactlyEncodedMessages | public/quote-trace/model.js:106-114 | Message bytes reach the text decoder iff the data starts with the Error(string) encoding of them (Solidity Contract ABI Specification, "Errors" and "Formal Specification of the Encoding"), in either letter case, up to 4096 bytes. |
| ErrorDecoding.EncodedErrorIsShown | public/quote-trace/model.js:99-128 | Every encodable message that fits the capture is shown as its text, or by its selector if the bytes are not text. |
| ErrorDecoding.EveryReading | public/quote-trace/model.js:99-128 | What complete data of a reverted call is reported as, each exactly when: a message iff it starts with that message's encoding, a panic iff it is the panic selector and one word, no data, unrecognized below eight digits, otherwise its selector. |
| ErrorDecoding.ReadingByStatus | public/quote-trace/model.js:99-104 | Nothing is decoded unless a call reverted and all bytes it returned were captured; a halt shows its own reason. |
| ErrorDecoding.PanicIffEncoded | public/quote-trace/model.js:118-119 | A panic code is read iff the data is the encoding of Panic(code). |
| TraceTexts.QuantityIffNumeral | public/quote-trace/model.js:6 | A text passes as a quantity iff it is the shortest hexadecimal numeral of a number below 2^256, in either letter case. |
| TraceTexts.ValidBytesIffEncoded | public/quote-trace/model.js:12-19 | Captured bytes pass iff the text encodes at most 4096 bytes, no more than the stated length, and the flag says whether some are missing. |
| TraceTexts.FrameIffSound | public/quote-trace/model.js:59-74 | A call passes iff it is in its place, its parent is earlier, its cross-chain flag tells the truth, its texts are numerals, addresses and short texts, and its bytes are encoded, the output absent at most if it is unfinished. |
| TraceTexts.RunsIffSound | public/quote-trace/model.js:38-75 | Runs pass iff there are at most 128 with at most 4096 calls in all, each in its place with sound fields and calls. |
| ErrorDecoding.FixedUnique | public/quote-trace/model.js:108-109 | Digits of a fixed width are determined by their value, up to letter case. |
| ErrorDecoding.BytesRoundTrip | public/quote-trace/model.js:112-114 | Splitting captured digits into bytes and printing them gives the same digits in lower case. |
| Annotations.MergeTotal | public/quote-trace/viewer.js:298-305 | Storing a batch changes the stored total by exactly its size less what it overwrites. |
| Annotations.MergeSources | public/quote-trace/viewer.js:305 | Every stored entry was there before or is an item of the batch. |
| Annotations.MergeOverlays | public/quote-trace/viewer.js:305 | After a batch every item is stored under its own id, and every other call keeps what it had. |
| QuoteViewer.LoadDisplays | public/quote-trace/viewer.js:29-118 | Loading a trace shows its chosen run, or none if there is no such run, without annotations, and announces it once under a new number; an unreadable text shows nothing and is announced as invalid. |
| QuoteViewer.AnnotatedTakesBatch | public/quote-trace/viewer.js:279-305 | A batch for the run on display is ignored if malformed or above 1 MiB, noted as too much if 4 MiB would be exceeded, and otherwise stored item by item with the byte count exact. |
| QuoteViewer.TraceViewer.PasteText | public/quote-trace/viewer.js:248 | A paste displays exactly what loading promises, and outdates every file read under way. |
| QuoteViewer.StepKeepsBudget | public/quote-trace/viewer.js:279-305 | Every accepted, replacing, rejected or over-budget batch, run change and failed load keeps the byte count exact and within 4 MiB. |
| QuoteViewer.BudgetAlwaysExact | public/quote-trace/viewer.js:29-94 | After any sequence of inputs, while a run is shown the count is the length of everything stored; without a run nothing is stored. |
| QuoteViewer.StepCounts | public/quote-trace/viewer.js:29-118 | The counts never go back; while the sequence stands still nothing on display changes; whatever is announced carries a new number and the run on display. |
| QuoteViewer.TraceViewer.StartFile | public/quote-trace/viewer.js:231-238 | The token is newer than every earlier one; what was loaded stays behind a hidden workspace, and the count moves. |
| QuoteViewer.TraceViewer.FinishFile | public/quote-trace/viewer.js:239-246 | A read with an outdated token changes nothing at all; with the newest it displays exactly what loading promises. |
| QuoteViewer.TraceViewer.Connect | public/quote-trace/viewer.js:270-320 | Only the first port is accepted; what it is sent carries the present count and run. |
| QuoteViewer.TraceViewer.Receive | public/quote-trace/viewer.js:275-305 | A quote for the present count displays exactly what loading promises, annotations for the present count and run are taken as a batch is; a quote for another count, and annotations for another count or run, change nothing. |
| QuoteViewer.TraceViewer.TakeBatch | public/quote-trace/viewer.js:280-305 | A batch is stored whole iff it is well formed and fits the budget; otherwise nothing is stored. |
| QuoteViewer.TraceViewer.CheckBatch | public/quote-trace/viewer.js:282-297 | The checking loop passes iff ids are distinct frames, fields are short texts and the batch is at most 1 MiB, and then copies exactly those fields. |
| QuoteViewer.TraceViewer.CopyFields | public/quote-trace/viewer.js:287-295 | One item's loop passes iff its fields are valid and the running size stays within the batch limit. |
| QuoteViewer.TraceViewer.CountReplaced | public/quote-trace/viewer.js:298 | Adds up exactly the stored text the batch overwrites. |
| QuoteViewer.TraceViewer.StoreAll | public/quote-trace/viewer.js:305 | Storing the items in order gives the merged map. |
| QuoteHost.AlwaysInOrder | src/components/QuoteDebugger.tsx:22-59 | After any inputs at most the newest request can still load a quote and it is the one in progress; at most one lookup is live and it is for the run last announced. |
| QuoteHost.InterruptedWorkStaysSilent | src/components/QuoteDebugger.tsx:22-59 | After any history, a new import, run, failure, reconnection or cancel silences every earlier request, and all but the cancel every earlier lookup: whatever happens later, however late they answer, they post nothing. |
| QuoteHost.DebuggerHost.OnMessage | src/components/QuoteDebugger.tsx:42-59 | A packet announcing an import, run or failure leaves no earlier request wanted, every earlier lookup aborted and the form free; an announced run is remembered and looked up, at once if the page is ready. |
| QuoteHost.DebuggerHost.Reconnect | src/components/QuoteDebugger.tsx:71-82 | Nothing of the old connection stays in progress. |
| QuoteHost.DebuggerHost.StartQuote | src/components/QuoteDebugger.tsx:84-93 | It starts iff the form is free, configured, connected and valid; then it waits for the count last heard and no earlier request is wanted. |
| QuoteHost.DebuggerHost.FinishQuote | src/components/QuoteDebugger.tsx:94-103 | A reply is posted iff its request is the one in progress; any other reply leaves the form as it is. |
| QuoteHost.DebuggerHost.DecoderFound | src/components/QuoteDebugger.tsx:31-38 | What a lookup posts carries the number and run last announced, and it posts iff it was not aborted. |
| QuoteProtocol.InvAlways | public/quote-trace/viewer.js:270-318 | In every reachable state ports, announcements, lookups, requests, messages under way, stored annotations and file reads fit together. |
| QuoteProtocol.StoredAnnotationsBelongToTheShownRun | public/quote-trace/viewer.js:279-305 | Across both parties and all message orders, reloads and reconnections included, every stored annotation was computed from the run on display, and the byte count is exact and at most 4 MiB. |
| QuoteProtocol.AnnouncedNumbersNameOneRun | public/quote-trace/viewer.js:20-23 | On one port a sequence number announces at most one run. |
| QuoteProtocol.LateQuoteNeverReplacesNewerWork | public/quote-trace/viewer.js:276-278 | A quote is loaded only if trace, run and workspace are as they were when it was requested, in the same viewer. |
| QuoteProtocol.LateReadNeverReplacesNewerWork | public/quote-trace/viewer.js:239-246 | A file read loads only as the newest import, with nothing loaded or chosen since it was picked; all other reads under way are older. |
| QuoteProgress.FreshFrameConnects | src/components/QuoteDebugger.tsx:71-82 | Whatever happened before, a frame loaded afresh connects, and both sides agree on port and count. |
| QuoteProgress.ImportIsHeard | src/components/QuoteDebugger.tsx:42-59 | A pasted import displays what loading promises, its one announcement is delivered, and the page then knows count and run. |
| QuoteProgress.ShownRunIsAnnotated | src/components/QuoteDebugger.tsx:26-40 | An announced run on display, a page that is or becomes ready, and a batch that fits: the lookup's items are posted, delivered and stored, exactly, over what was there. |
| QuoteProgress.UndisturbedQuoteIsShown | src/components/QuoteDebugger.tsx:84-103 | An undisturbed request, reply and delivery displays what loading the quote promises, and announces it. |
| QuoteProtocol.SameMomentSameDisplay | public/quote-trace/viewer.js:29-118 | While instance and count stand still nothing on display changes, and they never go back. |
| BridgeAmounts.ParseIsFloor | src/hooks/useBridge.ts:153-163 | For every accepted text and precision, parsing is the floor of the exact decimal value scaled by the precision. |
| BridgeAmounts.ParseIsFloorQuotient | src/hooks/useBridge.ts:153-163 | The same in plain integer division. |
| BridgeAmounts.ParsesIffAccepted | src/hooks/useBridge.ts:636-640 | Over digits and dots exactly the texts the amount field accepts parse. |
| BridgeAmounts.MaxRecoversBalance | src/hooks/useBridge.ts:665-669 | MAX prints text that the field accepts and that parses back to the raw balance. |
| BridgeAmounts.DisplayedBalanceBound | src/hooks/useBridge.ts:141-150 | Entering a displayed balance gives at most the raw balance, short by less than 10^(d-4) for d above 4 and by nothing for d at most 4. |
| BridgeAmounts.DisplayedBalanceIsCut | src/hooks/useBridge.ts:141-150 | The displayed balance has no superfluous zeros and at most four decimals, and is the balance cut to four decimals. |
| BridgeAmounts.MaxIsCanonical | src/hooks/useBridge.ts:665-669 | MAX prints no superfluous zeros and at most the token's decimals. |
| Numerals.DropIsQuotient | src/hooks/useBridge.ts:142-146 | Moving digits is division and remainder by a power of the base. |
| RecentTokens.SaveRecentToken | src/hooks/useBridge.ts:215-222 | One save filters out the same token, puts it first and cuts to eight. |
| RecentTokens.TruncationCommutes | src/hooks/useBridge.ts:215-222 | After any saves the list is the first eight distinct tokens of the reversed history: cutting at each step agrees with cutting once. |
| RecentTokens.CutThenFilter | src/hooks/useBridge.ts:217-220 | Cutting before filtering loses nothing the next cut would keep. |
| RecentTokens.StoredEntriesAreNewest | src/hooks/useBridge.ts:215-222 | Every stored entry is the most recent save of its token. |
| RecentTokens.StoredKeysDistinct | src/hooks/useBridge.ts:215-222 | No token is stored twice, and at most eight are. |
| RecentTokens.StoredTokensDiffer | src/hooks/useBridge.ts:215-222 | Two stored tokens are on different chains or at different addresses, up to letter case. |
| RecentTokens.SavingKeepsOthers | src/hooks/useBridge.ts:215-222 | A save puts the token first; a stored token of another chain or address stays iff it was among the first seven or the saved one was stored before it. |
| BridgeTransaction.SameCallIffSameTransfer | src/hooks/useBridge.ts:166-178 | Two complete forms encode to the same transaction iff sender, bridge, asset, raw amount, recipient, token and target rollup agree. |
| BridgeTransaction.CallReadsBack | src/hooks/useBridge.ts:166-178 | Read word by word, a complete form's calldata is the selector of its call, for tokens the token and the raw amount, then the rollup and the recipient; the value is the raw ether; RPC, bridge and rollup are those of the direction. |
| BridgeKey.KeyUnique | src/hooks/useBridge.ts:513-515 | The RPC followed by the transaction's JSON is the same text only for the same RPC, sender, target, calldata and value, whatever characters they contain. |
| BridgeTransaction.EncodeInjective | src/hooks/useBridge.ts:113-115 | Padded words determine their number. |
| BridgeTransaction.PadAddress | src/hooks/useBridge.ts:109-111 | A padded address is one word and determines the address. |
| BridgeGas.InvAlways | src/hooks/useBridge.ts:477-548 | In every reachable state only the newest effect run can be live, and what is marked estimated is what that run asked for. |
| BridgeGas.SentGasWasEstimatedForThisTransaction | src/hooks/useBridge.ts:800-831 | In every run a transaction sent without an override carries the Composer's answer to a request for exactly its RPC, sender, target, calldata and value. |
| BridgeGas.ClickUsesTheLiveEstimate | src/hooks/useBridge.ts:802-808 | A click that goes through takes its gas from the newest, uncancelled effect run; no superseded reply reaches it. |
| BridgeGas.SendMatchesTheForm | src/hooks/useBridge.ts:819-831 | A send needs the newest effect run to have asked for this transaction and its sender still connected; with no edit waiting it is the transaction the form shows. |
| BridgeProgress.UndisturbedBridgeSends | src/hooks/useBridge.ts:477-831 | From any state with a wallet and configuration, a filled-in form that is estimated, or whose gas was chosen, and clicked without interference is sent: exactly its transaction, with the chosen gas or else the Composer's. |
| BridgeProgress.CompleteIffFilledIn | src/hooks/useBridge.ts:775-799 | Over digits and dots, effect and click go ahead exactly with a bridge, a positive amount, an address or nothing as recipient, and an address for a token. |
| BridgeGas.EditBeforeItsEffectStillSends | src/hooks/useBridge.ts:809-831 | For any two forms with different requests, a reachable run sends the one clicked while the form already shows the other, its edit still waiting for the effect. |
| BridgeForm.BridgeScreen.Estimate | src/hooks/useBridge.ts:477-508 | A run of the effect supersedes every job before it, leaves no estimate standing, and starts a new job iff the form is complete. |
| BridgeForm.BridgeScreen.ComposerEstimates | src/hooks/useBridge.ts:516-530 | An estimate for a superseded job changes nothing on the form; any other is the newest job's, and the form holds its gas for exactly its request. |
| BridgeForm.BridgeScreen.ComposerRefuses | src/hooks/useBridge.ts:531-543 | Only an unsupported method leaves a request standing, and then without gas. |
| BridgeForm.BridgeScreen.StartBridge | src/hooks/useBridge.ts:775-814 | The click goes through iff form, wallet, balance and deployment checks pass, gas is there, and the newest effect run asked for exactly this request; it then carries that run's answer unless the user chose gas. |
| BridgeForm.BridgeScreen.FinishBridge | src/hooks/useBridge.ts:817-831 | It sends iff the fee data arrived, the wallet is the same and the newest run asked for this request; what is sent carries the Composer's gas for exactly it unless overridden, and is what the form shows unless an edit waits. |
| EventReplay.ReplayIsIncremental | src/hooks/useDerivedState.ts:112-156 | Replaying to event k+1 is settling the replay to event k and applying event k+1 as the current one. |
| EventReplay.StatusesAt | src/hooks/useDerivedState.ts:117-156 | An entry is consumed or just consumed iff it is the first with its hash and some event from its adding event on consumed it; just consumed iff at k; just added iff added at k and not consumed there. |
| EventReplay.TablesShowTheirOwnLists | src/hooks/useDerivedState.ts:117-156 | In terms of the events' own l1 and l2 lists, separately: entry p has the id and shortened hash of the p-th added, is consumed iff it is the first with its hash and an event from its own on names it, just consumed iff the selected event does, just added iff that event added it and does not name it. |
| EventReplay.ShownAlike | src/lib/actionFormatter.ts:20-23 | Two 32-byte hashes are shown alike iff their first eight digits agree. |
| EventReplay.ReplayIsMonotone | src/hooks/useDerivedState.ts:112-161 | Moving forward only appends entries and never un-consumes one. |
| EventReplay.StateIsLastWrite | src/hooks/useDerivedState.ts:157-160 | The replayed state holds exactly the keys written so far, each with its last value. |
| ReplayDetails.CacheNeverChangesStatuses | src/lib/eventProcessor.ts:17-121 | Whatever was processed before, a replay shows the same entries with the same statuses. |
| ReplayDetails.DetailsAt | src/hooks/useDerivedState.ts:136-155 | The first entry with its hash shows the last detail that an event from its own on brings for it; every other entry the detail it was added with. |
| ReplayDetails.SameTableIff | src/lib/eventProcessor.ts:107-168 | Two replays from different caches show the same table iff for every entry the caches agree on its hash, or an event before its own filled it in, or a consume on its side has overwritten it since. |
| ReplayDetails.CacheLeaksLaterDetail | src/lib/eventProcessor.ts:107-168 | For every detail with a computed hash, a log whose first event a fresh page and a page that has looked ahead show differently. |
| EventReplay.Replayer.Replay | src/hooks/useDerivedState.ts:112-161 | The mutating loop computes both tables and the state that the lemmas speak about; each table shows exactly what the events' lists for its own chain say: ids and shortened hashes in order, consumed, just consumed and just added. |
| EventReplay.Replayer.MarkConsumed | src/hooks/useDerivedState.ts:136-155 | The find-and-overwrite loop marks the first entry of each consumed hash. |
| EventReplay.Replayer.AgeInPlace | src/hooks/useDerivedState.ts:122-127 | Ageing turns exactly the just-added entries into ordinary ones. |
| FundingSplit.PositionSurvives | src/components/TreasuryFundingSplit.tsx:8-23 | A slider position survives storing and re-rounding iff the residue it discards is at most half the amount. |
| FundingSplit.SliderStability | src/components/TreasuryFundingSplit.tsx:8-23 | All 10001 positions survive iff 10000 - gcd(amount, 10000) is at most half the amount. |
| FundingSplit.WorstPosition | src/components/TreasuryFundingSplit.tsx:23 | Some position discards as much as 10000 - gcd(amount, 10000). |
| FundingSplit.LargeAmountsAreStable | src/components/TreasuryFundingSplit.tsx:20-23 | From 19998 base units on every position survives. |
| FundingSplit.BoundIsTight | src/components/TreasuryFundingSplit.tsx:20-23 | 19997 loses position 3333; 10000 loses none. |
| FundingSplit.SplitAlwaysDividesAmount | src/components/TreasuryConnected.tsx:210-211 | In every run of edits both contributions are non-negative and sum to the amount. |
| FundingSplit.DefaultSplitIsGreedy | src/lib/treasury/payments.ts:105-108 | By default the Safe on the destination's chain pays the most that amount, balance and remaining allowance permit. |
| FundingSplit.SliderIsL2Share | src/components/TreasuryFundingSplit.tsx:23 | The position is the EEZ-X share of 10000; the other Safe pays the rest of the amount, rounded down. |
| FundingSplit.PositionIsNearest | src/components/TreasuryFundingSplit.tsx:8-20 | The position shown is a nearest one to the stored split. |
| FundingSplit.WhatEditsShow | src/components/TreasuryConnected.tsx:210-211 | A slider move shows its share; a change of destination and the reset show the default split; a review keeps the split; a balance read moves only the default. |
| FundingSplit.EditingBackRestoresSplit | src/components/TreasuryConnected.tsx:312-322 | Editing the amount away and back restores the chosen split. |
| FundingSplit.RescaleError | src/components/TreasuryConnected.tsx:210-211 | After an edit the first contribution is the exact proportion, short by less than one base unit. |

## Left out

- RPC endpoints, wallets, explorers, the Composer and the invoice fixture: their answers are arbitrary events.
- Lone surrogates in texts: characters are Unicode scalar values.
- JSON parsing, UTF-8 decoding, signature recovery and hashing: texts and signatures appear by what they decode to. A signature is an approval of the transaction it recovers for.
- Parsing outside the runs: context, request, failure and omission counts, the JSON types of fields, and the import size limit.
- chooseRun and captureSummary: the run chosen after a load is arbitrary; capture warnings are labels.
- The meanings listed for panic codes, decoding-status messages, and all drawing apart from which calls are visible. Exceptions thrown while drawing are not modelled.
- Opening and closing single calls of the tree, and its expand and collapse buttons.
- A closed message port is taken to deliver nothing more, and a hidden workspace to offer no run choice.
- Unmounting the debugger page; cross-tab locks and other tabs writing the treasury journal.
- Text in the treasury journal that does not parse: the screen writes only what it can read back.
- The request history store of the treasury: whether it accepts a write is an arbitrary answer.
- Draft fields, the choice of source Safe, fee quotes and fundingPreview on the treasury screen: whether funding suffices is an arbitrary answer.
- Native MAX in the bridge form, approvals of tokens, receipts, fee quotes and the checks of deployed bridges; only whether balance and deployment checks pass enters the submit handler.
- BridgeAmounts.ParseIsFloor: amount texts that the field refuses but BigInt would read (signs, prefixes, spaces).
- The live event tables, which mark every matching entry, and the highlighting of active nodes and edges.
- Setup, faucet and owner screens, the Solidity contracts, the fee kit and the deployment scripts.
