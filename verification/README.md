# Verified models of the TETRA base station's link layer and shared state

This project models, in Dafny, the parts of a TETRA base station in which a wrong branch is
hardest to see: the acknowledged links of the LLC, the rollover of network keys over wrap-around
TDMA time, and the registries that keep derived indexes. For each it proves what the code is for,
over every input and every run.

- **Acknowledged advanced link** (`Segmentation`, `Reassembly`, `Receiver`, `Sender`,
  `ReceiveWindow`, `SendWindow`, `Arq`, `ArqSteps`, `ArqReset`, `ArqTheorems`). Both halves of the
  selective-repeat protocol of section 22.3.3 of ETSI TS 100 392-2, with 3-bit N(S), a window of
  1 to 3, per-segment reassembly, N.273/N.274 recovery and in-place resets, composed with a MAC
  and a channel that loses, duplicates and reorders. `Offers`, `Unanswered`,
  `RecoveryRound` and `AnyData` say what each end puts on the air, attempt by attempt and whatever
  arrives; `Accounts` and `ResetLoss` what becomes of each TL-SDU, across resets too;
  `SendProgress`, `NoStall`, `RunSteps`, `StallRuns` and `NarrowWindows` when the link keeps going;
  `Recovery` and `RecoveryRuns` how often a TL-SDU can be offered.
- **The LLC's queues** (`Terminals`, `LinkSetup`, `Conservation`, `SenderLoops`, `LlcEntity`). Links
  set up, reset and given up, and the same code as the program runs it: a class whose methods
  update maps and queues in place, proved equal to the functions the protocol theorems are about,
  and proved to lose track of no TL-SDU.
- **Basic link** (`BasicLink`, `BasicLinkRuns`, `BasicLinkTimers`, `BasicLinkEntity`). Stop and wait
  per terminal, with the FCS shared by both links (`Fcs`, `FcsDetection`).
- **TDMA time and SC2 rollover** (`Tdma`, `NetworkTime`, `Sc2Rollover`, `AieConfig`), **SC3G
  rollover** (`Sc3gRollover`, `Sc3Config`). Which key belongs to an air slot while software runs
  ahead of or behind the air (sections 4.5.5.4 and 4.5.5.6 of EN 300 392-7, as the code cites
  them). Keys are opaque identities.
- **Registries** (`ControlChannels`, `Subscribers`, `DmGateways`). Balanced control channels, the
  attached-group index and the direct-mode gateway routes.

Code that updates fields in place is modelled by classes and methods with loops; each is proved
against a function on values, and the theorems are about those functions.

## Assumptions

- A data PDU arrives at most `8 - window` TL-SDUs below the receive base, an acknowledgement at
  most `7 - window` below the front of the send queue. Modulo-8 numbers need both bounds; nothing
  tighter is assumed, and both are proved to suffice.
- The window is fixed during a run of the composed system. Only AL-SETUP changes it.
- A reset is confirmed when the channel has drained and the peer has cleared its receive variables.
- A PDU that the MAC discarded before any attempt was reported on the air does not go on the air later.
- TL-SDUs of the composed system have at most 54752 bits, so that 8-bit segment numbers are distinct.
- Arithmetic on i32 wraps as in a release build; theorems say where a sum may not overflow.
- Each TL-SDU has an upper-layer receipt that expects an acknowledgement. The number by which the
  model identifies it, and the absolute number behind its N(S), are history that no branch reads.
- Routes and air-interface protection enter as parameters: whether a packet route is live, how many
  copies an attempt is sent in, and whether the protection of an answer matches.

## Findings

Properties that the code does not meet in full, each with the input and the exact condition.

- **Segment capacity.** The last segment can exceed 214 bits (185 segments, 215 bits). It keeps to
  the capacity exactly under `FinalFits` (`SegmentShape`), and for all lengths of n segments exactly
  when n is at most 184 (`CapacityUpTo184Segments`).
- **Acknowledged and then missed.** The peer acknowledges what it holds behind a gap, the sender
  forgets it, and a reset clears it before it is handed up. `ResetLoss.AcknowledgedThenMissed` gives
  a run for windows of two and three, and over all runs an acknowledged TL-SDU has been handed up,
  and is never missed, exactly when the window is one (`AcknowledgedIsHandedUp`).
  `Accounts.MissingAfterReset` says for each TL-SDU whether a reset loses it.
- **Silent link after a below-window reply.** That reply covers only the TL-SDUs from the repeated
  one on. Over all runs, whatever the peer reports, no ready link stalls exactly when the window is
  one (`NarrowWindows.OnlyOneNeverStalls`). For a window of two as of three,
  `StallRuns.BelowWindowReplyStalls` gives a run that ends with TL-SDUs queued and no turn ever
  offering again.
- **Silent link after a stale report.** Reports on the whole window keep every link going exactly
  when the window is one or two (`WholeWindowReportsSuffice`). For three,
  `StallRuns.StaleReportStalls` gives a run in which every report covers the window and the last
  one, older than the front, silences the link; without such a report `NoStall` holds.
- **Success after AL-RNR.** An AL-SETUP Success clears the time T.271 counts from but not the
  not-ready flag; the link is mute exactly when the peer was not ready and no reset was on
  (`SuccessMutes`, `SuccessReopens`).
- **Promotions out of order.** The check that a new rollover is later than the activated one is
  skipped while another staged record is in place or after a cancel. `CarelessStaging` is the exact
  condition, `PromotionsCanGoBackInTime` a run.
- **Early promotion.** A rollover announced more than half the hyperframe cycle ahead is found due
  before its slot. `NeverEarly` is exact on slots and `PromotedEarly` on what software then does;
  `PromotedBeforeItsSlot` is a run.
- **A pair naming another key.** SC3G keeps every replaced pair resolvable, but the same GCKN and
  GCK-VN can later name another key. `OldKeysStayResolvable` is exact on states,
  `OldKeysStayUnlessRefiled` on the snapshots accepted, and `PairGivenToAnotherKey` is a run.
- **Unbalanced channels after departures.** The program does not rebalance when a terminal leaves
  or its delivery fails. Loads then differ by up to one more than the number of departures, and
  `DeparturesUnbalance` shows that this bound is exact for every number.
- **256 segments all received without the end.** The block then asks for segment 255, which the
  receiver has (`BlockNamesExactlyTheLacking`). `ExhaustedArises` says exactly which arrivals lead
  there.

## Model

| member | source | states |
|---|---|---|
| Accounts.ReliableDelivery | crates/tetra-entities/src/llc/llc_bs_ms.rs:1339-1602 | At any time of any run, over any loss, duplication and reordering and any number of in-place resets: the TL-SDUs the peer handed up are, bit for bit, accepted ones, in order and without repetition, a prefix until the first reset; each accepted one is queued, acknowledged or given up, and only one of these; and each one neither acknowledged nor given up has been handed up or may still be. |
| Accounts.RunBooks | crates/tetra-entities/src/llc/llc_bs_ms.rs:1531-1558 | Over any run each accepted TL-SDU is queued, or was completed as acknowledged, or was given up, and exactly one of these. |
| Accounts.MissedForGood | crates/tetra-entities/src/llc/llc_bs_ms.rs:1339-1478 | A TL-SDU neither handed up nor still to come is never handed up, whatever happens. |
| Accounts.OnlyEndedAreMissed | crates/tetra-entities/src/llc/llc_bs_ms.rs:916-1003 | Nothing is missed by the peer but what was acknowledged or given up. |
| Accounts.MissingAfterReset | crates/tetra-entities/src/llc/llc_bs_ms.rs:916-1003 | When a reset is confirmed, exactly the TL-SDUs of the old numbering at or above the peer's base are missing from what was handed up; each is queued again, was given up or was acknowledged, exactly one of these, and it is missed for good exactly in the last two cases. |
| ResetLoss.AcknowledgedThenMissed | crates/tetra-entities/src/llc/llc_bs_ms.rs:916-1003 | For a window of two or three there is a run, through a reset and its confirmation, at whose end a TL-SDU completed as acknowledged is missed for good. |
| ResetLoss.AcknowledgedIsHandedUp | crates/tetra-entities/src/llc/llc_bs_ms.rs:1363-1479 | Over all runs, every TL-SDU completed as acknowledged has been handed up by then, and none is missed for good, if and only if the window is one. |
| ArqTheorems.DeliversInOrder | crates/tetra-entities/src/llc/llc_bs_ms.rs:1339-1478 | In every reachable state what the peer handed up is an unaltered, ordered subsequence without repetition of what was accepted; a prefix until the first reset. |
| ArqTheorems.NothingForgotten | crates/tetra-entities/src/llc/llc_bs_ms.rs:1531-1558 | While no reset is on, every TL-SDU accepted since the last one is still queued or the peer has every bit of it: no acknowledgement drops one the peer lacks. |
| ArqTheorems.AcknowledgementSoundness | crates/tetra-entities/src/llc/llc_bs_ms.rs:828-835 | In every reachable state, each TL-SDU an acknowledgement completes, by a positive block or because the window passed it, is one the peer holds completely; blocks that alias a later N(S) generation complete nothing wrong. |
| ArqTheorems.SendWindowHolds | crates/tetra-entities/src/llc/llc_bs_ms.rs:1894-1938 | In every reachable state all data on the air and all TL-SDUs in flight lie within one window above the front although middle entries leave out of order, so N(S) is unique in flight; at most one acknowledgement request is pending. |
| ArqTheorems.GuardsExcludeNothing | crates/tetra-entities/src/llc/llc_bs_ms.rs:1731-1760 | The conditions under which the model may take a turn or an acknowledgement hold in every reachable state, so the step relation leaves out no step of the program. |
| ArqTheorems.StepKeeps | crates/tetra-entities/src/llc/llc_bs_ms.rs:1339-1602 | Every action of the composed sender, peer, MAC and channel keeps the joint invariant of both ends. |
| ArqTheorems.RunKeeps | crates/tetra-entities/src/llc/llc_bs_ms.rs:1339-1602 | The joint invariant holds after any number of actions. |
| ArqSteps.DeliverDataKeeps | crates/tetra-entities/src/llc/llc_bs_ms.rs:1339-1478 | A data PDU arriving at most 8 - window below the receive base keeps the joint invariant, wherever it lies. |
| ArqReset.RestartKeeps | crates/tetra-entities/src/llc/llc_bs_ms.rs:916-1003 | Beginning an in-place reset in any state keeps the joint invariant: what the sender keeps arrived after everything the peer can still hand up. |
| ArqReset.ConfirmKeeps | crates/tetra-entities/src/llc/llc_bs_ms.rs:1266-1273 | The Success that completes a reset puts both ends back in step with the queue renumbered from 0. |
| ArqReset.RetainedShape | crates/tetra-entities/src/llc/llc_bs_ms.rs:928-945 | An in-place reset keeps exactly the never-offered TL-SDUs other than the failed one, in their old order, with N(S) 0, 1, 2, ... modulo 8. |
| ArqReset.ResetConserves | crates/tetra-entities/src/llc/llc_bs_ms.rs:928-964 | What a reset keeps and what it gives up are together the whole old queue, each in its old order. |
| ReceiveWindow.Disambiguation | crates/tetra-entities/src/llc/llc_bs_ms.rs:1357-1390 | For a PDU no further than 8 - window below the receive base, the two modulo-8 tests tell exactly whether its absolute number is in or below the window, and its distance. |
| ReceiveWindow.ReceiveKeepsWindow | crates/tetra-entities/src/llc/llc_bs_ms.rs:1339-1478 | Whatever genuine PDU arrives within the staleness bound, the receiver hands up the next accepted TL-SDUs only, keeps a consistent window, forgets nothing it held, and acknowledges only what it has. |
| ReceiveWindow.WindowBlocksClaim | crates/tetra-entities/src/llc/llc_bs_ms.rs:247-265 | Every positive block of a window report names a TL-SDU the receiver has completely. |
| SendWindow.AckKeeps | crates/tetra-entities/src/llc/llc_bs_ms.rs:1500-1602 | An acknowledgement no older than 7 - window below the front, whose positive claims are true, keeps the send window and removes only TL-SDUs the peer holds. |
| SendWindow.BlocksKeep | crates/tetra-entities/src/llc/llc_bs_ms.rs:1531-1598 | The block loop keeps the send window whatever entries the blocks name, including ones of a later N(S) generation. |
| SendWindow.PassedAreBelow | crates/tetra-entities/src/llc/llc_bs_ms.rs:1502-1530 | The entries retired from the front were on the air and lie below the base the report names. |
| SendWindow.OfferableIsInWindow | crates/tetra-entities/src/llc/llc_bs_ms.rs:1894-1938 | A TL-SDU that may be offered lies within one window of the front in absolute numbers, even when the queue spans several N(S) cycles. |
| SendWindow.OfferAllKeeps | crates/tetra-entities/src/llc/llc_bs_ms.rs:1939-1997 | Offering the selected TL-SDUs keeps the send window, picks none that is in flight, and leaves at most one acknowledgement request. |
| NoStall.NoStall | crates/tetra-entities/src/llc/llc_bs_ms.rs:1803-1997 | If every acknowledgement taken covered the whole window and was no older than the front, then in every reachable state with a queue, a ready receiver and a live route the next turn leaves an acknowledgement request outstanding, having offered something if none was, or finds the link exhausted. |
| NarrowWindows.NoStallInNarrowWindows | crates/tetra-entities/src/llc/llc_bs_ms.rs:1803-1997 | With a window of one or two the same holds for all reports on the whole window, however old the channel lets them be. |
| NarrowWindows.WholeWindowReportsSuffice | crates/tetra-entities/src/llc/llc_bs_ms.rs:1500-1530 | Over all runs in which every report covers the whole window, no ready link stalls with TL-SDUs queued if and only if the window is at most two. |
| NarrowWindows.OneBlockCovers | crates/tetra-entities/src/llc/llc_bs_ms.rs:1363-1379 | With a window of one every report the peer can send covers the whole window, below-window replies included. |
| NoStall.TurnSpeaks | crates/tetra-entities/src/llc/llc_bs_ms.rs:1803-1997 | One turn of a link with something requested or something ready in the window speaks: it ends with a request outstanding. |
| SendProgress.SelectedFinds | crates/tetra-entities/src/llc/llc_bs_ms.rs:1894-1938 | With nothing requested and something idle in the window, selection finds something to offer within its budget. |
| SendProgress.PassedReaches | crates/tetra-entities/src/llc/llc_bs_ms.rs:1502-1530 | After a window report everything sent below its base has left the front. |
| SendProgress.WindowReportRevives | crates/tetra-entities/src/llc/llc_bs_ms.rs:1500-1598 | A report on the whole window, no older than the front, leaves a queue with a request outstanding or something ready, whatever was abandoned before. |
| NarrowWindows.OnlyOneNeverStalls | crates/tetra-entities/src/llc/llc_bs_ms.rs:1363-1379 | Over all runs, with whatever reports the peer sends, no ready link stalls with TL-SDUs queued if and only if the window is one. |
| NoStall.BelowWindowReplySilences | crates/tetra-entities/src/llc/llc_bs_ms.rs:1363-1379 | With a window of two or three, the reply to a repeated last TL-SDU of a delivered window retires that one alone; the others stay queued and no turn ever offers again. |
| StallRuns.BelowWindowReplyStalls | crates/tetra-entities/src/llc/llc_bs_ms.rs:1363-1379 | That state is reached with a window of two and of three: a run all of whose earlier acknowledgements met the condition ends one below-window reply away from silence with TL-SDUs queued. |
| NoStall.StaleReportSilences | crates/tetra-entities/src/llc/llc_bs_ms.rs:1500-1560 | A whole-window report older than the front can retire the only TL-SDU that was asked about and leave the next one unasked for ever. |
| StallRuns.StaleReportStalls | crates/tetra-entities/src/llc/llc_bs_ms.rs:1500-1560 | That state is reached too: a run in which every report covers the whole window ends one stale report away from silence with a TL-SDU queued. |
| NoStall.SuccessMutes | crates/tetra-entities/src/llc/llc_bs_ms.rs:1252-1273 | An AL-SETUP Success leaves the link without any offer until a further AL-ACK, at any time and over any route, if and only if the peer was not ready and no reset was on. |
| NoStall.MutedStays | crates/tetra-entities/src/llc/llc_bs_ms.rs:1863-1888 | Such a link stays mute turn after turn: T.271 cannot reopen it. |
| NoStall.SuccessReopens | crates/tetra-entities/src/llc/llc_bs_ms.rs:1252-1273 | With a queue of waiting TL-SDUs, the turn after a Success offers something if and only if the peer was ready or a reset was on. |
| Offers.TurnOffers | crates/tetra-entities/src/llc/llc_bs_ms.rs:1939-1997 | Each TL-SDU a turn offers is there with exactly the segments named, in that order, or with all of them, each under its own number modulo 256 and only the last one final; over the whole turn exactly the last PDU of the last TL-SDU asks for the acknowledgement. |
| Offers.WholeTlSduIsOffered | crates/tetra-entities/src/llc/llc_bs_ms.rs:1942-1962 | In every state of the invariant, when nothing is named the bodies of the PDUs offered for a TL-SDU joined in order are, bit for bit, the TL-SDU accepted and its FCS, numbered 0, 1, 2, ... and the last alone final. |
| Offers.TurnPicks | crates/tetra-entities/src/llc/llc_bs_ms.rs:1863-1941 | Unless something is exhausted, no route is live, the link waits for its AL-SETUP or an acknowledgement is already asked for, a turn offers the first candidates in absolute numbers, as many as the window has room for: idle, within a window of the oldest, with retries left, and with segments named while the peer is not ready. |
| Offers.TurnMarks | crates/tetra-entities/src/llc/llc_bs_ms.rs:1990-1996 | A turn marks what it offered as under way with nothing named any more, asks about the last one, and leaves every other TL-SDU as it was looked at. |
| Offers.PeerIsBelieved | crates/tetra-entities/src/llc/llc_bs_ms.rs:1480-1499 | After an acknowledgement the peer is taken to be ready at once if it said so, and otherwise from exactly T.271 later on. |
| Offers.TurnKeepsTheWord | crates/tetra-entities/src/llc/llc_bs_ms.rs:1863-1888 | A turn keeps what the peer said of its receiver until T.271 has run out, and forgets it then. |
| Offers.NotReadyHoldsBack | crates/tetra-entities/src/llc/llc_bs_ms.rs:1920-1930 | While the peer is not ready a turn offers only TL-SDUs of which segments have been named. |
| Unanswered.TimerRuns | crates/tetra-entities/src/llc/llc_bs_ms.rs:1803-1822 | T.252 runs from the tick that notices the attempt on the air, and until it ends a look changes nothing. |
| Unanswered.TimerEnds | crates/tetra-entities/src/llc/llc_bs_ms.rs:1822-1857 | When T.252 ends without an answer the TL-SDU waits for its next attempt with everything else about it unchanged, or the link is exhausted. |
| Unanswered.UnansweredAttempts | crates/tetra-entities/src/llc/llc_bs_ms.rs:1822-1857 | A TL-SDU nobody answers is attempted exactly 6 * (N.273 + 1) times before the link is exhausted: whole at every sixth attempt, by its final segment alone at the others. |
| RecoveryRound.ChargedOnce | crates/tetra-entities/src/llc/llc_bs_ms.rs:1578-1581 | Each segment named is charged once, and the limit is passed exactly when one of them had no repetition left. |
| RecoveryRound.BlockMakesDue | crates/tetra-entities/src/llc/llc_bs_ms.rs:1562-1591 | A block makes exactly the segments it names due, charging those alone, or, with one of them used up or with length 63, the whole TL-SDU at the cost of one N.273 repetition; the acknowledgement requests start over. |
| RecoveryRound.RecoveryThroughTheSender | crates/tetra-entities/src/llc/llc_bs_ms.rs:1531-1598 | The receiver's partial block taken in by the sender, and the next offer of that TL-SDU taken in by the receiver: it then lacks exactly what it lacked beyond the described position, at least one segment less; with a limit reached the offer carries every segment. |
| RecoveryRound.WholeAgainThroughTheSender | crates/tetra-entities/src/llc/llc_bs_ms.rs:1568-1570 | After a block of length 63 the next offer of that TL-SDU carries every segment. |
| RecoveryRuns.RecoveryTerminates | crates/tetra-entities/src/llc/llc_bs_ms.rs:1562-1598 | Between resets a TL-SDU of n segments is offered at most 6 * (N.273 + 1 + n * (N.274 + 1)) + 6 times, not counting offers whose attempt the MAC discards. |
| RecoveryRuns.RunPays | crates/tetra-entities/src/llc/llc_bs_ms.rs:1562-1598 | Over any stretch of a run without reset, offers of a TL-SDU are paid for by recovery budget it loses or by MAC discards. |
| RecoveryRuns.StepPays | crates/tetra-entities/src/llc/llc_bs_ms.rs:1822-1857 | No single action offers a TL-SDU without lowering its remaining recovery budget. |
| Recovery.AckUses | crates/tetra-entities/src/llc/llc_bs_ms.rs:1562-1598 | An acknowledgement that asks only for existing segments never restores recovery budget, and lowers that of every TL-SDU it makes idle. |
| Segmentation.SegmentsJoin | crates/tetra-entities/src/llc/llc_bs_ms.rs:1029-1036 | The segments joined in order are the TL-SDU followed by its FCS. |
| Segmentation.FewestSegments | crates/tetra-entities/src/llc/llc_bs_ms.rs:1015-1018 | No division into pieces of at most 214 bits has fewer segments. |
| Segmentation.SegmentShape | crates/tetra-entities/src/llc/llc_bs_ms.rs:1015-1027 | Non-final segments are equal and of 183 to 214 bits, the last has at least 32, and it keeps to 214 if and only if the last full-size piece could hold the FCS or the segments before it can each give up a bit for it. |
| Segmentation.CapacityUpTo184Segments | crates/tetra-entities/src/llc/llc_bs_ms.rs:1018-1026 | Every TL-SDU of n segments keeps to the 214-bit capacity if and only if n is at most 184. |
| Segmentation.AdvancedSegments | crates/tetra-entities/src/llc/llc_bs_ms.rs:1005-1037 | The loop over the lengths computes the segmentation those results are about. |
| Segmentation.ChooseLengths | crates/tetra-entities/src/llc/llc_bs_ms.rs:1013-1027 | The lengths chosen sum to the protected TL-SDU. |
| Reassembly.SegmentNumbersAreDistinct | crates/tetra-entities/src/llc/llc_bs_ms.rs:1957-1962 | Segments of one TL-SDU carry distinct 8-bit numbers if and only if it has at most 54752 bits. |
| Reassembly.ReassemblyRoundTrip | crates/tetra-entities/src/llc/llc_bs_ms.rs:1405-1435 | Segments absorbed in any order and with any repetition complete exactly when every one was among them, and then give the TL-SDU back with a passing FCS. |
| Reassembly.BlockNamesExactlyTheLacking | crates/tetra-entities/src/llc/llc_bs_ms.rs:150-181 | The missing set decoded from a partial block is exactly what the receiver lacks in the described range, encodable, and never a received segment, except when all of 0 to 255 are there and the end is not; that exception is characterised. |
| Reassembly.BlockReachesTheLast | crates/tetra-entities/src/llc/llc_bs_ms.rs:150-181 | A block describes every segment up to the last one received or known to exist, unless that lies more than 61 beyond the first lacking one. |
| Reassembly.ExhaustedArises | crates/tetra-entities/src/llc/llc_bs_ms.rs:1405-1435 | From segments of one TL-SDU arriving in any order and repeated, none of them the final one, the receiver waits, and has exhausted its 256 numbers exactly when each of 0 to 255 was among them. |
| Reassembly.FirstSegmentsExhaust | crates/tetra-entities/src/llc/llc_bs_ms.rs:1405-1435 | 256 such PDUs, numbered 0 to 255, reach that state. |
| Reassembly.RecoveryRoundMakesProgress | crates/tetra-entities/src/llc/llc_bs_ms.rs:1570-1587 | One loss-free recovery round removes exactly the named segments from those lacking, and there is at least one. |
| Receiver.TakeData | crates/tetra-entities/src/llc/llc_bs_ms.rs:1339-1478 | The data handler, run loop by loop, is the reception function of the theorems: window classification, reassembly, FCS, blocks, ordered delivery. |
| Receiver.Finish | crates/tetra-entities/src/llc/llc_bs_ms.rs:1412-1474 | Completion, FCS failure and the acknowledgement that follows, in the program's order: blocks are computed before delivery moves the base. |
| AnyData.OnlyCheckedIsDelivered | crates/tetra-entities/src/llc/llc_bs_ms.rs:1412-1474 | Whatever PDU arrives, genuine or not, everything held as complete or delivered has all its segments and passed the check. |
| AnyData.FirstCopyStays | crates/tetra-entities/src/llc/llc_bs_ms.rs:1405-1411 | The first copy of a segment stays, whatever a later one with the same number says. |
| AnyData.SegmentTakenIn | crates/tetra-entities/src/llc/llc_bs_ms.rs:1405-1411 | A PDU adds its segment and nothing else to an entry, and the final number is the last one marked final. |
| AnyData.AnswerInWindow | crates/tetra-entities/src/llc/llc_bs_ms.rs:1391-1460 | Any PDU in the window is answered exactly when it asks or leaves no segment lacking; the answer covers the window and acknowledges exactly the TL-SDUs held complete at that moment, all of which passed the check. |
| AnyData.FailedCheck | crates/tetra-entities/src/llc/llc_bs_ms.rs:1437-1454 | When the assembled bits fail the check, the block for that N(S) has length 63, nothing of the TL-SDU is delivered, the others stay, and its next segment finds an empty entry. |
| AnyData.AnswerOutsideWindow | crates/tetra-entities/src/llc/llc_bs_ms.rs:1357-1390 | A repetition from at most one window below is acknowledged with exactly the numbers from its own up to the window; anything else outside gets no answer; nothing changes either way. |
| Receiver.DeliverInOrder | crates/tetra-entities/src/llc/llc_bs_ms.rs:1461-1474 | Delivery stops at the first gap and removes what it delivers. |
| Receiver.Blocks | crates/tetra-entities/src/llc/llc_bs_ms.rs:247-265 | One block per window position, with the override in place. |
| Receiver.AssembleSegments | crates/tetra-entities/src/llc/llc_bs_ms.rs:1416-1428 | Assembly concatenates segments 0 to the last in order. |
| Fcs.ComputeFcs | crates/tetra-entities/src/llc/components/fcs.rs:5-29 | The bitwise register loop computes polynomial division as specified bit by bit. |
| Fcs.ProtectedPassesCheck | crates/tetra-entities/src/llc/components/fcs.rs:31-47 | A TL-SDU followed by its FCS always passes the check and gives the TL-SDU back. |
| FcsDetection.GeneratorIs04C11DB7 | crates/tetra-entities/src/llc/components/fcs.rs:23-25 | The generator polynomial is 0x04C11DB7. |
| FcsDetection.CheckIsResidue | crates/tetra-entities/src/llc/components/fcs.rs:31-41 | Bits pass the check exactly when, divided to their end, they leave the residue of 32 ones. |
| FcsDetection.UndetectedErrors | crates/tetra-entities/src/llc/components/fcs.rs:31-41 | An error in bits that passed the check goes unnoticed if and only if the polynomial divides it. |
| FcsDetection.BurstsAreDetected | crates/tetra-entities/src/llc/components/fcs.rs:31-41 | Every burst of errors within 32 consecutive bits fails the check. |
| FcsDetection.OneFlippedBit | crates/tetra-entities/src/llc/components/fcs.rs:31-41 | Flipping any one bit of a protected TL-SDU fails the check. |
| SenderLoops.TakeAck | crates/tetra-entities/src/llc/llc_bs_ms.rs:1500-1598 | The handler's loops over the front and over the blocks compute the queue, the completed entries and the exhausted N(S) the theorems speak of. |
| SenderLoops.RetirePassed | crates/tetra-entities/src/llc/llc_bs_ms.rs:1502-1530 | The pop loop removes exactly the passed prefix, in order. |
| SenderLoops.TakeBlocks | crates/tetra-entities/src/llc/llc_bs_ms.rs:1531-1598 | The block loop stops at the first exhausted TL-SDU and reports the others in order. |
| SenderLoops.ListMissing | crates/tetra-entities/src/llc/llc_bs_ms.rs:1570-1577 | The first missing number and the bitmap's gaps, restricted to existing segments. |
| SenderLoops.ChargeEach | crates/tetra-entities/src/llc/llc_bs_ms.rs:1578-1581 | One retransmission is charged to each named segment up to and including the first over its limit. |
| SenderLoops.ObserveQueue | crates/tetra-entities/src/llc/llc_bs_ms.rs:1803-1857 | The observation pass stops at the first exhausted TL-SDU and leaves those behind it alone. |
| SenderLoops.Select | crates/tetra-entities/src/llc/llc_bs_ms.rs:1894-1938 | The selection loop picks the first offerable positions within the free window and none while a request is pending. |
| SenderLoops.OfferSelected | crates/tetra-entities/src/llc/llc_bs_ms.rs:1939-1997 | The offer loop hands out the PDUs of the picked TL-SDUs; only the last segment of the last one asks. |
| SenderLoops.SplitForReset | crates/tetra-entities/src/llc/llc_bs_ms.rs:928-964 | The split loop computes kept and lost as the reset results describe them. |
| Conservation.AcceptConserves | crates/tetra-entities/src/llc/llc_bs_ms.rs:1039-1098 | A TL-SDU handed to the LLC is queued behind everything older for its terminal, or ends Lost exactly when 64 are already queued. |
| Conservation.AttachConserves | crates/tetra-entities/src/llc/llc_bs_ms.rs:1104-1137 | Moving waiting TL-SDUs loses none but by age, keeps arrival order, and leaves none waiting at a terminal with a link. |
| Conservation.AttachNumbers | crates/tetra-entities/src/llc/llc_bs_ms.rs:1104-1137 | TL-SDUs that waited get consecutive N(S) after those already queued. |
| Conservation.HearAckConserves | crates/tetra-entities/src/llc/llc_bs_ms.rs:1480-1602 | Across an acknowledgement, including the reset it may begin, each queued TL-SDU stays queued in order or ends, never both, never neither. |
| Conservation.ResetConserves | crates/tetra-entities/src/llc/llc_bs_ms.rs:916-964 | Across an in-place reset each TL-SDU stays queued or ends Lost. |
| Conservation.SetupConserves | crates/tetra-entities/src/llc/llc_bs_ms.rs:1195-1337 | Across an AL-SETUP each TL-SDU of the terminal stays queued or ends; afterwards it has a link and nothing waits. |
| Conservation.DisconnectConserves | crates/tetra-entities/src/llc/llc_bs_ms.rs:1656-1674 | An AL-DISC ends everything the terminal had, queued or waiting, as Lost. |
| Conservation.EndTickConserves | crates/tetra-entities/src/llc/llc_bs_ms.rs:1755-2026 | Across the end of a tick (offers, timers, resets, links given up) each TL-SDU stays queued in order or ends. |
| Conservation.EndLostShape | crates/tetra-core/src/tx_receipt.rs:134-165 | Ending any queue as lost gives every receipt in it the state Lost; no receipt is driven through a transition that would stop the program. |
| LinkSetup.NegotiationAgrees | crates/tetra-entities/src/llc/llc_bs_ms.rs:1217-1318 | A request other than a Success leaves a fresh link within what was asked and what can be done, answered with exactly its parameters; the answer is a Service change, and the link waits for the peer, exactly when a Service definition could not be granted as it stands. |
| LinkSetup.SuccessConfirms | crates/tetra-entities/src/llc/llc_bs_ms.rs:1252-1284 | A Success is not answered; it makes the link ready, keeps its queue and numberings, and ends an in-place reset. |
| LinkSetup.ConfirmationIsTheHandlers | crates/tetra-entities/src/llc/llc_bs_ms.rs:1252-1273 | The confirmation of a reset in the composed system is what the handler does. |
| LinkSetup.ResetBegins | crates/tetra-entities/src/llc/llc_bs_ms.rs:928-1003 | A reset clears both directions, starts both numberings at 0, closes the link, and hands over the first AL-SETUP. |
| LinkSetup.AckMayReset | crates/tetra-entities/src/llc/llc_bs_ms.rs:1592-1601 | An acknowledgement that exhausts a TL-SDU resets the link there and then; what it completed ends acknowledged and what the reset gives up ends lost. |
| LinkSetup.ResettingIgnores | crates/tetra-entities/src/llc/llc_bs_ms.rs:1339-1356 | While it resets a link takes in neither data nor acknowledgements, offers nothing and is not reset again. |
| LinkSetup.SetupTimerRuns | crates/tetra-entities/src/llc/llc_bs_ms.rs:1753-1762 | While the MAC holds an AL-SETUP, and for T.261 after it is noticed on the air, nothing is repeated. |
| LinkSetup.SetupTimerEnds | crates/tetra-entities/src/llc/llc_bs_ms.rs:1758-1786 | After T.261, or at once when discarded, the AL-SETUP of a reset is repeated, at most three times; after the fourth attempt the reset is exhausted. |
| LinkSetup.ResettingLinkGoes | crates/tetra-entities/src/llc/llc_bs_ms.rs:1753-1789 | A resetting link is given up exactly when its last AL-SETUP is exhausted. |
| LinkSetup.UnconfirmedLinkGoes | crates/tetra-entities/src/llc/llc_bs_ms.rs:1791-1799 | A link that waits for the peer's Success offers nothing and is given up exactly when 64 slots have passed. |
| LinkSetup.ReadyLinkTurns | crates/tetra-entities/src/llc/llc_bs_ms.rs:1801-2026 | A ready link takes its turn; an exhausted one resets, and the queue of one given up ends. |
| LlcEntity.OneTerminalSteps | crates/tetra-entities/src/llc/llc_bs_ms.rs:1039-1137 | A conserving step of one terminal keeps the whole LLC sound: every TL-SDU ever accepted is in exactly one queue or has ended. |
| LlcEntity.OneTerminalTakesIn | crates/tetra-entities/src/llc/llc_bs_ms.rs:1139-1144 | Taking in a new TL-SDU for one terminal keeps the whole LLC sound. |
| LlcEntity.Llc.Request | crates/tetra-entities/src/llc/llc_bs_ms.rs:1139-1144 | Keeps soundness; only that terminal changes, and the new TL-SDU is queued or ends at once. |
| LlcEntity.Llc.LinkData | crates/tetra-entities/src/llc/llc_bs_ms.rs:1039-1070 | Queues on the link exactly when there is one with room, and changes nothing else. |
| LlcEntity.Llc.QueueData | crates/tetra-entities/src/llc/llc_bs_ms.rs:1072-1098 | Holds data back for its terminal, or ends it Lost when 64 are queued there. |
| LlcEntity.Llc.ProcessPending | crates/tetra-entities/src/llc/llc_bs_ms.rs:1104-1137 | In whatever order the map yields them, every terminal is attached as if alone; data then waits only where there is no link. |
| LlcEntity.Llc.HearAcknowledgement | crates/tetra-entities/src/llc/llc_bs_ms.rs:1480-1602 | Keeps soundness; only that terminal changes, and completed TL-SDUs end Acknowledged, given-up ones Lost. |
| LlcEntity.Llc.HearDisconnect | crates/tetra-entities/src/llc/llc_bs_ms.rs:1656-1706 | Keeps soundness; only a Close of link 0 is answered, and everything of that terminal ends Lost. |
| LlcEntity.Llc.HearSetup | crates/tetra-entities/src/llc/llc_bs_ms.rs:1195-1337 | Keeps soundness; the terminal gets the negotiated or confirmed link, the others only have waiting data attached; outcomes already reported stay and every new one is a loss. |
| LlcEntity.Llc.HearData | crates/tetra-entities/src/llc/llc_bs_ms.rs:1339-1478 | Keeps soundness; only the receiving half of that link changes, and a resetting link ignores the PDU. |
| LlcEntity.Llc.BeginResetAt | crates/tetra-entities/src/llc/llc_bs_ms.rs:916-1003 | One link resets in place; what is given up ends Lost. |
| LlcEntity.Llc.SubmitAdvanced | crates/tetra-entities/src/llc/llc_bs_ms.rs:1731-2026 | Keeps soundness; every link takes exactly its own turn, in any order; outcomes already reported stay and every new one is a loss. |
| Tdma.AddThenDiff | crates/tetra-core/src/tdma_time.rs:86-93 | Adding n slots and then differencing gives n back if and only if n lies in half a cycle either way. |
| Tdma.TimeIntDiff | crates/tetra-core/src/tdma_time.rs:53-61 | The two correction loops terminate with the reduced difference. |
| Tdma.IntDiffIsTheUniqueRepresentative | crates/tetra-core/src/tdma_time.rs:50-61 | That difference is the only congruent value in [-W/2, W/2). |
| Tdma.FromIntInvertsToInt | crates/tetra-core/src/tdma_time.rs:69-83 | Converting a valid time to an integer and back is the identity. |
| Tdma.ToIntInvertsFromInt | crates/tetra-core/src/tdma_time.rs:69-83 | Converting an integer to a time and back reduces it modulo one hyperframe cycle. |
| Tdma.AddTimeslotsToInt | crates/tetra-core/src/tdma_time.rs:86-88 | Without i32 overflow, adding slots moves the slot number by that many modulo the cycle. |
| Tdma.AddMore | crates/tetra-core/src/tdma_time.rs:86-88 | Adding slots in two steps is adding them at once. |
| Tdma.WrapIsTheI32 | crates/tetra-core/src/tdma_time.rs:86-88 | The wrapped sum is the one i32 that agrees with it modulo 2^32. |
| Tdma.NextSysinfo | crates/tetra-core/src/tdma_time.rs:109-116 | Security SYSINFO comes at least every 24 slots, and the computed wait is to the first. |
| Tdma.NextTimeslot | crates/tetra-core/src/tdma_time.rs:104-107 | The slot found is the first one with that number, within four slots. |
| Tdma.ForwardToSc2SecuritySysinfo | crates/tetra-core/src/tdma_time.rs:120-130 | The search loop always returns, with the first security-SYSINFO slot from the given one on, less than 24 slots later. |
| Tdma.ForwardToMultiframeStart | crates/tetra-core/src/tdma_time.rs:135-144 | The search loop always returns, with the first multiframe start from the given slot on, less than 72 slots later. |
| Sc2Rollover.UnobservablePromotion | crates/tetra-config/src/bluestation/state.rs:829-905 | For every slot within half the cycle of the announced one, downlink changes key at it and uplink two slots later, and the answer is the same before and after software promotes. |
| Sc2Rollover.ExpiryIsIgnored | crates/tetra-config/src/bluestation/state.rs:851-905 | The expiry kept with the retired key changes no answer. |
| Sc2Rollover.SchedulingBound | crates/tetra-config/src/bluestation/state.rs:798-824 | The announced slot is the first security SYSINFO not before the exact rational target time, late by less than 24 slots. |
| Sc2Rollover.ScheduleAnnounces | crates/tetra-config/src/bluestation/state.rs:798-824 | Scheduling gives a waiting record that slot, and changes nothing else. |
| Sc2Rollover.ReplayChangesNothing | crates/tetra-config/src/bluestation/state.rs:719-726 | A staging with the identity of the record in place changes nothing, and succeeds exactly when it names the active key and agrees with the record on time and key. |
| Sc2Rollover.StagingIsAccepted | crates/tetra-config/src/bluestation/state.rs:704-768 | Any other staging is accepted exactly when it names the active key, its key may follow, and it is later than a promotion still in place; then its record waits without a slot; otherwise nothing changes. |
| Sc2Rollover.LaterIsChronological | crates/tetra-config/src/bluestation/state.rs:727-744 | The comparison of Network Times is that of the calendar. |
| Sc2Rollover.CancelDrops | crates/tetra-config/src/bluestation/state.rs:781-792 | A cancel drops exactly the record it names, unless that is promoted. |
| Sc2Rollover.KeyWithoutSlot | crates/tetra-config/src/bluestation/state.rs:860-870 | Without an announced slot the active key applies to every slot; without an active key none does. |
| Sc2Rollover.SlotStays | crates/tetra-config/src/bluestation/state.rs:704-854 | Over every run an announced slot stays with its record, key and time, until the record is cancelled before promotion or a staging with another identity comes. |
| Sc2Rollover.NeverEarly | crates/tetra-config/src/bluestation/state.rs:829-839 | A rollover announced `wait` slots ahead is never due before its slot if and only if `wait` is at most half the cycle. |
| Sc2Rollover.PromotedEarly | crates/tetra-config/src/bluestation/state.rs:829-854 | A waiting record, scheduled less than 2^30 slots ahead so that no i32 overflows, can be promoted before its announced slot if and only if that slot is more than half the hyperframe cycle ahead. |
| Sc2Rollover.PromotedBeforeItsSlot | crates/tetra-config/src/bluestation/state.rs:829-854 | A run in which a key staged some 25 days ahead is announced and then promoted before the announced slot. |
| Sc2Rollover.KeyChain | crates/tetra-config/src/bluestation/state.rs:704-854 | Over every run the active key changes only by promoting the staged record that follows it, at most once per staging and, if announced at most half a cycle ahead, not before its slot; SCK-VN counts the promotions modulo 2^16; SCKN changes, the algorithm stays, and the replaced key is retained. |
| Sc2Rollover.StepKeeps | crates/tetra-config/src/bluestation/state.rs:704-854 | Every command and every look at the clock keeps that chain. |
| Sc2Rollover.PromotionsInOrder | crates/tetra-config/src/bluestation/state.rs:718-744 | While every staging is careful, each promotion has a later Network Time than the one before. |
| Sc2Rollover.CarelessStaging | crates/tetra-config/src/bluestation/state.rs:718-744 | For a staging that takes effect: no continuation by scheduling and promoting it breaks that order if and only if the record in place is the activated one or the new time is later than the last promotion's. |
| Sc2Rollover.PromotionsCanGoBackInTime | crates/tetra-config/src/bluestation/state.rs:727-744 | A complete run whose second promotion has an earlier Network Time than its first: a later staging was replaced by an earlier one, which the program does not compare. |
| Sc2Rollover.PromoteNow | crates/tetra-config/src/bluestation/state.rs:798-854 | A waiting record can always be announced for the current time and is promoted once its slot has come. |
| NetworkTime.UnitsAreChronological | crates/tetra-config/src/bluestation/state.rs:924-937 | On calendar values the two-second units order exactly as year and units within the year do. |
| NetworkTime.ComputeUnits | crates/tetra-config/src/bluestation/state.rs:924-937 | The loop over the years computes the units since 2000, or none beyond 48 bits. |
| NetworkTime.DaysAreGregorian | crates/tetra-config/src/bluestation/state.rs:924-937 | The days the loop adds up are those of the Gregorian calendar since 1 January 2000. |
| NetworkTime.InstantOf | crates/tetra-config/src/bluestation/state.rs:924-937 | The units of a packed value are 43200 for each day before its year and the units of the year, in closed form. |
| AieConfig.RuntimeAieConfig.StageRollover | crates/tetra-config/src/bluestation/state.rs:704-768 | New state and verdict of a prepare command, in the program's order of checks; a replay changes nothing. |
| AieConfig.RuntimeAieConfig.CancelStagedRollover | crates/tetra-config/src/bluestation/state.rs:781-792 | Only a staged record with that identity is dropped, never an activated one. |
| AieConfig.RuntimeAieConfig.ScheduleRolloverAbsoluteIv | crates/tetra-config/src/bluestation/state.rs:798-824 | A record is given its slot once; anything else changes nothing. |
| AieConfig.RuntimeAieConfig.ActivateRolloverIfDue | crates/tetra-config/src/bluestation/state.rs:829-854 | Promotes a due record exactly once, and then every session of every terminal and call carries the new identity; otherwise sessions are unchanged. |
| AieConfig.RuntimeAieConfig.Sc2ForAirTime | crates/tetra-config/src/bluestation/state.rs:860-905 | The key for an air slot and direction, as the promotion theorem uses it. |
| AieConfig.RuntimeAieSessions.RebindAllTo | crates/tetra-config/src/bluestation/state.rs:642-648 | Every binding of every terminal and call is replaced and none is added or dropped. |
| Sc3gRollover.GenerationByAirSlot | crates/tetra-config/src/bluestation/state.rs:311-329 | Around the announced slot the old generation answers before it and the new one from it on until software promotes; promotion keeps the answers from the slot on and gives the new generation to earlier slots too. |
| Sc3gRollover.WaitingSnapshotChangesNothing | crates/tetra-config/src/bluestation/state.rs:259-274 | A durable snapshot of the generation a cell is waiting for changes none of its answers. |
| Sc3gRollover.SchedulingBound | crates/tetra-config/src/bluestation/state.rs:346-361 | The announced slot is the first multiframe start not before the exact rational target time, late by less than 72 slots. |
| Sc3gRollover.ScheduleAnnounces | crates/tetra-config/src/bluestation/state.rs:346-361 | Scheduling gives a planned rollover that slot; one with a slot, or promoted, stays as it is. |
| Sc3gRollover.VerdictIsRight | crates/tetra-config/src/bluestation/state.rs:205-241 | A snapshot is taken exactly when it is sensible: one generation under distinct numbers, associations with offered keys, nothing for a cell not linked, and no plan or a whole one. |
| Sc3gRollover.SnapshotTakesEffect | crates/tetra-config/src/bluestation/state.rs:197-297 | A sensible snapshot that is not older takes effect as a whole, keys and plan only if it is not the generation the cell waits to promote; any other changes nothing. |
| Sc3gRollover.WaitsWhen | crates/tetra-config/src/bluestation/state.rs:250-266 | The cell waits to promote the generation of a snapshot exactly when that plans nothing, an announced slot is not yet promoted at, and its keys are those planned. |
| Sc3gRollover.RolloverStays | crates/tetra-config/src/bluestation/state.rs:242-297 | Over every run a planned rollover keeps its announced slot and its promotion, whatever snapshots repeat it, until one takes effect without it. |
| Sc3gRollover.PromotedOnce | crates/tetra-config/src/bluestation/state.rs:363-381 | A due rollover puts the planned generation in place of the current one, which is retired, and is never due again. |
| Sc3gRollover.StepKeeps | crates/tetra-config/src/bluestation/state.rs:197-381 | Every step keeps keys filed under their own pair, never lowers the revision, never forgets a retired pair, and retires every key of a generation it replaces. |
| Sc3gRollover.OldPairsStayResolvable | crates/tetra-config/src/bluestation/state.rs:331-381 | Over every run revisions never decrease, and each pair current when its generation was replaced names some key ever after. |
| Sc3gRollover.OldKeysStayResolvable | crates/tetra-config/src/bluestation/state.rs:331-381 | The pair goes on naming that very key up to some time if and only if no state up to then has another key in use, or about to be, under it. |
| Sc3gRollover.OldKeysStayUnlessRefiled | crates/tetra-config/src/bluestation/state.rs:197-335 | The pair goes on naming that very key if neither the plan in force at the replacement nor any snapshot accepted from then on files another key under it; if snapshots never plan for the generation they call current, that no such snapshot is accepted is the exact condition. |
| Sc3gRollover.PairGivenToAnotherKey | crates/tetra-config/src/bluestation/state.rs:197-335 | A run of three snapshots after which a pair names another key than it did. |
| Sc3Config.RuntimeSc3.ApplySnapshot | crates/tetra-config/src/bluestation/state.rs:197-297 | An older snapshot is ignored and a malformed one rejected, both without any effect; an accepted one takes effect whole; a change is reported exactly when something changed. |
| Sc3Config.RuntimeSc3.ScheduleGckRollover | crates/tetra-config/src/bluestation/state.rs:346-361 | A planned rollover is given its slot once. |
| Sc3Config.RuntimeSc3.ActivateGckRolloverIfDue | crates/tetra-config/src/bluestation/state.rs:363-381 | Promotes the planned generation exactly once when its slot has come and there are future keys. |
| Sc3Config.FileKeys | crates/tetra-config/src/bluestation/state.rs:214-219 | Keys are filed by GCKN, or rejected when one belongs to another generation or a GCKN repeats. |
| BasicLinkRuns.StopAndWait | crates/tetra-entities/src/llc/llc_bs_ms.rs:2463-2602 | Over every run, per terminal only the first queued message can have been submitted, successive N(S) alternate, and a message is first submitted only after all earlier ones ended Acknowledged or Lost. |
| BasicLinkRuns.HandedOverBoundedlyOften | crates/tetra-entities/src/llc/llc_bs_ms.rs:795-801 | Over every run a message is handed to the MAC at most N.252 + 3 times. |
| BasicLinkRuns.HandedOverOnce | crates/tetra-entities/src/llc/llc_bs_ms.rs:2463-2602 | No message is handed over twice in one step. |
| BasicLinkRuns.NothingStops | crates/tetra-entities/src/llc/llc_bs_ms.rs:2549-2561 | In every state of the invariant the removal lookup the program unwraps succeeds and every queued receipt is open. |
| BasicLink.GiveUpFindsAll | crates/tetra-entities/src/llc/llc_bs_ms.rs:2549-2561 | Each terminal given up has an outstanding message, and exactly that one leaves its queue. |
| BasicLink.GiveUpLoses | crates/tetra-entities/src/llc/llc_bs_ms.rs:2549-2561 | Giving up ends exactly those messages as Lost and touches no other receipt. |
| BasicLink.ExhaustedAreOut | crates/tetra-entities/src/llc/llc_bs_ms.rs:2524-2545 | The retry pass lists no terminal twice, and each listed terminal's first message is the exhausted one. |
| BasicLink.OutstandingIsFirst | crates/tetra-entities/src/llc/llc_bs_ms.rs:407-415 | What the lookup by terminal finds is the first message of that terminal, if it was submitted. |
| BasicLink.HearAckLane | crates/tetra-entities/src/llc/llc_bs_ms.rs:449-533 | A BL-ACK completes at most the outstanding message of its terminal, and only with its N(S) and protection; other terminals keep their messages. |
| BasicLink.SubmitFreeLane | crates/tetra-entities/src/llc/llc_bs_ms.rs:2566-2602 | The free pass submits, for each terminal with nothing outstanding, exactly its first message. |
| BasicLink.TickKeeps | crates/tetra-entities/src/llc/llc_bs_ms.rs:2738-2765 | The end of a tick keeps every terminal's messages in order, with exactly those that left having ended. |
| BasicLinkTimers.RetryDecides | crates/tetra-entities/src/llc/llc_bs_ms.rs:2497-2545 | A message is handed over again exactly when T.251 (16 slots, 288 on an assigned channel) has run out, no unfinished copy holds it back and it has repeats left (3, or 5); it is given up exactly 4, or 360, slots beyond the timer after the last one. |
| BasicLinkTimers.DueIsRepeated | crates/tetra-entities/src/llc/llc_bs_ms.rs:2497-2538 | Every message that is due is handed over again in that very tick. |
| BasicLinkTimers.SubmitIsAttempt | crates/tetra-entities/src/llc/llc_bs_ms.rs:2566-2602 | A hand-over puts one fresh copy on every route, in the first slot with the message's number. |
| BasicLinkTimers.CopiesAreNoted | crates/tetra-entities/src/llc/llc_bs_ms.rs:2473-2495 | Each further copy on the air starts T.251 again; an attempt of which none was aired starts it once. |
| BasicLinkTimers.AckCompletes | crates/tetra-entities/src/llc/llc_bs_ms.rs:449-533 | A BL-ACK completes the outstanding message exactly when that reached the air or was reported on, with its protection and its N(S); otherwise the message stays first, and no other is touched. |
| BasicLinkEntity.BasicLinkQueue.Request | crates/tetra-entities/src/llc/llc_bs_ms.rs:2029-2170 | Appends the message with the terminal's alternating N(S). |
| BasicLinkEntity.BasicLinkQueue.GetNextSendSeq | crates/tetra-entities/src/llc/llc_bs_ms.rs:399-404 | The send sequence bit of one terminal toggles; others stay. |
| BasicLinkEntity.BasicLinkQueue.TakeOutstanding | crates/tetra-entities/src/llc/llc_bs_ms.rs:407-415 | Removes exactly the first submitted message of the terminal, if there is one. |
| BasicLinkEntity.BasicLinkQueue.ProcessIncomingAck | crates/tetra-entities/src/llc/llc_bs_ms.rs:449-533 | Queue and receipts after a BL-ACK, as in the lane result. |
| BasicLinkEntity.BasicLinkQueue.SubmitRetransmissions | crates/tetra-entities/src/llc/llc_bs_ms.rs:2463-2563 | Queue, receipts and repeats after the retry pass and removals. |
| BasicLinkEntity.BasicLinkQueue.SubmitFreeMessages | crates/tetra-entities/src/llc/llc_bs_ms.rs:2566-2602 | Queue and submissions after the free pass. |
| BasicLinkEntity.BasicLinkQueue.TickEnd | crates/tetra-entities/src/llc/llc_bs_ms.rs:2738-2765 | Keeps the invariant; retries, removals and first submissions in the program's order. |
| Subscribers.BalancedChannels | crates/tetra-config/src/bluestation/state.rs:1739-1769 | From an empty registry, while capable terminals register, deliveries complete or fail and terminals leave, in any order, channel loads differ by at most one more than the number that failed or left; while none did, uses of the twelve values differ by at most one and, for any other channel count, loads by at most 12 over that count of channels. |
| Subscribers.DeparturesUnbalance | crates/tetra-config/src/bluestation/state.rs:1739-1769 | With two channels or more the bound is exact: over all runs with at most d departures loads differ by at most b if and only if b is at least d + 1. |
| Subscribers.LoadIsSum | crates/tetra-config/src/bluestation/state.rs:1739-1745 | A channel's load is the sum of the uses of its values. |
| Subscribers.BeginKeepsEven | crates/tetra-config/src/bluestation/state.rs:1747-1769 | One selection, new, repeated or while pending, keeps the balance, and a known terminal keeps its channel. |
| Subscribers.ChoiceFollowsTheRequest | crates/tetra-config/src/bluestation/state.rs:1747-1766 | A value is given exactly when the request says the terminal is capable, or says nothing and an earlier one did; it is kept while its registration is being delivered, and is one of the twelve otherwise. |
| ControlChannels.EqualShares | crates/tetra-config/src/bluestation/common_control.rs:14-16 | Every channel has the same number of the twelve values, whatever the count. |
| ControlChannels.ChannelOfValue | crates/tetra-config/src/bluestation/common_control.rs:14-16 | Values go round the main channel and at most three secondary ones; no value is the main one. |
| ControlChannels.LevelLoads | crates/tetra-config/src/bluestation/common_control.rs:14-16 | Level uses give loads within one channel's share of each other for every count. |
| ControlChannels.NewcomerKeepsEven | crates/tetra-config/src/bluestation/state.rs:1760-1763 | A newcomer on the least used value of the lightest channel keeps loads and uses even at once. |
| ControlChannels.ReturnKeepsEven | crates/tetra-config/src/bluestation/state.rs:1755-1763 | A terminal that selects again stays on its channel, and everything stays even. |
| ControlChannels.FindLightest | crates/tetra-config/src/bluestation/state.rs:1759-1760 | The search finds a least loaded channel, preferring the terminal's own and then the lowest. |
| ControlChannels.FindLeastUsed | crates/tetra-config/src/bluestation/state.rs:1761-1762 | The search finds a least used value of the channel, the lowest of them; there always is one. |
| Subscribers.SubscriberRegistry.SelectCommonControl | crates/tetra-config/src/bluestation/state.rs:1747-1769 | Picks as the balance results require, keeps the value while a registration is being delivered, gives none without the capability, and remembers the choice. |
| Subscribers.SubscriberRegistry.MarkActive | crates/tetra-config/src/bluestation/state.rs:1806-1809 | Active, no longer pending; active and pending stay disjoint. |
| Subscribers.SubscriberRegistry.SetRegistrationDeliveryPending | crates/tetra-config/src/bluestation/state.rs:1831-1838 | Pending, no longer active, or no longer pending; the two stay disjoint. |
| Subscribers.SubscriberRegistry.Register | crates/tetra-config/src/bluestation/state.rs:1864-1883 | Replaces an earlier registration with its groups but keeps its control channel; the group index stays exact. |
| Subscribers.SubscriberRegistry.Deregister | crates/tetra-config/src/bluestation/state.rs:1912-1926 | Removes the subscriber everywhere; exactly the groups nobody else is attached to leave the index. |
| Subscribers.SubscriberRegistry.Affiliate | crates/tetra-config/src/bluestation/state.rs:1929-1933 | Adds one group; the index stays exactly the union of attached groups. |
| Subscribers.SubscriberRegistry.Deaffiliate | crates/tetra-config/src/bluestation/state.rs:1936-1945 | Removes one group; the index stays exactly the union of attached groups. |
| DmGateways.IndexIsUnique | crates/tetra-config/src/bluestation/state.rs:1590-1659 | A route index without empty sets that lists the sessions' pairs is the sessions' own index. |
| DmGateways.DmGatewayRegistry.Activate | crates/tetra-config/src/bluestation/state.rs:1596-1617 | The session is replaced and the route index is exactly that of the new sessions. |
| DmGateways.DmGatewayRegistry.Deactivate | crates/tetra-config/src/bluestation/state.rs:1618-1630 | The session goes and so does every route through it; no empty route set is left. |
| DmGateways.DmGatewayRegistry.AddAddresses | crates/tetra-config/src/bluestation/state.rs:1631-1640 | Only an active gateway gains addresses; the route index stays exact. |
| DmGateways.DmGatewayRegistry.RemoveAddresses | crates/tetra-config/src/bluestation/state.rs:1641-1655 | Only an active gateway loses addresses; the route index stays exact. |
| DmGateways.DmGatewayRegistry.ReplaceAddresses | crates/tetra-config/src/bluestation/state.rs:1656-1659 | The session lists exactly the given addresses; the route index stays exact. |

## Left out

- Sc3gRollover.GenerationByAirSlot: not symmetric with SC2 before the announced slot, because the code answers earlier slots with the new generation once promoted.
- RecoveryRuns.RecoveryTerminates: N.273 and N.274 are below 255 there, because the program's counters saturate at 255; offers whose attempt the MAC discards are counted apart, because nothing bounds them.
- Fcs.ComputeFcs: does not model the debug build's overflow check on an empty range; the release behaviour, a shift by 32 taken as a shift by 0, is modelled.
- LlcEntity.Llc.SubmitAdvanced: failures are dealt with in each link's turn and not after the pass over all links; no link's turn depends on another's.
- Terminals without the balancing capability in the runs of the control channels: the program leaves them all on the first channel.
- Ciphering, key bytes and identity transformation: keys are identities.
- PDU encoders and decoders, and buffers with positions: PDUs are values; the fields an acknowledgement block may take are checked against the encoder's limits.
- Choice of packet route, fast-access control channel and per-copy routing of basic-link attempts: parameters of a tick.
- AL-RECONNECT with its route changes, unacknowledged data, and the scheduled BL-ACK replies: bookkeeping beside the two protocols.
- Exactly-once reception on the basic link: the receive path compares no N(S).
- Energy economy, direct-response windows, registration generations and RUA: fields of the registry beside the modelled ones.
- Editing a subscriber through the registry's mutable reference: callers could change groups behind the index.
- Uniqueness of rollover identities, and a key for every association after a promotion: the code does not enforce them.
- Dedicated call keys, encryption policy and the authentication exchange: outside the rollover.
- Web server, configuration files, logging, radio front end and message routing: I/O and dispatch.
