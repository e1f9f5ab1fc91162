/**
 The advanced link as a whole: a sender, the peer that receives, the sender's MAC, and a
 channel that loses, duplicates and reorders within two staleness bounds. A run also goes
 through in-place AL-SETUP resets.
 */
module Arq {
  import opened Arithmetic
  import opened Wrappers
  import opened Fcs
  import opened AlPdu
  import opened Tdma
  import opened TxReceipt
  import opened Segmentation
  import opened Reassembly
  import opened Sender
  import opened AdvancedLink
  import opened SendWindow
  import opened ReceiveWindow

  // A data PDU and the absolute number of the TL-SDU it belongs to.
  datatype OnAir = OnAir(id: nat, pdu: AlData)

  // An acknowledgement and the absolute number its first block is about.
  datatype Report = Report(first: nat, blocks: seq<AlAckBlock>)

  // The TL-SDUs numbered 0, 1, ... since the sequence variables were last at 0, with the
  // place of each in the order of arrival over the whole run.
  datatype Generation = Generation(accepted: seq<Bits>, origin: seq<nat>)

  datatype System = System(
    sender: Link,
    peer: Link,
    own: Generation,        // the sender's numbering
    heard: Generation,      // the peer's numbering; it lags behind while a reset is on
    horizon: nat,           // every PDU handed to the MAC is numbered below
    base: nat,              // TL-SDUs the peer handed up since it last started from 0
    data: set<OnAir>,       // data PDUs that may still arrive
    mac: set<OnAir>,        // last PDU of each offer, held by the MAC with its reporter
    reports: set<Report>,   // acknowledgements that may still arrive
    arrivals: seq<Bits>,    // every TL-SDU accepted, in order
    delivered: seq<Bits>,   // every TL-SDU the peer handed up, in order
    trace: seq<nat>,        // the arrival number of each of those
    resets: nat)

  datatype Action =
    | Accept(sdu: Bits)
    | MacReports(position: nat, aired: bool)
    | MacAirs(held: OnAir)
    | Tick(now: TdmaTime, routeLive: bool)
    | DeliverData(message: OnAir)
    | DeliverReport(report: Report, ready: bool, at: TdmaTime)
    | ConfirmReset

  function Window(s: System): nat {
    s.sender.limits.window
  }

  // ----- Steps

  function AcceptStep(s: System, sdu: Bits): System {
    var grown := Generation(s.own.accepted + [sdu], s.own.origin + [|s.arrivals|]);
    s.(sender := Enqueue(s.sender, |s.own.accepted|, Pending, sdu),
       own := grown,
       heard := if s.sender.reset.Some? then s.heard else grown,
       arrivals := s.arrivals + [sdu])
  }

  function OfTlSdu(pdus: set<OnAir>, id: nat): set<OnAir> {
    set m | m in pdus && m.id == id
  }

  // A report of the MAC on the attempt at `i`. It airs what it holds for that TL-SDU, or,
  // if no attempt was ever reported on the air, drops it.
  function MacReportsStep(s: System, i: nat, aired: bool): System
    requires i < |s.sender.tx|
  {
    var its := OfTlSdu(s.mac, s.sender.tx[i].receipt);
    var told := s.(sender := MacReport(s.sender, i, if aired then Transmitted else Discarded));
    if aired then told.(data := s.data + its, mac := s.mac - its)
    else if Unaired(s.sender.tx[i]) then told.(mac := s.mac - its)
    else told
  }

  function EarlyPdus(tx: seq<TxSdu>, offered: seq<Offering>): set<OnAir>
    requires forall o | 0 <= o < |offered| :: offered[o].position < |tx|
  {
    set o, j | 0 <= o < |offered| && 0 <= j < |offered[o].pdus| - 1 ::
        OnAir(tx[offered[o].position].receipt, offered[o].pdus[j])
  }

  function LastPdus(tx: seq<TxSdu>, offered: seq<Offering>): set<OnAir>
    requires forall o | 0 <= o < |offered| :: offered[o].position < |tx|
  {
    set o | 0 <= o < |offered| && offered[o].pdus != [] ::
      OnAir(tx[offered[o].position].receipt, offered[o].pdus[|offered[o].pdus| - 1])
  }

  function Receipts(tx: seq<TxSdu>): seq<nat> {
    seq(|tx|, i requires 0 <= i < |tx| => tx[i].receipt)
  }

  function Renumber(tx: seq<TxSdu>): seq<TxSdu> {
    seq(|tx|, i requires 0 <= i < |tx| => tx[i].(receipt := i))
  }

  // Give up on the link's current numbering and begin an in-place reset. What the MAC still
  // holds may go on the air all the same.
  function Restart(s: System, failedNs: nat): System {
    var sender := BeginReset(s.sender, failedNs);
    var kept := Receipts(sender.tx);
    s.(sender := sender.(tx := Renumber(sender.tx)),
       own := Generation(seq(|kept|, i requires 0 <= i < |kept| => if kept[i] < |s.own.accepted|
                             then s.own.accepted[kept[i]] else []),
                         seq(|kept|, i requires 0 <= i < |kept| => if kept[i] < |s.own.origin|
                             then s.own.origin[kept[i]] else 0)),
       resets := s.resets + 1)
  }

  ghost predicate CanTick(s: System, now: TdmaTime, routeLive: bool) {
    && s.sender.reset.None?
    && AllSegmentsExist(s.sender.tx)
    && forall o | 0 <= o < |Submit(s.sender, now, routeLive).offered| ::
         Submit(s.sender, now, routeLive).offered[o].position < |s.sender.tx|
  }

  function Offered(s: System, r: Submission): System
    requires forall o | 0 <= o < |r.offered| :: r.offered[o].position < |s.sender.tx|
  {
    s.(sender := r.link,
       data := s.data + EarlyPdus(s.sender.tx, r.offered),
       mac := s.mac + LastPdus(s.sender.tx, r.offered))
  }

  ghost function TickStep(s: System, now: TdmaTime, routeLive: bool): System
    requires CanTick(s, now, routeLive)
  {
    var r := Submit(s.sender, now, routeLive);
    match r.failed
    case None => Offered(s, r)
    case Some(ns) => Restart(Offered(s, r), ns)
  }

  function DeliverDataStep(s: System, m: OnAir): System
  {
    var r := HandleData(s.peer, m.pdu);
    var base := s.base + |r.delivered|;
    s.(peer := r.link,
       base := base,
       reports := if r.ack.Some? then s.reports + {Report(if m.id < s.base then m.id else s.base, r.ack.value)}
         else s.reports,
       delivered := s.delivered + r.delivered,
       trace := s.trace + (if base <= |s.heard.origin| then s.heard.origin[s.base..base] else []))
  }

  function Told(s: System, r: AckOutcome): System {
    s.(sender := r.link, horizon := Front(r.link.tx, |s.own.accepted|) + Window(s))
  }

  function DeliverReportStep(s: System, report: Report, ready: bool, now: TdmaTime): System
    requires WellFormed(s.sender.tx) && report.blocks != []
  {
    var r := HandleAck(s.sender, AlAck(ready, report.blocks), now);
    match r.failed
    case None => Told(s, r)
    case Some(ns) => Restart(Told(s, r), ns)
  }

  // The peer has cleared its receive variables and confirmed with Success; the channel
  // has drained.
  function ConfirmResetStep(s: System): System {
    s.(sender := s.sender.(reset := None, ready := true, receiverReady := true, notReadySince := None),
       peer := s.peer.(nextRxNs := 0, rxSdus := map[]),
       heard := s.own, horizon := Window(s), base := 0, data := {}, mac := {}, reports := {})
  }

  // The MAC may air what it still holds of a TL-SDU that no longer waits for a first report.
  ghost predicate CanAir(s: System, m: OnAir) {
    && m in s.mac
    && (s.sender.reset.None? ==> forall i | 0 <= i < |s.sender.tx| ::
          s.sender.tx[i].receipt == m.id ==> !Unaired(s.sender.tx[i]))
  }

  ghost predicate CanArrive(s: System, m: OnAir) {
    m in s.data && s.base <= m.id + (8 - Window(s))
  }

  ghost predicate CanReport(s: System, report: Report) {
    && s.sender.reset.None? && report in s.reports
    && Front(s.sender.tx, |s.own.accepted|) <= report.first + 7 - Window(s)
  }

  // When an action can happen. The two staleness bounds of the channel are here: a data PDU
  // arrives at most `8 - window` below the receive base, an acknowledgement at most
  // `7 - window` below the front of the send queue.
  ghost predicate Enabled(s: System, a: Action) {
    match a
    case Accept(sdu) => |s.sender.tx| < MAX_QUEUED && Reassembly.Numbered(sdu)
    case MacReports(i, aired) => s.sender.reset.None? && i < |s.sender.tx| && s.sender.tx[i].attempt == Some(Pending)
    case MacAirs(m) => CanAir(s, m)
    case Tick(now, routeLive) => CanTick(s, now, routeLive)
    case DeliverData(m) => CanArrive(s, m)
    case DeliverReport(report, ready, now) =>
      CanReport(s, report) && WellFormed(s.sender.tx) && report.blocks != []
    case ConfirmReset => s.sender.reset.Some?
  }

  ghost function Step(s: System, a: Action): System
    requires Enabled(s, a)
  {
    match a
    case Accept(sdu) => AcceptStep(s, sdu)
    case MacReports(i, aired) => MacReportsStep(s, i, aired)
    case MacAirs(m) => s.(data := s.data + {m}, mac := s.mac - {m})
    case Tick(now, routeLive) => TickStep(s, now, routeLive)
    case DeliverData(m) => DeliverDataStep(s, m)
    case DeliverReport(report, ready, now) => DeliverReportStep(s, report, ready, now)
    case ConfirmReset => ConfirmResetStep(s)
  }

  ghost predicate Initial(s: System) {
    && 1 <= Window(s) <= 3 && s.peer.limits.window == Window(s)
    && s.sender.tx == [] && s.sender.nextTxNs == 0 && s.sender.ready && s.sender.reset.None?
    && s.peer.rxSdus == map[] && s.peer.nextRxNs == 0 && s.peer.reset.None?
    && s.own == s.heard == Generation([], []) && s.horizon == Window(s) && s.base == 0
    && s.data == {} && s.mac == {} && s.reports == {}
    && s.arrivals == [] && s.delivered == [] && s.trace == [] && s.resets == 0
  }

  /** The states of a run: each follows from the one before by an enabled action. */
  ghost predicate IsRun(states: seq<System>, actions: seq<Action>) {
    && |states| == |actions| + 1 && Initial(states[0])
    && forall i | 0 <= i < |actions| :: Enabled(states[i], actions[i]) && states[i + 1] == Step(states[i], actions[i])
  }

  // ----- The invariant

  ghost predicate GenerationOk(g: Generation, arrivals: seq<Bits>) {
    && |g.accepted| == |g.origin| && Increasing(g.origin)
    && forall k | 0 <= k < |g.origin| ::
         g.origin[k] < |arrivals| && arrivals[g.origin[k]] == g.accepted[k] && Reassembly.Numbered(g.accepted[k])
  }

  ghost predicate TraceOk(s: System) {
    && |s.trace| == |s.delivered| && Increasing(s.trace)
    && forall i | 0 <= i < |s.trace| :: s.trace[i] < |s.arrivals| && s.delivered[i] == s.arrivals[s.trace[i]]
  }

  ghost predicate SenderOk(link: Link, g: Generation) {
    && WindowInv(link.tx, |g.accepted|, link.limits.window) && OneRequest(link.tx) && PendingTouched(link.tx)
    && link.nextTxNs == |g.accepted| % 8
    && forall i | 0 <= i < |link.tx| :: link.tx[i].segments == Segments(g.accepted[link.tx[i].receipt])
  }

  ghost predicate AirOk(pdus: set<OnAir>, g: Generation, horizon: nat) {
    forall m <- pdus ::
      && m.id < horizon && m.id < |g.accepted| && m.pdu.ns == m.id % 8
      && exists k: nat :: Carries(m.pdu, g.accepted[m.id], k)
  }

  ghost function LastAired(data: set<OnAir>): iset<nat> {
    iset m | m in data && m.pdu.finalSegment :: m.id
  }

  ghost predicate UnairedOk(tx: seq<TxSdu>, data: set<OnAir>, mac: set<OnAir>) {
    forall i | 0 <= i < |tx| && Unaired(tx[i]) ::
      && tx[i].receipt !in LastAired(data)
      && (tx[i].attempt != Some(Pending) ==> forall m <- mac :: m.id != tx[i].receipt)
  }

  ghost predicate PeerOk(s: System) {
    && s.peer.limits.window == Window(s) && s.peer.reset.None?
    && WindowOk(Window(s), s.peer.nextRxNs, s.peer.rxSdus, s.base, s.heard.accepted, s.horizon, LastAired(s.data))
    && Resting(s.peer.nextRxNs, s.peer.rxSdus)
    && s.horizon <= s.base + Window(s)
  }

  ghost predicate HeldBy(s: System, k: nat) {
    Held(s.peer.rxSdus, s.base, Window(s), k)
  }

  ghost predicate ReportsOk(s: System) {
    forall r <- s.reports :: ClaimsHeld(r.blocks, r.first, s.peer.rxSdus, s.base, Window(s), s.heard.accepted)
  }

  // While no reset is on, both ends work in one numbering.
  ghost predicate InStep(s: System) {
    && s.own == s.heard && s.sender.ready
    && s.horizon == Front(s.sender.tx, |s.own.accepted|) + Window(s)
    && UnairedOk(s.sender.tx, s.data, s.mac)
    && (forall k: nat | k < |s.own.accepted| :: Queued(s.sender.tx, k) || HeldBy(s, k))
    && ReportsOk(s)
  }

  // While a reset is on, the peer can still hand up TL-SDUs below `ceiling`, all of which
  // arrived before everything the sender kept.
  ghost predicate Resetting(s: System, ceiling: nat) {
    && ceiling !in LastAired(s.data) && ceiling !in LastAired(s.mac)
    && forall k, j | 0 <= k < |s.heard.origin| && k < ceiling && 0 <= j < |s.own.origin| ::
         s.heard.origin[k] < s.own.origin[j]
  }

  // Everything handed up so far arrived before everything from position `from` on.
  ghost predicate Before(trace: seq<nat>, origin: seq<nat>, from: nat) {
    forall i, j | 0 <= i < |trace| && from <= j < |origin| :: trace[i] < origin[j]
  }

  // The histories agree with each other.
  ghost predicate HistoryOk(s: System) {
    && GenerationOk(s.own, s.arrivals) && GenerationOk(s.heard, s.arrivals) && TraceOk(s)
    && Before(s.trace, s.heard.origin, s.base)
    && s.base <= |s.delivered| && s.base <= |s.heard.accepted|
    && s.delivered[|s.delivered| - s.base..] == s.heard.accepted[..s.base]
  }

  // Nothing of the new numbering has been offered yet.
  ghost predicate AllWaiting(tx: seq<TxSdu>, count: nat) {
    |tx| == count && forall i | 0 <= i < |tx| :: tx[i].receipt == i && NeverOffered(tx[i])
  }

  ghost predicate PhaseOk(s: System) {
    if s.sender.reset.None? then InStep(s)
    else
      && AllWaiting(s.sender.tx, |s.own.accepted|)
      && Before(s.trace, s.own.origin, 0)
      && exists ceiling: nat :: Resetting(s, ceiling)
  }

  // Until the first reset the numbering is the order of arrival itself.
  ghost predicate FirstGeneration(s: System) {
    s.resets == 0 ==> s.sender.reset.None? && s.own.accepted == s.arrivals && s.base == |s.delivered|
  }

  ghost predicate Inv(s: System) {
    && 1 <= Window(s) <= 3
    && HistoryOk(s)
    && SenderOk(s.sender, s.own)
    && PeerOk(s)
    && AirOk(s.data + s.mac, s.heard, s.horizon)
    && PhaseOk(s)
    && FirstGeneration(s)
  }
}
