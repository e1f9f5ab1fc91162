/**
 What the LLC keeps for one terminal: its advanced link, and the TL-SDUs that wait for one.
 Here `receipt` is the number of a TL-SDU in the order in which TL-SDUs reached the LLC.
 */
module Terminals {
  import opened Wrappers
  import opened Fcs
  import opened AlPdu
  import opened Tdma
  import opened TxReceipt
  import opened Sender
  import opened AdvancedLink

  const T261_SETUP_WAITING: int := 16
  const MAX_SETUP_RETRIES: nat := 3
  const SETUP_NEGOTIATION_TIMEOUT: int := 64

  datatype Waiting = Waiting(receipt: nat, sdu: Bits, queuedAt: TdmaTime)

  datatype Terminal = Terminal(link: Option<Link>, waiting: seq<Waiting>)

  // `ended` gives the final state of the receipts of TL-SDUs that left their queue.
  datatype Stepped = Stepped(terminal: Terminal, ended: map<nat, TxState>)

  // ----- Receipts of TL-SDUs that leave the queue

  function EndLost(tx: seq<TxSdu>): map<nat, TxState> {
    if tx == [] then map[]
    else EndLost(tx[..|tx| - 1])[tx[|tx| - 1].receipt := MarkReporterLost(tx[|tx| - 1].reporter)]
  }

  function EndAcked(tx: seq<TxSdu>): map<nat, TxState> {
    if tx == [] then map[]
    else EndAcked(tx[..|tx| - 1])[tx[|tx| - 1].receipt := MarkSduAcknowledged(tx[|tx| - 1].reporter)]
  }

  function EndWaiting(queue: seq<Waiting>): map<nat, TxState> {
    if queue == [] then map[]
    else EndWaiting(queue[..|queue| - 1])[queue[|queue| - 1].receipt := MarkReporterLost(Pending)]
  }

  // ----- Data from the service user

  function Room(link: Option<Link>): bool {
    link.Some? && |link.value.tx| < MAX_QUEUED
  }

  function Linked(link: Option<Link>): nat {
    if link.Some? then |link.value.tx| else 0
  }

  function AcceptData(x: Terminal, receipt: nat, sdu: Bits, now: TdmaTime): Stepped {
    if Room(x.link) then Stepped(x.(link := Some(Enqueue(x.link.value, receipt, Pending, sdu))), map[])
    else if Linked(x.link) + |x.waiting| >= MAX_QUEUED then Stepped(x, map[receipt := MarkReporterLost(Pending)])
    else Stepped(x.(waiting := x.waiting + [Waiting(receipt, sdu, now)]), map[])
  }

  /** Move waiting TL-SDUs into the link in arrival order; those that waited too long are lost. */
  function Attach(x: Terminal, now: TdmaTime): Stepped
    decreases |x.waiting|
  {
    if x.waiting == [] then Stepped(x, map[])
    else
      var first, rest := x.waiting[0], x.waiting[1..];
      if now.Diff(first.queuedAt) >= SETUP_NEGOTIATION_TIMEOUT then
        var r := Attach(x.(waiting := rest), now);
        r.(ended := map[first.receipt := MarkReporterLost(Pending)] + r.ended)
      else if Room(x.link) then
        Attach(Terminal(Some(Enqueue(x.link.value, first.receipt, Pending, first.sdu)), rest), now)
      else Stepped(x, map[])
  }

  // ----- AL-SETUP and AL-DISC

  datatype AlSetup = AlSetup(linkNumber: nat, asymmetric: bool, maximumSdu: nat, uplinkSlots: Option<nat>,
                             limits: Limits, report: nat)

  function Clamp(x: nat): nat {
    if x < 1 then 1 else if x > 3 then 3 else x
  }

  function RequestedSlots(request: AlSetup): nat {
    if request.uplinkSlots.Some? then request.uplinkSlots.value else 1
  }

  function Granted(request: AlSetup): Limits {
    request.limits.(window := Clamp(request.limits.window))
  }

  function GrantedSdu(request: AlSetup): nat {
    if request.maximumSdu < 6 then request.maximumSdu else 6
  }

  predicate Changed(request: AlSetup) {
    || Clamp(RequestedSlots(request)) != RequestedSlots(request)
    || GrantedSdu(request) != request.maximumSdu
    || Granted(request) != request.limits
  }

  predicate Supported(request: AlSetup) {
    request.linkNumber == 0 && !request.asymmetric && request.report <= 4
  }

  predicate IsSuccess(request: AlSetup) {
    request.report == 0 || request.report == 4
  }

  // A Service definition that has to be constrained waits for the peer's Success.
  predicate AwaitsSuccess(request: AlSetup) {
    request.report == 1 && Changed(request)
  }

  function Negotiated(request: AlSetup, now: TdmaTime): Link {
    NewLink(GrantedSdu(request), Clamp(RequestedSlots(request)), Granted(request), AwaitsSuccess(request), now)
  }

  /** A Success confirms the link it finds, and completes an in-place reset. */
  function Confirmed(link: Link, request: AlSetup): Link {
    link.(maximumSdu := GrantedSdu(request), slots := Clamp(RequestedSlots(request)), limits := Granted(request),
          ready := true, setupStartedAt := None, notReadySince := None,
          receiverReady := link.receiverReady || link.reset.Some?, reset := None)
  }

  /** The link after an AL-SETUP, before waiting TL-SDUs move into it. */
  function SetUp(x: Terminal, request: AlSetup, now: TdmaTime): Stepped {
    if IsSuccess(request) && x.link.Some? then Stepped(x.(link := Some(Confirmed(x.link.value, request))), map[])
    else Stepped(x.(link := Some(Negotiated(request, now))), if x.link.Some? then EndLost(x.link.value.tx) else map[])
  }

  function Then(a: Stepped, b: Stepped): Stepped {
    Stepped(b.terminal, a.ended + b.ended)
  }

  function HandleSetup(x: Terminal, request: AlSetup, now: TdmaTime): Stepped {
    var first := SetUp(x, request, now);
    Then(first, Attach(first.terminal, now))
  }

  function SetupResponse(request: AlSetup): Option<AlSetup> {
    if IsSuccess(request) then None
    else
      var slots := Clamp(RequestedSlots(request));
      Some(AlSetup(0, false, GrantedSdu(request), if slots > 1 then Some(slots) else None,
                   Granted(request), if AwaitsSuccess(request) then 2 else 0))
  }

  function Disconnect(x: Terminal): Stepped {
    Stepped(Terminal(None, []), (if x.link.Some? then EndLost(x.link.value.tx) else map[]) + EndWaiting(x.waiting))
  }

  // ----- Acknowledgements and resets

  function ResetAt(x: Terminal, failedNs: nat): Stepped {
    match x.link
    case None => Stepped(x, map[])
    case Some(link) => Stepped(x.(link := Some(BeginReset(link, failedNs))), EndLost(LostToReset(link, failedNs)))
  }

  function HearAck(x: Terminal, ack: AlAck, now: TdmaTime): Stepped
    requires x.link.Some? ==> WellFormed(x.link.value.tx)
    requires ack.blocks != []
  {
    match x.link
    case None => Stepped(x, map[])
    case Some(link) =>
      var r := HandleAck(link, ack, now);
      var heard := Stepped(x.(link := Some(r.link)), EndAcked(r.acked));
      match r.failed
      case None => heard
      case Some(ns) => Then(heard, ResetAt(heard.terminal, ns))
  }

  // ----- The end of a tick

  datatype ResetTurn = ResetTurn(reset: Reset, repeated: bool, exhausted: bool)

  /** Watch the AL-SETUP of an in-place reset: repeat it after T.261, at most N.262 times. */
  function WatchReset(reset: Reset, now: TdmaTime): ResetTurn {
    var sent := if (reset.attempt.Transmitted? || reset.attempt.Acknowledged?) && reset.sentAt.None?
      then reset.(sentAt := Some(now)) else reset;
    var retry := match sent.attempt
                 case Transmitted | Acknowledged => now.Diff(sent.sentAt.value) >= T261_SETUP_WAITING
                 case Discarded | Lost => true
                 case Pending => false;
    if !retry then ResetTurn(sent, false, false)
    else if sent.retries < MAX_SETUP_RETRIES then ResetTurn(Reset(Pending, None, sent.retries + 1), true, false)
    else ResetTurn(sent, false, true)
  }

  // What one turn makes of a link; `None` gives it up.
  datatype LinkTurn = LinkTurn(link: Option<Link>, offered: seq<Offering>, failed: Option<nat>)

  function Turn(link: Link, now: TdmaTime, routeLive: bool): LinkTurn
    requires AllSegmentsExist(link.tx)
  {
    if link.reset.Some? then
      var r := WatchReset(link.reset.value, now);
      LinkTurn(if r.exhausted then None else Some(link.(reset := Some(r.reset))), [], None)
    else if !link.ready then
      var over := link.setupStartedAt.Some? && now.Diff(link.setupStartedAt.value) >= SETUP_NEGOTIATION_TIMEOUT;
      LinkTurn(if over then None else Some(link), [], None)
    else
      var r := Submit(link, now, routeLive);
      LinkTurn(Some(r.link), r.offered, r.failed)
  }

  // A link given up loses its TL-SDUs; an exhausted one begins an in-place reset.
  function AfterTurn(x: Terminal, r: LinkTurn): Stepped {
    match r.link
    case None => Stepped(x.(link := None), if x.link.Some? then EndLost(x.link.value.tx) else map[])
    case Some(turned) =>
      var y := x.(link := Some(turned));
      if r.failed.Some? then ResetAt(y, r.failed.value) else Stepped(y, map[])
  }

  function EndTick(x: Terminal, now: TdmaTime, routeLive: bool): Stepped
    requires x.link.Some? ==> AllSegmentsExist(x.link.value.tx)
  {
    if x.link.None? then Stepped(x, map[]) else AfterTurn(x, Turn(x.link.value, now, routeLive))
  }
}
