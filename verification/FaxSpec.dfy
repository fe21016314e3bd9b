/**
 The outgoing T.30 fax session: two cooperating state machines (the call and the modem), the
 one-frame-at-a-time transmit pipe, and the page buffer with its copy for resending.
 Operations are functions on session values; class FaxSession computes the same in place.
 */
module FaxSpec {
  import opened Basics
  import opened Fsm

  type Frame = seq<byte>

  datatype MainState =
    | Idle | WaitRecvDis | RecvDis | WaitSendDcs | SendDcs | WaitSendTrain | SendTrain
    | WaitTrainState | RecvTrainState | WaitSendPage | SendPage | WaitPageState | RecvPageState
    | WaitSendEop | SendEop | WaitRecvMcf | RecvMcf | WaitSendDcn | SendDcn | Clearing

  datatype MainEvent =
    | CallOut | ModemActiv | ModemIdle | ModemError | Data | NextData | DelayTimer | ClearCall

  datatype ModState = ModNull | ModIdle | WaitConnect | Connected | WaitDisconnect

  datatype ModEvent = ModReady | ModNew | ModConnect | ModDisconnect | ModNoCarrier | ModError | ModTimeout

  datatype Result = NoResult | Cfr | Ftt | Mcf | Rtp | Rtn

  // ----- modem modes and rates --------------------------------------------------------------

  const FRH: int := 0x401
  const FTM: int := 0x402
  const FTH: int := 0x403
  const HDLC_RATE: int := 3
  const MAX_RATE_IDX: int := 7

  const PAGE_RATES: seq<int> := [24, 48, 72, 74, 96, 98, 122, 146]
  const TRAIN_RATES: seq<int> := [24, 48, 72, 73, 96, 97, 121, 145]
  const BAUD: seq<int> := [2400, 4800, 7200, 7200, 9600, 9600, 12000, 14400]
  const DCS_RATES: seq<int> := [0x0, 0x2, 0x3, 0xb, 0x1, 0x9, 0xa, 0x8]
  const PEER_RATES: seq<int> := [0, 0, 0x03, 0x17, 0, 0, 0, 0x17, 0, 0, 0, 0xff, 0, 0, 0, 0]

  predicate HasBit(mask: nat, i: nat) {
    (mask / Pow2(i)) % 2 == 1
  }

  // ----- the session ------------------------------------------------------------------------

  datatype Fax = Fax(
    main: MainState,
    mod: ModState,
    pendingMod: int,
    pendingRate: int,
    currentMod: int,
    currentRate: int,
    ownRates: nat,
    peerRates: nat,
    rateIdx: int,
    dis: seq<byte>,
    dcs: seq<byte>,
    stationId: Frame,
    result: Result,
    pageRetry: nat,
    sentTis: bool,
    dataBusy: bool,
    dataLast: bool,
    dataReady: bool,
    lastPage: bool,
    preamble: nat,
    downq: seq<Frame>,
    pageq: seq<Frame>,
    saveq: seq<Frame>,
    pageSkb: Option<Frame>,
    // What has happened so far: frames given to the modem and how many of them it has confirmed,
    // where the page now being sent starts among them, the page frames handed on for it, every
    // byte collected for it, and the rates tried since the last DIS.
    sent: seq<Frame>,
    confirmed: nat,
    mark: nat,
    handed: seq<Frame>,
    collected: seq<byte>,
    tried: seq<int>)

  /** A rate both sides can do. */
  predicate ValidRate(f: Fax, i: int) {
    0 <= i <= MAX_RATE_IDX && HasBit(f.ownRates, i) && HasBit(f.peerRates, i)
  }

  /** The largest common rate no larger than i, or -1. */
  function BestRate(f: Fax, i: int): (r: int)
    requires -1 <= i
    ensures -1 <= r <= i
    ensures r >= 0 ==> ValidRate(f, r)
    ensures forall k | r < k <= i :: !ValidRate(f, k)
    decreases i + 1
  {
    if i == -1 || ValidRate(f, i) then i else BestRate(f, i - 1)
  }

  // ----- the two tables ---------------------------------------------------------------------

  datatype Handler =
    | DoCallout | DoActivDis | DoReceiveDis | DoFinishDis | DoSendDcs | DoSendLastData | DoFinishDcs
    | DoSetupTrain | DoSendTrain | DoFinishTrain | DoActivTrainState | DoReceiveTrainState
    | DoFinishTrainState | DoSetupSendPage | DoReadySendPage | DoSendNextPageData | DoFinishPage
    | DoSendEndOfPage | DoFinishEop | DoActivMcf | DoReceiveMcf | DoFinishMcf | DoSendDcn | DoFinishDcn

  const MAIN_TABLE: seq<Node<MainState, MainEvent, Handler>> := [
    Node(Idle, CallOut, DoCallout),
    Node(WaitRecvDis, ModemActiv, DoActivDis),
    Node(RecvDis, Data, DoReceiveDis),
    Node(RecvDis, ModemIdle, DoFinishDis),
    Node(WaitSendDcs, ModemActiv, DoSendDcs),
    Node(SendDcs, NextData, DoSendLastData),
    Node(SendDcs, ModemIdle, DoFinishDcs),
    Node(WaitSendTrain, DelayTimer, DoSetupTrain),
    Node(WaitSendTrain, ModemActiv, DoSendTrain),
    Node(SendTrain, ModemIdle, DoFinishTrain),
    Node(SendTrain, NextData, DoSendLastData),
    Node(WaitTrainState, ModemActiv, DoActivTrainState),
    Node(RecvTrainState, Data, DoReceiveTrainState),
    Node(RecvTrainState, ModemIdle, DoFinishTrainState),
    Node(WaitSendPage, DelayTimer, DoSetupSendPage),
    Node(WaitSendPage, ModemActiv, DoReadySendPage),
    Node(SendPage, NextData, DoSendNextPageData),
    Node(SendPage, ModemIdle, DoFinishPage),
    Node(WaitSendEop, ModemActiv, DoSendEndOfPage),
    Node(SendEop, NextData, DoSendLastData),
    Node(SendEop, ModemIdle, DoFinishEop),
    Node(WaitRecvMcf, ModemActiv, DoActivMcf),
    Node(RecvMcf, Data, DoReceiveMcf),
    Node(RecvMcf, ModemIdle, DoFinishMcf),
    Node(WaitSendDcn, ModemActiv, DoSendDcn),
    Node(SendDcn, NextData, DoSendLastData),
    Node(SendDcn, ModemIdle, DoFinishDcn)]

  /** The same table, read state by state. */
  function HandlerFor(s: MainState, e: MainEvent): Option<Handler> {
    match (s, e)
    case (Idle, CallOut) => Some(DoCallout)
    case (WaitRecvDis, ModemActiv) => Some(DoActivDis)
    case (RecvDis, Data) => Some(DoReceiveDis)
    case (RecvDis, ModemIdle) => Some(DoFinishDis)
    case (WaitSendDcs, ModemActiv) => Some(DoSendDcs)
    case (SendDcs, NextData) => Some(DoSendLastData)
    case (SendDcs, ModemIdle) => Some(DoFinishDcs)
    case (WaitSendTrain, DelayTimer) => Some(DoSetupTrain)
    case (WaitSendTrain, ModemActiv) => Some(DoSendTrain)
    case (SendTrain, ModemIdle) => Some(DoFinishTrain)
    case (SendTrain, NextData) => Some(DoSendLastData)
    case (WaitTrainState, ModemActiv) => Some(DoActivTrainState)
    case (RecvTrainState, Data) => Some(DoReceiveTrainState)
    case (RecvTrainState, ModemIdle) => Some(DoFinishTrainState)
    case (WaitSendPage, DelayTimer) => Some(DoSetupSendPage)
    case (WaitSendPage, ModemActiv) => Some(DoReadySendPage)
    case (SendPage, NextData) => Some(DoSendNextPageData)
    case (SendPage, ModemIdle) => Some(DoFinishPage)
    case (WaitSendEop, ModemActiv) => Some(DoSendEndOfPage)
    case (SendEop, NextData) => Some(DoSendLastData)
    case (SendEop, ModemIdle) => Some(DoFinishEop)
    case (WaitRecvMcf, ModemActiv) => Some(DoActivMcf)
    case (RecvMcf, Data) => Some(DoReceiveMcf)
    case (RecvMcf, ModemIdle) => Some(DoFinishMcf)
    case (WaitSendDcn, ModemActiv) => Some(DoSendDcn)
    case (SendDcn, NextData) => Some(DoSendLastData)
    case (SendDcn, ModemIdle) => Some(DoFinishDcn)
    case _ => None
  }

  // ----- the modem machine ------------------------------------------------------------------

  function SetNewModulation(f: Fax, e: ModEvent): Fax {
    if f.pendingMod < 0 || f.pendingRate < 0
    then (if e == ModReady then f.(mod := ModIdle) else f)
    else f.(mod := WaitConnect)
  }

  /** A new mode has been asked for. */
  function RequestModulation(f: Fax, mode: int, rate: int): Fax {
    var g := f.(pendingMod := mode, pendingRate := rate);
    if g.mod == ModIdle then SetNewModulation(g, ModNew) else g
  }

  // ----- the transmit pipe ------------------------------------------------------------------

  /** One frame at a time: while one is unconfirmed, the next ones queue up. */
  function SendDown(f: Fax, frame: Frame): Fax {
    if f.dataBusy then f.(downq := f.downq + [frame])
    else f.(dataBusy := true, sent := f.sent + [frame])
  }

  function SendHdlc(f: Fax, control: byte, fcf: byte, para: Frame): Fax {
    SendDown(f, [0xff, control, fcf] + para)
  }

  function Spaces(n: nat): Frame {
    seq(n, _ => 0x20)
  }

  function Zeros(n: nat): Frame {
    seq(n, _ => 0)
  }

  function Reversed(s: Frame): Frame {
    seq(|s|, i requires 0 <= i < |s| => s[|s| - 1 - i])
  }

  /** Twenty characters, last one first, padded with spaces. */
  function Char20(s: Frame): Frame {
    var len := if |s| > 20 then 20 else |s|;
    Reversed(s[..len]) + Spaces(20 - len)
  }

  /** The capabilities a DCS announces for rate index i. */
  function DcsFor(i: int): Frame {
    var rate := if 0 <= i <= MAX_RATE_IDX then DCS_RATES[i] else 0xf;
    [0, rate * 4 + 0x42, 0xf8, 0]
  }

  function FillDcs(f: Fax): Fax {
    f.(dcs := DcsFor(f.rateIdx))
  }

  // ----- the page buffer --------------------------------------------------------------------

  const PAGE_SKB_LEN: nat := 1024

  /** A piece of page data, and whether the page ends with it. */
  datatype Piece = Piece(bytes: seq<byte>, flush: bool)

  function Skb(f: Fax): Frame {
    if f.pageSkb.Some? then f.pageSkb.value else []
  }

  /** The buffer becomes a frame to send, with a copy kept for resending. */
  function PushPage(f: Fax, frame: Frame): Fax {
    f.(pageq := f.pageq + [frame], saveq := f.saveq + [frame])
  }

  /** Bytes go into the buffer; a buffer that fills up is pushed and the rest starts the next. */
  function Append(f: Fax, bytes: seq<byte>): Fax {
    var room := PAGE_SKB_LEN - |Skb(f)|;
    var g := if 0 <= room <= |bytes|
             then PushPage(f, Skb(f) + bytes[..room]).(pageSkb := Some(bytes[room..]))
             else f.(pageSkb := Some(Skb(f) + bytes));
    g.(collected := g.collected + bytes)
  }

  function Flush(f: Fax): Fax {
    PushPage(f, Skb(f)).(pageSkb := None)
  }

  function Collect(f: Fax, p: Piece): Fax {
    var g := Append(f, p.bytes);
    if p.flush then Flush(g) else g
  }

  function CollectAll(f: Fax, ps: seq<Piece>): Fax {
    if ps == [] then f else Collect(CollectAll(f, ps[..|ps| - 1]), ps[|ps| - 1])
  }

  /** What the document parser yields when it is asked for more: pieces of page data, and whether
      it met the end of the page or of the document. */
  datatype Prep = Prep(pieces: seq<Piece>, pageEnd: bool, docEnd: bool)

  function Prepare(f: Fax, prep: Prep): Fax {
    var g := CollectAll(f, prep.pieces);
    g.(dataLast := g.dataLast || prep.pageEnd || prep.docEnd, lastPage := g.lastPage || prep.docEnd)
  }

  function InitNewPage(f: Fax): Fax {
    f.(pageRetry := 0, result := NoResult, pageq := [], saveq := [], handed := [], collected := Skb(f))
  }

  /** The saved frames are queued once more. */
  function CopyForRetry(f: Fax): Fax {
    f.(pageq := f.saveq, handed := [])
  }

  /** The next page frame goes down. */
  function HandPage(f: Fax): Fax
    requires f.pageq != []
  {
    SendDown(f.(pageq := f.pageq[1..], handed := f.handed + [f.pageq[0]]), f.pageq[0])
  }

  function HandAllPages(f: Fax): Fax
    decreases |f.pageq|
  {
    if f.pageq == [] then f else HandAllPages(HandPage(f))
  }

  // ----- the handlers of the call machine ---------------------------------------------------

  /** A capability frame overwrites the start of the capabilities; any other frame is ignored. */
  function DisAfter(dis: seq<byte>, frame: Frame): seq<byte> {
    if |frame| < 3 || frame[2] != 0x80 || |frame| < 6 then dis
    else
      var n := if |frame| - 3 > 12 then 12 else |frame| - 3;
      frame[3..3 + n] + (if n <= |dis| then dis[n..] else [])
  }

  function ReceiveDis(f: Fax, frame: Frame): Fax {
    f.(dis := DisAfter(f.dis, frame))
  }

  function PeerRatesOf(dis: seq<byte>): nat {
    if |dis| < 2 then 0 else PEER_RATES[(dis[1] / 4) % 16]
  }

  /** The peer's rates, and the best rate common with it. */
  function Rated(f: Fax): Fax {
    var g := f.(peerRates := PeerRatesOf(f.dis));
    var r := BestRate(g, MAX_RATE_IDX);
    g.(rateIdx := r, tried := if r >= 0 then [r] else [])
  }

  function FinishDis(f: Fax): Fax {
    var k := Rated(f);
    if k.rateIdx > 0
    then RequestModulation(FillDcs(k).(main := WaitSendDcs), FTH, HDLC_RATE)
    else k.(main := Idle)
  }

  function DoDcs(f: Fax): Fax {
    var g := f.(main := SendDcs);
    var h := if g.sentTis then g else SendHdlc(g.(sentTis := true), 0x03, 0x43, Char20(g.stationId));
    SendHdlc(h, 0x13, 0x83, h.dcs)
  }

  function SetupTrain(f: Fax): Fax {
    if ValidRate(f, f.rateIdx) then RequestModulation(f, FTM, TRAIN_RATES[f.rateIdx])
    else f.(main := Idle)
  }

  function TrainLength(i: int): nat {
    if 0 <= i <= MAX_RATE_IDX then 3 * (BAUD[i] / 16) else 0
  }

  function DoTrain(f: Fax): Fax {
    SendDown(f.(main := SendTrain, dataLast := true), Zeros(TrainLength(f.rateIdx)))
  }

  function TrainResult(r: Result, frame: Frame): Result {
    if |frame| < 3 then r
    else if frame[2] == 0x84 then Cfr
    else if frame[2] == 0x44 then Ftt
    else NoResult
  }

  function ReceiveTrainState(f: Fax, frame: Frame): Fax {
    f.(result := TrainResult(f.result, frame))
  }

  /** Down to the next common rate, if there is one. */
  function FallbackRate(f: Fax): Fax {
    var r := if f.rateIdx >= 0 then BestRate(f, f.rateIdx - 1) else f.rateIdx - 1;
    f.(rateIdx := r, tried := if r >= 0 then f.tried + [r] else f.tried)
  }

  function FinishTrainState(f: Fax): Fax {
    if f.result == Ftt then
      var g := FallbackRate(f.(pendingMod := FTH, pendingRate := HDLC_RATE));
      if ValidRate(g, g.rateIdx) then FillDcs(g).(main := WaitSendDcs) else g.(main := WaitSendDcn)
    else f.(main := WaitSendPage)
  }

  function SetupSendPage(f: Fax): Fax {
    if ValidRate(f, f.rateIdx) then RequestModulation(f, FTM, PAGE_RATES[f.rateIdx])
    else f.(main := Idle)
  }

  function ReadySendPage(f: Fax): Fax {
    SendDown(f.(main := SendPage, dataReady := true, mark := |f.sent| + |f.downq|), Zeros(f.preamble))
  }

  function SendNextPageData(f: Fax, prep: Prep): Fax {
    if f.dataLast then
      (if f.pageq == [] then f.(dataLast := false) else HandAllPages(f))
    else if f.pageRetry == 0 then
      var g := Prepare(f, prep);
      if g.pageq == [] then g else HandPage(g)
    else if f.pageq == [] then f.(dataLast := false)
    else HandPage(f)
  }

  function FinishPage(f: Fax): Fax {
    RequestModulation(f.(dataReady := false, main := WaitSendEop), FTH, HDLC_RATE)
  }

  function SendEndOfPage(f: Fax): Fax {
    SendHdlc(f.(main := SendEop), 0x13, if f.lastPage then 0x2f else 0x4f, [])
  }

  function PageResult(r: Result, frame: Frame): Result {
    if |frame| < 3 then r
    else if frame[2] == 0x8c then Mcf
    else if frame[2] == 0xcc then Rtp
    else if frame[2] == 0x4c then Rtn
    else NoResult
  }

  function ReceiveMcf(f: Fax, frame: Frame): Fax {
    f.(result := PageResult(f.result, frame))
  }

  /** The peer could not read the page: a lower rate and the page again, at most five times. */
  function AfterRtn(f: Fax): Fax {
    var h := f.(pageRetry := f.pageRetry + 1);
    if h.pageRetry >= 5 then h.(main := WaitSendDcn)
    else
      var k := FallbackRate(h);
      if ValidRate(k, k.rateIdx) then CopyForRetry(FillDcs(k)).(main := WaitSendDcs)
      else k.(main := WaitSendDcn)
  }

  /** The peer wants to train again before the next page. */
  function AfterRtp(f: Fax, prep: Prep): Fax {
    if f.lastPage then f.(main := WaitSendDcn)
    else FillDcs(Prepare(InitNewPage(f), prep)).(main := WaitSendDcs)
  }

  function FinishMcf(f: Fax, prep: Prep): Fax {
    if f.result == Mcf && !f.lastPage then Prepare(InitNewPage(f), prep).(main := WaitSendPage)
    else
      var g := match f.result
               case Rtn => AfterRtn(f)
               case Rtp => AfterRtp(f, prep)
               case _ => f.(main := WaitSendDcn);
      RequestModulation(g, FTH, HDLC_RATE)
  }

  /** What a handler may be given with its event. */
  datatype Arg = Arg(frame: Frame, prep: Prep)

  function Run(f: Fax, h: Handler, arg: Arg): Fax {
    match h
    case DoCallout => f.(main := WaitRecvDis)
    case DoActivDis => f.(main := RecvDis)
    case DoReceiveDis => ReceiveDis(f, arg.frame)
    case DoFinishDis => FinishDis(f)
    case DoSendDcs => DoDcs(f)
    case DoSendLastData => f.(dataLast := false)
    case DoFinishDcs => f.(main := WaitSendTrain)
    case DoSetupTrain => SetupTrain(f)
    case DoSendTrain => DoTrain(f)
    case DoFinishTrain => RequestModulation(f.(main := WaitTrainState), FRH, HDLC_RATE)
    case DoActivTrainState => f.(main := RecvTrainState)
    case DoReceiveTrainState => ReceiveTrainState(f, arg.frame)
    case DoFinishTrainState => FinishTrainState(f)
    case DoSetupSendPage => SetupSendPage(f)
    case DoReadySendPage => ReadySendPage(f)
    case DoSendNextPageData => SendNextPageData(f, arg.prep)
    case DoFinishPage => FinishPage(f)
    case DoSendEndOfPage => SendEndOfPage(f)
    case DoFinishEop => RequestModulation(f.(main := WaitRecvMcf), FRH, HDLC_RATE)
    case DoActivMcf => f.(main := RecvMcf)
    case DoReceiveMcf => ReceiveMcf(f, arg.frame)
    case DoFinishMcf => FinishMcf(f, arg.prep)
    case DoSendDcn => SendHdlc(f, 0x13, 0xfb, [])
    case DoFinishDcn => f.(main := Clearing)
  }

  function MainStep(f: Fax, e: MainEvent, arg: Arg): Fax {
    match HandlerFor(f.main, e)
    case Some(h) => Run(f, h, arg)
    case None => f
  }

  // ----- what happens to a session ----------------------------------------------------------

  datatype Input =
    | Ready                         // the modem is ready for a command
    | Connect                       // the modem has connected in the mode asked for
    | NoCarrier(prep: Prep)         // the modem has gone idle
    | Received(frame: Frame)        // a frame has come in
    | Confirmed(prep: Prep)         // the modem has taken the last frame
    | Delay                         // the delay timer has fired
    | ConnectB3                     // the application asks for the call
    | DataB3(prep: Prep)            // the application hands over document data

  function NoPrep(): Prep {
    Prep([], false, false)
  }

  function Connects(f: Fax): Fax {
    if f.mod == WaitConnect then
      MainStep(f.(mod := Connected, currentMod := f.pendingMod, pendingMod := -1,
                  currentRate := f.pendingRate, pendingRate := -1), ModemActiv, Arg([], NoPrep()))
    else f
  }

  function Disconnects(f: Fax, prep: Prep): Fax {
    if f.mod == Connected || f.mod == WaitDisconnect
    then MainStep(f.(mod := ModIdle), ModemIdle, Arg([], prep))
    else f
  }

  function Confirms(f: Fax, prep: Prep): Fax {
    if !f.dataBusy then f
    else
      var g := f.(confirmed := f.confirmed + 1);
      if g.downq != [] then g.(downq := g.downq[1..], sent := g.sent + [g.downq[0]])
      else if g.dataReady && g.pageq != [] then
        g.(pageq := g.pageq[1..], handed := g.handed + [g.pageq[0]], sent := g.sent + [g.pageq[0]])
      else MainStep(g.(dataBusy := false), NextData, Arg([], prep))
  }

  function StartCall(f: Fax): Fax {
    var g := RequestModulation(f, FRH, HDLC_RATE);
    MainStep(g, CallOut, Arg([], NoPrep()))
  }

  function Step(f: Fax, i: Input): Fax {
    match i
    case Ready => if f.mod == ModNull || f.mod == ModIdle then SetNewModulation(f, ModReady) else f
    case Connect => Connects(f)
    case NoCarrier(prep) => Disconnects(f, prep)
    case Received(frame) => MainStep(f, Data, Arg(frame, NoPrep()))
    case Confirmed(prep) => Confirms(f, prep)
    case Delay => MainStep(f, DelayTimer, Arg([], NoPrep()))
    case ConnectB3 => StartCall(f)
    case DataB3(prep) => Prepare(f, prep)
  }
}
