/**
 What the session says to the peer: the frames it queues when the modem has connected, read with the
 codes of ITU-T Recommendation T.30.
 */
module FaxFrames {
  import opened Basics
  import opened FaxSpec
  import opened FaxInvariant
  import opened FaxRuns
  import opened FaxSessions

  // ----- codes ------------------------------------------------------------------------------

  /** A data signalling rate with its modulation. */
  datatype Signalling = V27(baud: int) | V29(baud: int) | V17(baud: int) | Reserved

  /** Bits 11 to 14 of a DCS, bit 11 lowest (table 2 of T.30). */
  function Announced(code: int): Signalling {
    match code
    case 0x0 => V27(2400)
    case 0x2 => V27(4800)
    case 0x1 => V29(9600)
    case 0x3 => V29(7200)
    case 0x8 => V17(14400)
    case 0xa => V17(12000)
    case 0x9 => V17(9600)
    case 0xb => V17(7200)
    case _ => Reserved
  }

  /** The modulation a modem is asked for by the code of its transmit command. */
  function Modulation(code: int): Signalling {
    match code
    case 24 => V27(2400)
    case 48 => V27(4800)
    case 72 => V29(7200)
    case 96 => V29(9600)
    case 73 => V17(7200) case 74 => V17(7200)
    case 97 => V17(9600) case 98 => V17(9600)
    case 121 => V17(12000) case 122 => V17(12000)
    case 145 => V17(14400) case 146 => V17(14400)
    case _ => Reserved
  }

  /** For every rate the DCS announces what the modem then uses for the training and for the page. */
  lemma RateIsAnnounced(i: int)
    requires 0 <= i <= MAX_RATE_IDX
    ensures var s := Announced((DcsFor(i)[1] as int / 4) % 16);
            && !s.Reserved? && s.baud == BAUD[i]
            && s == Modulation(TRAIN_RATES[i]) == Modulation(PAGE_RATES[i])
  {
  }

  /** The code for a rate, read back. */
  function RateOf(code: int): int {
    match code
    case 0x0 => 0 case 0x2 => 1 case 0x3 => 2 case 0xb => 3 case 0x1 => 4 case 0x9 => 5 case 0xa => 6
    case _ => 7
  }

  /** Different rates are announced differently: the code can be read back. */
  lemma AnnouncedDiffer(i: int)
    requires 0 <= i <= MAX_RATE_IDX
    ensures RateOf((DcsFor(i)[1] as int / 4) % 16) == i
  {
  }

  // ----- frames -----------------------------------------------------------------------------

  const TSI: byte := 0x43
  const DCS: byte := 0x83
  const EOP: byte := 0x2f
  const MPS: byte := 0x4f
  const DCN: byte := 0xfb

  /** An HDLC frame: address, control field with the bit for the last frame of a burst, code and
      parameters. */
  function Command(last: bool, code: byte, parameters: Frame): Frame {
    [0xff, if last then 0x13 else 0x03, code] + parameters
  }

  /** Twenty characters that spell the station's identity backwards, with spaces after it. */
  predicate Spells(id: Frame, station: Frame) {
    && |id| == 20
    && forall k | 0 <= k < 20 ::
         id[k] == var len := if |station| > 20 then 20 else |station|; if k < len then station[len - 1 - k] else 0x20
  }

  lemma CharsSpell(station: Frame)
    ensures Spells(Char20(station), station)
  {
  }

  /** A second and a half of zeros at the rate to be trained. */
  predicate TrainsFor(t: Frame, baud: int) {
    16 * |t| == 3 * baud && forall k | 0 <= k < |t| :: t[k] == 0
  }

  lemma ZerosTrain(i: int)
    requires 0 <= i <= MAX_RATE_IDX
    ensures TrainsFor(Zeros(TrainLength(i)), BAUD[i])
  {
  }

  /** What the modem has been given and what waits for it. */
  function Queue(f: Fax): seq<Frame> {
    f.sent + f.downq
  }

  /** The connected modem sends what belongs to the state the call has waited in: a DCS with the rate
      negotiated, after the station's identity if that has not been sent; the training; the preamble of
      the page; the end of the page, told apart by whether it was the last; the end of the call. */
  ghost predicate Speaks(f: Fax, g: Fax) {
    match f.main
    case WaitSendDcs =>
      && g.main.SendDcs? && g.sentTis
      && var dcs := Command(true, DCS, DcsFor(f.rateIdx));
         if f.sentTis then Queue(g) == Queue(f) + [dcs]
         else exists id :: Spells(id, f.stationId) && Queue(g) == Queue(f) + [Command(false, TSI, id)] + [dcs]
    case WaitSendTrain =>
      && g.main.SendTrain? && g.dataLast && 0 <= f.rateIdx <= MAX_RATE_IDX
      && exists t :: TrainsFor(t, BAUD[f.rateIdx]) && Queue(g) == Queue(f) + [t]
    case WaitSendPage =>
      g.main.SendPage? && Queue(g) == Queue(f) + [Zeros(f.preamble)] && g.mark == |Queue(f)|
    case WaitSendEop =>
      g.main.SendEop? && Queue(g) == Queue(f) + [Command(true, if f.lastPage then EOP else MPS, [])]
    case WaitSendDcn =>
      g.main.WaitSendDcn? && Queue(g) == Queue(f) + [Command(true, DCN, [])]
    case WaitRecvDis => g.main.RecvDis? && Queue(g) == Queue(f)
    case WaitTrainState => g.main.RecvTrainState? && Queue(g) == Queue(f)
    case WaitRecvMcf => g.main.RecvMcf? && Queue(g) == Queue(f)
    case _ => true
  }

  lemma DcsSpeaks(f: Fax)
    requires Arrived(f) && f.main.WaitSendDcs?
    ensures Speaks(f, DoDcs(f))
  {
    hide Char20, Spells, RateOk, PageOk, SendDown, DcsFor;
    assert f.dcs == DcsFor(f.rateIdx) by { DcsReady(f); }
    var g := f.(main := SendDcs);
    var id := Char20(f.stationId);
    CharsSpell(f.stationId);
    if f.sentTis {
      SendQueues(g, Command(true, DCS, g.dcs));
    } else {
      var t := g.(sentTis := true);
      SendQueues(t, Command(false, TSI, id));
      var h := SendDown(t, Command(false, TSI, id));
      SendQueues(h, Command(true, DCS, h.dcs));
    }
  }

  lemma DcsReady(f: Fax)
    requires RateOk(f) && f.main.WaitSendDcs?
    ensures f.dcs == DcsFor(f.rateIdx)
  {
  }

  lemma TrainSpeaks(f: Fax)
    requires Arrived(f) && f.main.WaitSendTrain?
    ensures Speaks(f, DoTrain(f))
  {
    hide TrainsFor, Zeros, TrainLength, PageOk, SendDown, Common, HasBit;
    var g := f.(main := SendTrain, dataLast := true);
    ZerosTrain(f.rateIdx);
    SendQueues(g, Zeros(TrainLength(f.rateIdx)));
  }

  lemma PageSpeaks(f: Fax)
    requires Arrived(f) && f.main.WaitSendPage?
    ensures Speaks(f, ReadySendPage(f))
  {
    hide Zeros, PageOk, RateOk, SendDown;
    var g := f.(main := SendPage, dataReady := true, mark := |f.sent| + |f.downq|);
    SendQueues(g, Zeros(f.preamble));
  }

  lemma EopSpeaks(f: Fax)
    requires Arrived(f) && f.main.WaitSendEop?
    ensures Speaks(f, SendEndOfPage(f))
  {
    hide PageOk, RateOk, SendDown;
    var g := f.(main := SendEop);
    SendQueues(g, Command(true, if f.lastPage then EOP else MPS, []));
  }

  lemma DcnSpeaks(f: Fax)
    requires Arrived(f) && f.main.WaitSendDcn?
    ensures Speaks(f, SendHdlc(f, 0x13, 0xfb, []))
  {
    hide PageOk, RateOk, SendDown;
    SendQueues(f, Command(true, DCN, []));
  }

  lemma ReceivingSpeaks(f: Fax, s: MainState)
    requires (f.main.WaitRecvDis? && s.RecvDis?) || (f.main.WaitTrainState? && s.RecvTrainState?)
             || (f.main.WaitRecvMcf? && s.RecvMcf?)
    ensures Speaks(f, f.(main := s))
  {
  }

  lemma ActivSpeaks(f: Fax, arg: Arg)
    requires Arrived(f)
    ensures Speaks(f, MainStep(f, ModemActiv, arg))
  {
    hide RateOk, PageOk, PipeOk, DoDcs, DoTrain, ReadySendPage, SendEndOfPage, SendHdlc, Speaks;
    match f.main
    case WaitSendDcs => DcsSpeaks(f);
    case WaitSendTrain => TrainSpeaks(f);
    case WaitSendPage => PageSpeaks(f);
    case WaitSendEop => EopSpeaks(f);
    case WaitSendDcn => DcnSpeaks(f);
    case WaitRecvDis => ReceivingSpeaks(f, RecvDis);
    case WaitTrainState => ReceivingSpeaks(f, RecvTrainState);
    case WaitRecvMcf => ReceivingSpeaks(f, RecvMcf);
  }

  lemma SpeaksSame(f: Fax, h: Fax, g: Fax)
    requires Speaks(h, g) && h.main == f.main && h.rateIdx == f.rateIdx && h.sentTis == f.sentTis
    requires h.stationId == f.stationId && h.preamble == f.preamble && h.lastPage == f.lastPage
    requires h.sent == f.sent && h.downq == f.downq
    ensures Speaks(f, g)
  {
    hide DcsFor, Spells, TrainsFor, Zeros, Command;
  }

  /** What the modem is given when it has connected in the mode the call waits for. */
  lemma ConnectSpeaks(f: Fax)
    requires Inv(f) && f.mod == WaitConnect && Waiting(f.main)
    ensures Speaks(f, Step(f, Connect))
  {
    hide Speaks, Common, HasBit, DcsFor, Flat, Zeros, MainStep, RateFor;
    var g := f.(mod := Connected, currentMod := f.pendingMod, pendingMod := -1,
                currentRate := f.pendingRate, pendingRate := -1);
    RateOkFrame(f, g);
    ActivSpeaks(g, Arg([], NoPrep()));
    SpeaksSame(f, g, MainStep(g, ModemActiv, Arg([], NoPrep())));
  }

  // ----- the peer's capabilities ------------------------------------------------------------

  /** The fastest rate a DIS offers by its bits 11 to 14, of those the session knows. */
  function Offered(code: int): Option<int> {
    match code
    case 0x2 => Some(4800)
    case 0x3 => Some(9600)
    case 0x7 => Some(9600)
    case 0xb => Some(14400)
    case _ => None
  }

  /** A DIS overwrites the start of the capabilities with at most twelve octets; any other frame, and one
      without three octets of capabilities, is ignored. */
  lemma DisIsKept(f: Fax, frame: Frame, k: nat)
    requires f.main.RecvDis?
    ensures var g := Step(f, Received(frame));
            if |frame| < 6 || frame[2] != 0x80 then g == f
            else
              && g == f.(dis := g.dis) && |g.dis| >= 3
              && (k < 12 && 3 + k < |frame| ==> k < |g.dis| && g.dis[k] == frame[3 + k])
              && (k >= 12 || 3 + k >= |frame| ==> (k < |g.dis| <==> k < |f.dis|) && (k < |f.dis| ==> g.dis[k] == f.dis[k]))
  {
    var d := DisAfter(f.dis, frame);
    assert Step(f, Received(frame)) == f.(dis := d) by { HearsCapabilities(f, frame); }
  }

  lemma HearsCapabilities(f: Fax, frame: Frame)
    requires f.main.RecvDis?
    ensures Step(f, Received(frame)) == f.(dis := DisAfter(f.dis, frame))
  {
    hide DisAfter;
  }

  lemma PeerOffers(dis: seq<byte>)
    requires |dis| >= 2
    ensures var o := Offered((dis[1] as int / 4) % 16);
            PeerRatesOf(dis) == match o case None => 0 case Some(b) => if b == 14400 then 0xff else if b == 9600 then 0x17 else 0x03
  {
  }

  lemma FinishDisAnswers(f: Fax)
    requires f.ownRates == 0xff && f.mod == ModIdle && |f.dis| >= 2
    ensures var g := FinishDis(f);
            match Offered((f.dis[1] as int / 4) % 16)
            case None => g.main.Idle?
            case Some(baud) =>
              && g.main.WaitSendDcs? && g.mod == WaitConnect && g.pendingMod == FTH
              && 0 <= g.rateIdx <= MAX_RATE_IDX && BAUD[g.rateIdx] == baud && g.dcs == DcsFor(g.rateIdx)
  {
    hide RequestModulation, DcsFor, BestRate, HasBit, PeerRatesOf, Offered;
    var g := f.(peerRates := PeerRatesOf(f.dis));
    assert PeerRatesOf(f.dis) in {0, 0x03, 0x17, 0xff} by { PeerOffers(f.dis); }
    BestOfMask(g);
    PeerOffers(f.dis);
    OfferedAre((f.dis[1] as int / 4) % 16);
    AskIs(FillDcs(Rated(f)).(main := WaitSendDcs), FTH);
  }

  lemma OfferedAre(code: int)
    ensures Offered(code) in {None, Some(4800), Some(9600), Some(14400)}
  {
  }

  /** A DIS is answered with a DCS for the fastest rate it offers, or the call is refused if it offers
      none. */
  lemma DisAnswered(f: Fax, frame: Frame, prep: Prep)
    requires Inv(f) && f.main.RecvDis? && f.ownRates == 0xff && |frame| >= 6 && frame[2] == 0x80
    ensures var g := Step(Step(f, Received(frame)), NoCarrier(prep));
            match Offered((frame[4] as int / 4) % 16)
            case None => g.main.Idle?
            case Some(baud) =>
              && g.main.WaitSendDcs? && g.mod == WaitConnect && g.pendingMod == FTH
              && 0 <= g.rateIdx <= MAX_RATE_IDX && BAUD[g.rateIdx] == baud && g.dcs == DcsFor(g.rateIdx)
  {
    hide Step, Inv, FinishDis, Offered, DcsFor;
    DisIsKept(f, frame, 1);
    StepKeeps(f, Received(frame));
    var h := Step(f, Received(frame));
    assert Step(h, NoCarrier(prep)) == FinishDis(h.(mod := ModIdle)) by { DisEndsStep(h, prep); }
    FinishDisAnswers(h.(mod := ModIdle));
  }

  lemma DisEndsStep(h: Fax, prep: Prep)
    requires Inv(h) && h.main.RecvDis?
    ensures Step(h, NoCarrier(prep)) == FinishDis(h.(mod := ModIdle))
  {
    hide FinishDis, RateOk, PipeOk, PageOk, RateFor;
  }
}
