/**
 What no event changes, and the one event that sends the station's identity.
 */
module FaxSettings {
  import opened FaxSpec
  import opened FaxInvariant
  import opened FaxRuns
  import opened FaxTheorems
  import opened FaxRates
  import opened FaxRetry

  /** Settings as before, and the identity sent or not. */
  predicate Settings(f: Fax, g: Fax, identity: bool) {
    g.ownRates == f.ownRates && g.stationId == f.stationId && g.preamble == f.preamble && g.sentTis == identity
  }

  lemma AskedSettings(f: Fax, g: Fax, mode: int, rate: int)
    requires Settings(f, g, f.sentTis)
    ensures Settings(f, RequestModulation(g, mode, rate), f.sentTis)
  {
    hide RequestModulation;
    RequestIs(g, mode, rate);
  }

  lemma SentSettings(f: Fax, g: Fax, frame: Frame, identity: bool)
    requires Settings(f, g, identity)
    ensures Settings(f, SendDown(g, frame), identity)
  {
  }

  lemma DcsSettings(f: Fax)
    ensures Settings(f, DoDcs(f), true)
  {
    hide SendDown, Char20;
    var g := f.(main := SendDcs);
    var t := [0xff, 0x03, 0x43] + Char20(g.stationId);
    SentSettings(f, g.(sentTis := true), t, true);
    var h := if g.sentTis then g else SendDown(g.(sentTis := true), t);
    SentSettings(f, h, [0xff, 0x13, 0x83] + h.dcs, true);
  }

  lemma TrainSettings(f: Fax)
    ensures Settings(f, DoTrain(f), f.sentTis)
  {
    hide SendDown, Zeros, TrainLength;
    SentSettings(f, f.(main := SendTrain, dataLast := true), Zeros(TrainLength(f.rateIdx)), f.sentTis);
  }

  lemma PageSettings(f: Fax)
    ensures Settings(f, ReadySendPage(f), f.sentTis)
  {
    hide SendDown, Zeros;
    SentSettings(f, f.(main := SendPage, dataReady := true, mark := |f.sent| + |f.downq|), Zeros(f.preamble), f.sentTis);
  }

  lemma EopSettings(f: Fax)
    ensures Settings(f, SendEndOfPage(f), f.sentTis)
  {
    hide SendDown;
    SentSettings(f, f.(main := SendEop), [0xff, 0x13, if f.lastPage then 0x2f else 0x4f] + [], f.sentTis);
  }

  lemma DcnSettings(f: Fax)
    ensures Settings(f, SendHdlc(f, 0x13, 0xfb, []), f.sentTis)
  {
    hide SendDown;
    SentSettings(f, f, [0xff, 0x13, 0xfb] + [], f.sentTis);
  }

  lemma MovedSettings(f: Fax, s: MainState)
    ensures Settings(f, f.(main := s), f.sentTis)
  {
  }

  lemma ActivSettings(f: Fax, arg: Arg)
    requires Waiting(f.main)
    ensures Settings(f, MainStep(f, ModemActiv, arg), f.sentTis || f.main.WaitSendDcs?)
  {
    hide DoDcs, DoTrain, ReadySendPage, SendEndOfPage, SendHdlc, Settings;
    match f.main
    case WaitSendDcs => DcsSettings(f);
    case WaitSendTrain => TrainSettings(f);
    case WaitSendPage => PageSettings(f);
    case WaitSendEop => EopSettings(f);
    case WaitSendDcn => DcnSettings(f);
    case WaitRecvDis => MovedSettings(f, RecvDis);
    case WaitTrainState => MovedSettings(f, RecvTrainState);
    case WaitRecvMcf => MovedSettings(f, RecvMcf);
  }

  lemma ConnectSettings(f: Fax)
    requires Inv(f)
    ensures Settings(f, Connects(f), f.sentTis || (f.mod == WaitConnect && f.main.WaitSendDcs?))
  {
    hide MainStep, RateOk, PipeOk, PageOk, RateFor;
    if f.mod == WaitConnect {
      var g := f.(mod := Connected, currentMod := f.pendingMod, pendingMod := -1,
                  currentRate := f.pendingRate, pendingRate := -1);
      if Waiting(f.main) {
        ActivSettings(g, Arg([], NoPrep()));
      } else {
        IdleHears(g);
      }
    }
  }

  lemma IdleHears(g: Fax)
    requires g.main.Idle? || Transferring(g.main)
    ensures MainStep(g, ModemActiv, Arg([], NoPrep())) == g
  {
  }

  lemma DisSettings(f: Fax)
    ensures Settings(f, FinishDis(f), f.sentTis)
  {
    hide RequestModulation, BestRate, DcsFor, PeerRatesOf;
    AskedSettings(f, FillDcs(Rated(f)).(main := WaitSendDcs), FTH, HDLC_RATE);
  }

  lemma TrainStateSettings(f: Fax)
    ensures Settings(f, FinishTrainState(f), f.sentTis)
  {
    hide FinishTrainState, FallbackRate, DcsFor;
    var e := f.(pendingMod := FTH, pendingRate := HDLC_RATE);
    TrainStateIs(f, e);
    FallbackKeepsPage(e);
  }

  lemma RtnSettings(f: Fax)
    requires f.rateIdx >= 0
    ensures Settings(f, AfterRtn(f), f.sentTis)
  {
    hide AfterRtn, BestRate, DcsFor;
    RtnIs(f, BestRate(f, f.rateIdx - 1));
  }

  lemma NewPageSettings(f: Fax, prep: Prep)
    requires PageOk(f) && Fits(prep)
    ensures Settings(f, Prepare(InitNewPage(f), prep), f.sentTis)
  {
    hide Prepare, Fits, Flat;
    InitKeeps(f);
    PrepareKeeps(InitNewPage(f), prep);
  }

  lemma McfSettings(f: Fax, prep: Prep)
    requires PageOk(f) && Fits(prep) && f.rateIdx >= 0
    ensures Settings(f, FinishMcf(f, prep), f.sentTis)
  {
    hide Prepare, Fits, AfterRtn, RequestModulation, PageOk, InitNewPage, DcsFor;
    NewPageSettings(f, prep);
    RtnSettings(f);
    AskedSettings(f, AfterRtn(f), FTH, HDLC_RATE);
    AskedSettings(f, AfterRtp(f, prep), FTH, HDLC_RATE);
    AskedSettings(f, f.(main := WaitSendDcn), FTH, HDLC_RATE);
  }

  lemma AskSettings(f: Fax, s: MainState)
    ensures Settings(f, RequestModulation(f.(main := s), FRH, HDLC_RATE), f.sentTis)
  {
    hide RequestModulation;
    AskedSettings(f, f.(main := s), FRH, HDLC_RATE);
  }

  lemma PageGoneSettings(f: Fax)
    ensures Settings(f, FinishPage(f), f.sentTis)
  {
    hide RequestModulation;
    AskedSettings(f, f.(dataReady := false, main := WaitSendEop), FTH, HDLC_RATE);
  }

  lemma McfLeftSettings(f: Fax, prep: Prep)
    requires Left(f) && f.main.RecvMcf? && Fits(prep)
    ensures Settings(f, FinishMcf(f, prep), f.sentTis)
  {
    hide FinishMcf, PipeOk, PageOk, Fits, Common;
    McfSettings(f, prep);
  }

  lemma IdleSettings(f: Fax, prep: Prep)
    requires Left(f) && Fits(prep)
    ensures Settings(f, MainStep(f, ModemIdle, Arg([], prep)), f.sentTis)
  {
    hide FinishDis, FinishTrainState, FinishPage, FinishMcf, RequestModulation, RateOk, PipeOk, PageOk, Fits, Settings;
    match f.main
    case RecvDis => DisSettings(f);
    case SendDcs => MovedSettings(f, WaitSendTrain);
    case SendTrain => AskSettings(f, WaitTrainState);
    case RecvTrainState => TrainStateSettings(f);
    case SendPage => PageGoneSettings(f);
    case SendEop => AskSettings(f, WaitRecvMcf);
    case RecvMcf => McfLeftSettings(f, prep);
  }

  lemma DisconnectSettings(f: Fax, prep: Prep)
    requires Inv(f) && Fits(prep)
    ensures Settings(f, Disconnects(f, prep), f.sentTis)
  {
    hide MainStep, Inv, Fits, Left;
    if Transferring(f.main) {
      ModemLeaves(f);
      IdleSettings(f.(mod := ModIdle), prep);
    } else {
      WaitingHears(f.(mod := ModIdle), prep);
      assert f.main.Idle? || Waiting(f.main) by { Phases(f); }
    }
  }

  lemma Phases(f: Fax)
    requires Inv(f)
    ensures f.main.Idle? || Waiting(f.main) || Transferring(f.main)
  {
    hide RateOk, PipeOk, PageOk;
  }

  lemma WaitingHears(g: Fax, prep: Prep)
    ensures g.main.Idle? || Waiting(g.main) ==> MainStep(g, ModemIdle, Arg([], prep)) == g
  {
    hide Run;
  }

  lemma ConfirmSettings(f: Fax, prep: Prep)
    requires Inv(f) && Fits(prep)
    ensures Settings(f, Confirms(f, prep), f.sentTis)
  {
    hide PipeOk, PageOk, RateOk, ModemOk, Fits, SendNextPageData, Confirms;
    ConfirmsIs(f, prep);
    if !OnlyQueues(f, Confirms(f, prep)) {
      ConfirmedPipe(f);
      SendNextKeeps(f.(confirmed := f.confirmed + 1, dataBusy := false), prep);
    }
  }

  lemma OtherSettings(f: Fax, i: Input)
    requires i.Ready? || i.Received? || i.Delay? || i.ConnectB3?
    ensures Settings(f, Step(f, i), f.sentTis)
  {
    hide Step, RequestModulation;
    match i {
      case Ready => ReadyIs(f);
      case Received(frame) => ReceivedIs(f, frame);
      case Delay =>
        DelayIs(f);
        if rate :| Step(f, Delay) == RequestModulation(f, FTM, rate) {
          AskedSettings(f, f, FTM, rate);
        }
      case ConnectB3 => StartSettings(f);
    }
  }

  lemma StartSettings(f: Fax)
    ensures Settings(f, Step(f, ConnectB3), f.sentTis)
  {
    hide RequestModulation;
    AskedSettings(f, f, FRH, HDLC_RATE);
  }

  lemma DataSettings(f: Fax, prep: Prep)
    requires Inv(f) && Fits(prep)
    ensures Settings(f, Prepare(f, prep), f.sentTis)
  {
    hide Prepare, Fits, RateOk, ModemOk, PipeOk, Flat;
    PrepareKeeps(f, prep);
  }

  /** No event changes the station's own rates, its identity and the preamble; the identity counts as sent
      from the first DCS on, which is the event that sends it, and stays so. */
  lemma IdentityOnce(f: Fax, i: Input)
    requires Inv(f) && Allowed(f, i)
    ensures Settings(f, Step(f, i), f.sentTis || (i.Connect? && f.mod == WaitConnect && f.main.WaitSendDcs?))
  {
    hide Inv, Connects, Disconnects, Confirms, MainStep, StartCall, Prepare, Fits, Settings;
    match i
    case Connect => ConnectSettings(f);
    case NoCarrier(prep) => DisconnectSettings(f, prep);
    case Confirmed(prep) => ConfirmSettings(f, prep);
    case DataB3(prep) => DataSettings(f, prep);
    case _ => OtherSettings(f, i);
  }
}
