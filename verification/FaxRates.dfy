/**
 Between two DIS exchanges the rate never rises, and every retraining is paid for by a rate that is
 given up or by a page that the peer answered with RTP.
 */
module FaxRates {
  import opened FaxSpec
  import opened FaxInvariant
  import opened FaxRuns
  import opened FaxTheorems

  /** The step that ends a DIS exchange and chooses the first rate. */
  predicate NewDis(f: Fax, i: Input) {
    i.NoCarrier? && f.main.RecvDis?
  }

  /** The step that retrains for the next page because the peer asked for it. */
  predicate RetrainsForPage(f: Fax, i: Input) {
    i.NoCarrier? && f.main.RecvMcf? && f.result == Rtp && !f.lastPage
  }

  /** The step that follows a failed training, or a page that could not be read and may be sent again. */
  predicate Fails(f: Fax, i: Input) {
    && i.NoCarrier?
    && ((f.main.RecvTrainState? && f.result == Ftt) || (f.main.RecvMcf? && f.result == Rtn && f.pageRetry < 4))
  }

  /** The call goes back to sending a DCS. */
  predicate Retrains(f: Fax, g: Fax) {
    g.main.WaitSendDcs? && !f.main.WaitSendDcs?
  }

  predicate SameRates(f: Fax, g: Fax) {
    g.ownRates == f.ownRates && g.peerRates == f.peerRates && g.rateIdx == f.rateIdx && g.tried == f.tried
  }

  /** Nothing happened to the rates, and there is no retraining. */
  predicate Steady(f: Fax, g: Fax) {
    SameRates(f, g) && !Retrains(f, g)
  }

  /** The page as far as it has been collected, and how often it has failed. */
  predicate SamePage(f: Fax, g: Fax) {
    && g.saveq == f.saveq && g.pageSkb == f.pageSkb && g.collected == f.collected
    && g.pageRetry == f.pageRetry && g.lastPage == f.lastPage
  }

  /** Rates and page are the same. */
  predicate Same(f: Fax, g: Fax) {
    SameRates(f, g) && SamePage(f, g)
  }

  /** Nothing happened to the rates and to the page. */
  predicate Still(f: Fax, g: Fax) {
    Steady(f, g) && SamePage(f, g)
  }

  /** The next common rate is tried; the masks stay. */
  predicate Falls(f: Fax, g: Fax) {
    && g.ownRates == f.ownRates && g.peerRates == f.peerRates
    && 0 <= f.rateIdx && 0 <= g.rateIdx == BestRate(f, f.rateIdx - 1) < f.rateIdx
    && g.tried == f.tried + [g.rateIdx]
    && Retrains(f, g)
  }

  /** All common rates have been tried. */
  predicate GivesUp(f: Fax, g: Fax) {
    && g.ownRates == f.ownRates && g.peerRates == f.peerRates
    && 0 <= f.rateIdx && g.rateIdx == -1 == BestRate(f, f.rateIdx - 1)
    && g.tried == f.tried == Common(f, MAX_RATE_IDX)
    && g.main.WaitSendDcn?
  }

  lemma SendSteady(f: Fax, frame: Frame)
    ensures var g := SendDown(f, frame); SameRates(f, g) && SamePage(f, g) && g.main == f.main
  {
  }

  lemma DcsSteady(f: Fax)
    requires f.main.WaitSendDcs?
    ensures Still(f, DoDcs(f))
  {
    hide SendDown, Char20;
    var g := f.(main := SendDcs);
    var t := [0xff, 0x03, 0x43] + Char20(g.stationId);
    var h := if g.sentTis then g else SendDown(g.(sentTis := true), t);
    SendSteady(g.(sentTis := true), t);
    SendSteady(h, [0xff, 0x13, 0x83] + h.dcs);
  }

  lemma TrainSteady(f: Fax)
    requires f.main.WaitSendTrain?
    ensures Still(f, DoTrain(f))
  {
    hide SendDown, Zeros, TrainLength;
    SendSteady(f.(main := SendTrain, dataLast := true), Zeros(TrainLength(f.rateIdx)));
  }

  lemma PageSteady(f: Fax)
    requires f.main.WaitSendPage?
    ensures Still(f, ReadySendPage(f))
  {
    hide SendDown, Zeros;
    SendSteady(f.(main := SendPage, dataReady := true, mark := |f.sent| + |f.downq|), Zeros(f.preamble));
  }

  lemma EopSteady(f: Fax)
    requires f.main.WaitSendEop?
    ensures Still(f, SendEndOfPage(f))
  {
    hide SendDown;
    SendSteady(f.(main := SendEop), [0xff, 0x13, if f.lastPage then 0x2f else 0x4f] + []);
  }

  lemma DcnSteady(f: Fax)
    ensures Still(f, SendHdlc(f, 0x13, 0xfb, []))
  {
    hide SendDown;
    SendSteady(f, [0xff, 0x13, 0xfb] + []);
  }

  lemma RecvSteady(f: Fax, s: MainState)
    requires !s.WaitSendDcs?
    ensures Still(f, f.(main := s))
  {
  }

  lemma ActivSteady(f: Fax)
    requires Waiting(f.main)
    ensures Still(f, MainStep(f, ModemActiv, Arg([], NoPrep())))
  {
    hide SendHdlc, DoTrain, DoDcs, ReadySendPage, SendEndOfPage, Still;
    match f.main
    case WaitSendDcs => DcsSteady(f);
    case WaitSendTrain => TrainSteady(f);
    case WaitSendPage => PageSteady(f);
    case WaitSendEop => EopSteady(f);
    case WaitSendDcn => DcnSteady(f);
    case WaitRecvDis => RecvSteady(f, RecvDis);
    case WaitTrainState => RecvSteady(f, RecvTrainState);
    case WaitRecvMcf => RecvSteady(f, RecvMcf);
  }

  lemma ConnectSteady(f: Fax)
    ensures Still(f, Connects(f))
  {
    hide Run;
    if f.mod == WaitConnect && Waiting(f.main) {
      ActivSteady(f.(mod := Connected, currentMod := f.pendingMod, pendingMod := -1,
                     currentRate := f.pendingRate, pendingRate := -1));
    }
  }

  lemma PrepareSteady(f: Fax, prep: Prep)
    requires Inv(f) && Fits(prep)
    ensures Steady(f, Prepare(f, prep))
  {
    hide RateOk, ModemOk, Fits, Prepare;
    InvParts(f);
    PreparePageKeeps(f, prep);
  }

  /** h differs from f only in the two queues and in what they have given to the modem. */
  predicate OnlyQueues(f: Fax, h: Fax) {
    h == f.(confirmed := h.confirmed, dataBusy := h.dataBusy, downq := h.downq, sent := h.sent, pageq := h.pageq,
            handed := h.handed, dataLast := h.dataLast)
  }

  /** Outside a page nothing more is sent once the last frame has been taken. */
  lemma NextDataIs(g: Fax, prep: Prep)
    requires !g.main.SendPage?
    ensures var h := MainStep(g, NextData, Arg([], prep)); h == g.(dataLast := h.dataLast)
  {
  }

  lemma NextPageIs(g: Fax, prep: Prep)
    requires g.main.SendPage?
    ensures MainStep(g, NextData, Arg([], prep)) == SendNextPageData(g, prep)
  {
    hide SendNextPageData;
  }

  /** A confirmed frame moves the queues on, or asks for more of the page being sent. */
  lemma ConfirmsIs(f: Fax, prep: Prep)
    ensures var h := Confirms(f, prep);
            || OnlyQueues(f, h)
            || (f.main.SendPage? && f.dataBusy && f.downq == []
                && h == SendNextPageData(f.(confirmed := f.confirmed + 1, dataBusy := false), prep))
  {
    hide SendNextPageData, MainStep;
    var g := f.(confirmed := f.confirmed + 1, dataBusy := false);
    if f.main.SendPage? {
      NextPageIs(g, prep);
    } else {
      NextDataIs(g, prep);
    }
  }

  lemma ConfirmSteady(f: Fax, prep: Prep)
    requires Inv(f) && Fits(prep)
    ensures Steady(f, Confirms(f, prep))
  {
    hide Common, PipeOk, PageOk, RateOk, ModemOk, Fits, SendNextPageData, Confirms;
    InvParts(f);
    ConfirmsIs(f, prep);
    if !OnlyQueues(f, Confirms(f, prep)) {
      ConfirmedPipe(f);
      SendNextKeeps(f.(confirmed := f.confirmed + 1, dataBusy := false), prep);
    }
  }

  lemma ConfirmedPipe(f: Fax)
    requires PipeOk(f) && PageOk(f) && f.dataBusy && f.downq == []
    ensures var g := f.(confirmed := f.confirmed + 1, dataBusy := false); PipeOk(g) && PageOk(g)
  {
    hide Flat, Zeros;
  }

  lemma OtherSteady(f: Fax, i: Input)
    requires i.Ready? || i.Received? || i.Delay? || i.ConnectB3?
    ensures Still(f, Step(f, i))
  {
    hide Step, RequestModulation;
    match i
    case Ready => ReadySteady(f);
    case Received(frame) => ReceivedIs(f, frame);
    case Delay => DelaySteady(f);
    case ConnectB3 => StartSteady(f);
  }

  lemma NewModulationIs(f: Fax, e: ModEvent)
    ensures var g := SetNewModulation(f, e); g == f.(mod := g.mod)
  {
  }

  lemma NewModulationSteady(f: Fax, e: ModEvent)
    ensures var g := SetNewModulation(f, e);
            SameRates(f, g) && SamePage(f, g) && g.main == f.main
  {
    hide SetNewModulation;
    NewModulationIs(f, e);
  }

  lemma ReadySteady(f: Fax)
    ensures Still(f, Step(f, Ready))
  {
    hide SetNewModulation;
    NewModulationSteady(f, ModReady);
  }

  lemma RequestSteady(f: Fax, mode: int, rate: int)
    ensures var g := RequestModulation(f, mode, rate);
            SameRates(f, g) && SamePage(f, g) && g.main == f.main
  {
    hide RequestModulation;
    RequestIs(f, mode, rate);
  }

  /** The delay timer asks for the mode the call waits for, or ends a call that has no rate. */
  lemma DelayIs(f: Fax)
    ensures var g := Step(f, Delay);
            g == f || g == f.(main := Idle) || exists rate :: g == RequestModulation(f, FTM, rate)
  {
    hide RequestModulation, HasBit;
  }

  lemma DelaySteady(f: Fax)
    ensures Still(f, Step(f, Delay))
  {
    hide RequestModulation, Step;
    DelayIs(f);
    if rate :| Step(f, Delay) == RequestModulation(f, FTM, rate) {
      RequestSteady(f, FTM, rate);
    }
  }

  lemma StartSteady(f: Fax)
    ensures Still(f, Step(f, ConnectB3))
  {
    hide RequestModulation;
    RequestIs(f, FRH, HDLC_RATE);
  }

  lemma FallbackFalls(f: Fax)
    requires RateOk(f) && Negotiated(f.main)
    ensures var g := FallbackRate(f);
            if g.rateIdx >= 0 then Falls(f, g.(main := WaitSendDcs)) || f.main.WaitSendDcs?
            else GivesUp(f, g.(main := WaitSendDcn))
  {
    hide Common, HasBit, DcsFor;
    FallbackTries(f);
  }

  lemma TrainStateRates(f: Fax)
    requires Left(f) && f.main.RecvTrainState?
    ensures var g := FinishTrainState(f); if f.result == Ftt then Falls(f, g) || GivesUp(f, g) else Steady(f, g)
  {
    hide Common, HasBit, DcsFor, PipeOk, PageOk, BestRate;
    if f.result == Ftt {
      var e := f.(pendingMod := FTH, pendingRate := HDLC_RATE);
      RateOkFrame(f, e);
      FallbackFalls(e);
      BestFrameAt(f, e, f.rateIdx - 1);
      CommonFrame(f, e, MAX_RATE_IDX);
      BestRateValid(e);
    }
  }

  lemma BestRateValid(f: Fax)
    requires f.rateIdx >= 0
    ensures var r := BestRate(f, f.rateIdx - 1);
            r >= 0 <==> ValidRate(FallbackRate(f), r)
  {
    hide HasBit;
  }

  lemma RtnRates(f: Fax)
    requires Left(f) && f.main.RecvMcf?
    ensures var g := AfterRtn(f); if f.pageRetry < 4 then Falls(f, g) || GivesUp(f, g) else Steady(f, g)
  {
    hide Common, HasBit, DcsFor, PipeOk, PageOk, BestRate, AfterRtn, FallbackRate;
    RtnIs(f, BestRate(f, f.rateIdx - 1));
    FallbackTries(f);
    FallbackIs(f);
  }

  lemma FallbackIs(f: Fax)
    requires f.rateIdx >= 0
    ensures FallbackRate(f).rateIdx == BestRate(f, f.rateIdx - 1) < f.rateIdx
    ensures FallbackRate(f).rateIdx >= -1
  {
  }

  /** Asking for a mode has no part in it. */
  lemma AskedRates(f: Fax, g: Fax)
    ensures var h := RequestModulation(g, FTH, HDLC_RATE);
            && (SameRates(f, g) ==> SameRates(f, h)) && (Retrains(f, g) <==> Retrains(f, h))
            && (Falls(f, g) ==> Falls(f, h)) && (GivesUp(f, g) ==> GivesUp(f, h))
  {
    hide BestRate, Common, RequestModulation;
    RequestIs(g, FTH, HDLC_RATE);
  }

  lemma McfRates(f: Fax, prep: Prep)
    requires Left(f) && f.main.RecvMcf? && Fits(prep)
    ensures var g := FinishMcf(f, prep);
            if f.result == Rtp && !f.lastPage then SameRates(f, g) && Retrains(f, g)
            else if f.result == Rtn && f.pageRetry < 4 then Falls(f, g) || GivesUp(f, g)
            else Steady(f, g)
  {
    hide Left, Falls, GivesUp, AfterRtn, Prepare, RequestModulation, Fits;
    if f.result == Rtn {
      RtnRates(f);
      AskedRates(f, AfterRtn(f));
    } else if (f.result == Rtp || f.result == Mcf) && !f.lastPage {
      NewPageRates(f, prep);
      AskedRates(f, AfterRtp(f, prep));
    } else {
      AskedRates(f, f.(main := WaitSendDcn));
    }
  }

  lemma NewPageRates(f: Fax, prep: Prep)
    requires Left(f) && f.main.RecvMcf? && Fits(prep)
    ensures SameRates(f, Prepare(InitNewPage(f), prep))
  {
    hide Common, HasBit, DcsFor, PipeOk, PageOk, RateOk, Prepare, Fits;
    InitKeeps(f);
    PrepareKeeps(InitNewPage(f), prep);
  }

  lemma AskSteady(f: Fax, g: Fax, mode: int)
    requires g == f.(main := g.main, dataReady := g.dataReady) && !g.main.WaitSendDcs?
    ensures Still(f, RequestModulation(g, mode, HDLC_RATE))
  {
    hide RequestModulation;
    RequestIs(g, mode, HDLC_RATE);
  }

  lemma IdleSteady(f: Fax, prep: Prep)
    requires f.main.SendDcs? || f.main.SendTrain? || f.main.SendPage? || f.main.SendEop?
    ensures Still(f, MainStep(f, ModemIdle, Arg([], prep)))
  {
    hide RequestModulation, Still;
    match f.main
    case SendDcs => RecvSteady(f, WaitSendTrain);
    case SendTrain => AskSteady(f, f.(main := WaitTrainState), FRH);
    case SendPage => AskSteady(f, f.(dataReady := false, main := WaitSendEop), FTH);
    case SendEop => AskSteady(f, f.(main := WaitRecvMcf), FRH);
  }

  lemma IdleRates(f: Fax, prep: Prep)
    requires Left(f) && !f.main.RecvDis? && Fits(prep)
    ensures var g := MainStep(f, ModemIdle, Arg([], prep));
            if f.main.RecvMcf? && f.result == Rtp && !f.lastPage then SameRates(f, g) && Retrains(f, g)
            else if Fails(f, NoCarrier(prep)) then Falls(f, g) || GivesUp(f, g)
            else Steady(f, g)
  {
    hide Common, PipeOk, PageOk, FinishTrainState, FinishMcf, Fits, RateOk, BestRate, Falls, GivesUp;
    if f.main.RecvTrainState? {
      TrainStateRates(f);
    } else if f.main.RecvMcf? {
      McfRates(f, prep);
    } else {
      IdleSteady(f, prep);
    }
  }

  lemma ModemLeaves(f: Fax)
    requires Inv(f) && Transferring(f.main)
    ensures f.mod == Connected && Left(f.(mod := ModIdle))
  {
    hide Common, HasBit, DcsFor, Flat, Zeros;
    RateOkFrame(f, f.(mod := ModIdle));
  }

  lemma NotTransferring(f: Fax, prep: Prep)
    requires Inv(f) && !Transferring(f.main)
    ensures Still(f, Disconnects(f, prep))
  {
    hide RateOk, PipeOk, PageOk, Run;
  }

  /** Of all steps but the end of a DIS exchange exactly the failures try the next rate and retrain, or
      find that there is none left. */
  lemma StepRates(f: Fax, i: Input)
    requires Inv(f) && Allowed(f, i) && !NewDis(f, i)
    ensures var g := Step(f, i);
            if RetrainsForPage(f, i) then SameRates(f, g) && Retrains(f, g)
            else if Fails(f, i) then Falls(f, g) || GivesUp(f, g)
            else Steady(f, g)
  {
    hide Inv, Connects, Confirms, Prepare, MainStep, StartCall, SetNewModulation, Fits, Falls, GivesUp, Left;
    match i
    case NoCarrier(prep) =>
      if Transferring(f.main) {
        ModemLeaves(f);
        IdleRates(f.(mod := ModIdle), prep);
        RatesOf(f, MainStep(f.(mod := ModIdle), ModemIdle, Arg([], prep)));
      } else {
        NotTransferring(f, prep);
      }
    case Connect => ConnectSteady(f);
    case Confirmed(prep) => ConfirmSteady(f, prep);
    case DataB3(prep) => PrepareSteady(f, prep);
    case _ => OtherSteady(f, i);
  }

  /** The modem state has no part in it. */
  lemma RatesOf(f: Fax, g: Fax)
    ensures Steady(f.(mod := ModIdle), g) <==> Steady(f, g)
    ensures Falls(f.(mod := ModIdle), g) ==> Falls(f, g)
    ensures GivesUp(f.(mod := ModIdle), g) ==> GivesUp(f, g)
  {
    hide BestRate, Common;
    if f.rateIdx >= 0 {
      BestFrameAt(f, f.(mod := ModIdle), f.rateIdx - 1);
    }
    CommonFrame(f, f.(mod := ModIdle), MAX_RATE_IDX);
  }

  // ----- whole sessions ---------------------------------------------------------------------

  /** A run in which no further DIS exchange ends. */
  ghost predicate OneDis(f: Fax, run: seq<Input>)
    decreases |run|
  {
    run == [] || (!NewDis(f, run[0]) && OneDis(Step(f, run[0]), run[1..]))
  }

  /** How often the run retrains. */
  ghost function Retrainings(f: Fax, run: seq<Input>): nat
    decreases |run|
  {
    if run == [] then 0
    else
      var g := Step(f, run[0]);
      (if Retrains(f, g) then 1 else 0) + Retrainings(g, run[1..])
  }

  /** How often the run retrains for the next page at the peer's request. */
  ghost function PageRetrainings(f: Fax, run: seq<Input>): nat
    decreases |run|
  {
    if run == [] then 0
    else (if RetrainsForPage(f, run[0]) then 1 else 0) + PageRetrainings(Step(f, run[0]), run[1..])
  }

  /** What one step does to the count. */
  lemma StepPays(f: Fax, i: Input)
    requires Inv(f) && Allowed(f, i) && !NewDis(f, i)
    ensures var g := Step(f, i);
            && g.ownRates == f.ownRates && g.peerRates == f.peerRates
            && g.rateIdx <= f.rateIdx && f.tried <= g.tried
            && (if Retrains(f, g) then 1 else 0)
               == (if RetrainsForPage(f, i) then 1 else 0) + |g.tried| - |f.tried|
  {
    hide Step, Inv, Allowed, BestRate, Common;
    StepRates(f, i);
  }

  /** From one DIS exchange on: the rate never rises, rates tried stay tried, and the retrainings
      are exactly the rates tried since and the pages answered with RTP. */
  lemma {:induction false} RateNeverRises(f: Fax, run: seq<Input>, g: Fax)
    requires Inv(f) && Reaches(f, run, g) && OneDis(f, run)
    ensures g.ownRates == f.ownRates && g.peerRates == f.peerRates
    ensures g.rateIdx <= f.rateIdx && f.tried <= g.tried
    ensures Retrainings(f, run) == |g.tried| - |f.tried| + PageRetrainings(f, run)
    decreases |run|
  {
    hide Step, Inv, Allowed, Retrains, RetrainsForPage, NewDis;
    if run != [] {
      var h := Step(f, run[0]);
      StepPays(f, run[0]);
      StepKeeps(f, run[0]);
      RateNeverRises(h, run[1..], g);
    }
  }

  lemma TriedAtMost(g: Fax)
    requires Inv(g)
    ensures |g.tried| <= 8
  {
    hide Common, ModemOk, PipeOk, PageOk;
    CommonIsDescending(g, MAX_RATE_IDX);
    assert |g.tried + Common(g, g.rateIdx - 1)| >= |g.tried|;
  }
}
