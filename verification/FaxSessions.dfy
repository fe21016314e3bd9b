/**
 A session as a whole: once a rate has been negotiated the call never goes back to the DIS exchange,
 so the retrainings of a session are bounded.
 */
module FaxSessions {
  import opened Basics
  import opened FaxSpec
  import opened FaxInvariant
  import opened FaxRuns
  import opened FaxTheorems
  import opened FaxRates

  /** A rate has been negotiated, or the call is about to be given up after one was. */
  predicate InCall(s: MainState) {
    Negotiated(s) || s.WaitSendDcn?
  }

  /** No rate has been negotiated yet. */
  predicate BeforeCall(s: MainState) {
    s.Idle? || s.WaitRecvDis? || s.RecvDis?
  }

  predicate SamePhase(s: MainState, t: MainState) {
    (InCall(s) ==> InCall(t)) && (BeforeCall(s) ==> BeforeCall(t))
  }

  // ----- where each event leads -------------------------------------------------------------

  lemma SendKeepsState(f: Fax, frame: Frame)
    ensures SendDown(f, frame).main == f.main && SendDown(f, frame).mod == f.mod
  {
  }

  /** Where a waiting call goes when the modem comes up. */
  function Started(s: MainState): MainState {
    match s
    case WaitRecvDis => RecvDis case WaitSendDcs => SendDcs case WaitSendTrain => SendTrain
    case WaitTrainState => RecvTrainState case WaitSendPage => SendPage case WaitSendEop => SendEop
    case WaitRecvMcf => RecvMcf case _ => s
  }

  predicate Starts(f: Fax, g: Fax) {
    g.main == Started(f.main) && g.mod == f.mod
  }

  lemma DcsStarts(f: Fax)
    requires f.main.WaitSendDcs?
    ensures Starts(f, DoDcs(f))
  {
    hide SendDown, Char20;
    var g := f.(main := SendDcs);
    var t := [0xff, 0x03, 0x43] + Char20(g.stationId);
    var h := if g.sentTis then g else SendDown(g.(sentTis := true), t);
    SendKeepsState(g.(sentTis := true), t);
    SendKeepsState(h, [0xff, 0x13, 0x83] + h.dcs);
  }

  lemma TrainStarts(f: Fax)
    requires f.main.WaitSendTrain?
    ensures Starts(f, DoTrain(f))
  {
    hide SendDown, Zeros, TrainLength;
    SendKeepsState(f.(main := SendTrain, dataLast := true), Zeros(TrainLength(f.rateIdx)));
  }

  lemma PageStarts(f: Fax)
    requires f.main.WaitSendPage?
    ensures Starts(f, ReadySendPage(f))
  {
    hide SendDown, Zeros;
    SendKeepsState(f.(main := SendPage, dataReady := true, mark := |f.sent| + |f.downq|), Zeros(f.preamble));
  }

  lemma EopStarts(f: Fax)
    requires f.main.WaitSendEop?
    ensures Starts(f, SendEndOfPage(f))
  {
    hide SendDown;
    SendKeepsState(f.(main := SendEop), [0xff, 0x13, if f.lastPage then 0x2f else 0x4f] + []);
  }

  lemma DcnStarts(f: Fax)
    requires f.main.WaitSendDcn?
    ensures Starts(f, SendHdlc(f, 0x13, 0xfb, []))
  {
    hide SendDown;
    SendKeepsState(f, [0xff, 0x13, 0xfb] + []);
  }

  lemma RecvStarts(f: Fax)
    ensures Starts(f, f.(main := Started(f.main)))
  {
  }

  lemma ActivMain(f: Fax)
    requires Waiting(f.main)
    ensures Starts(f, MainStep(f, ModemActiv, Arg([], NoPrep())))
  {
    hide DoDcs, DoTrain, ReadySendPage, SendEndOfPage, SendHdlc, Starts;
    match f.main
    case WaitSendDcs => DcsStarts(f);
    case WaitSendTrain => TrainStarts(f);
    case WaitSendPage => PageStarts(f);
    case WaitSendEop => EopStarts(f);
    case WaitSendDcn => DcnStarts(f);
    case WaitRecvDis => RecvStarts(f);
    case WaitTrainState => RecvStarts(f);
    case WaitRecvMcf => RecvStarts(f);
  }

  lemma ConnectMain(f: Fax)
    requires f.mod == WaitConnect && Waiting(f.main)
    ensures Connects(f).main == Started(f.main) && Connects(f).mod == Connected
  {
    hide MainStep;
    ActivMain(f.(mod := Connected, currentMod := f.pendingMod, pendingMod := -1,
                 currentRate := f.pendingRate, pendingRate := -1));
  }

  lemma ConnectPhase(f: Fax)
    ensures SamePhase(f.main, Connects(f).main)
  {
    hide Run;
    if f.mod == WaitConnect && Waiting(f.main) {
      ConnectMain(f);
    }
  }

  lemma RequestKeepsState(f: Fax, mode: int, rate: int)
    ensures var g := RequestModulation(f, mode, rate);
            g.main == f.main && (f.mod == ModIdle && mode >= 0 && rate >= 0 ==> g.mod == WaitConnect)
  {
  }

  lemma TrainStateEnds(f: Fax)
    ensures InCall(FinishTrainState(f).main)
  {
    hide FallbackRate, HasBit;
  }

  lemma RtnEnds(f: Fax)
    ensures InCall(AfterRtn(f).main)
  {
    hide FallbackRate, HasBit;
  }

  lemma McfEnds(f: Fax, prep: Prep)
    ensures InCall(FinishMcf(f, prep).main)
  {
    hide AfterRtn, Prepare, InitNewPage, RequestModulation, FillDcs;
    RtnEnds(f);
    RequestKeepsState(AfterRtn(f), FTH, HDLC_RATE);
    RequestKeepsState(AfterRtp(f, prep), FTH, HDLC_RATE);
    RequestKeepsState(f.(main := WaitSendDcn), FTH, HDLC_RATE);
  }

  /** Where a sending call goes when the modem goes idle. */
  function Finished(s: MainState): MainState {
    match s
    case SendDcs => WaitSendTrain case SendTrain => WaitTrainState case SendPage => WaitSendEop
    case SendEop => WaitRecvMcf case _ => s
  }

  predicate Finishes(f: Fax, g: Fax) {
    g.main == Finished(f.main) && (f.mod == ModIdle ==> g.mod == if f.main.SendDcs? then ModIdle else WaitConnect)
  }

  lemma RequestFinishes(f: Fax, s: MainState, mode: nat)
    requires s == Finished(f.main) && !f.main.SendDcs?
    ensures Finishes(f, RequestModulation(f.(main := s), mode, HDLC_RATE))
  {
    hide RequestModulation;
    RequestKeepsState(f.(main := s), mode, HDLC_RATE);
  }

  lemma PageFinishes(f: Fax)
    requires f.main.SendPage?
    ensures Finishes(f, FinishPage(f))
  {
    hide RequestModulation;
    RequestKeepsState(f.(dataReady := false, main := WaitSendEop), FTH, HDLC_RATE);
  }

  lemma DcsFinishes(f: Fax)
    requires f.main.SendDcs?
    ensures Finishes(f, f.(main := WaitSendTrain))
  {
  }

  lemma IdleMain(f: Fax, prep: Prep)
    requires f.main.SendDcs? || f.main.SendTrain? || f.main.SendPage? || f.main.SendEop?
    ensures Finishes(f, MainStep(f, ModemIdle, Arg([], prep)))
  {
    hide RequestModulation, FinishPage, Finishes;
    match f.main
    case SendDcs => DcsFinishes(f);
    case SendTrain => RequestFinishes(f, WaitTrainState, FRH);
    case SendEop => RequestFinishes(f, WaitRecvMcf, FRH);
    case SendPage => PageFinishes(f);
  }

  lemma IdlePhase(f: Fax, prep: Prep)
    requires !f.main.RecvDis? && !f.main.SendDcn?
    ensures SamePhase(f.main, MainStep(f, ModemIdle, Arg([], prep)).main)
  {
    hide FinishTrainState, FinishMcf, Run;
    if f.main.RecvTrainState? {
      TrainStateIdle(f, prep);
    } else if f.main.RecvMcf? {
      McfIdle(f, prep);
    } else if f.main.SendDcs? || f.main.SendTrain? || f.main.SendPage? || f.main.SendEop? {
      IdleMain(f, prep);
    }
  }

  lemma TrainStateIdle(f: Fax, prep: Prep)
    requires f.main.RecvTrainState?
    ensures InCall(MainStep(f, ModemIdle, Arg([], prep)).main)
  {
    hide FinishTrainState;
    TrainStateEnds(f);
  }

  lemma McfIdle(f: Fax, prep: Prep)
    requires f.main.RecvMcf?
    ensures InCall(MainStep(f, ModemIdle, Arg([], prep)).main)
  {
    hide FinishMcf;
    McfEnds(f, prep);
  }

  lemma DelayPhase(f: Fax)
    requires Inv(f)
    ensures SamePhase(f.main, Step(f, Delay).main)
  {
    hide RequestModulation, HasBit, Common, ModemOk, PipeOk, PageOk;
    if f.main.WaitSendTrain? {
      RequestKeepsState(f, FTM, TRAIN_RATES[f.rateIdx]);
    } else if f.main.WaitSendPage? {
      RequestKeepsState(f, FTM, PAGE_RATES[f.rateIdx]);
    }
  }

  lemma StartPhase(f: Fax)
    requires f.main.Idle?
    ensures SamePhase(f.main, Step(f, ConnectB3).main)
  {
    hide RequestModulation;
    RequestKeepsState(f, FRH, HDLC_RATE);
  }

  lemma PreparePhase(f: Fax, prep: Prep)
    requires Inv(f) && Fits(prep)
    ensures Prepare(f, prep).main == f.main
  {
    hide RateOk, ModemOk, Fits, Prepare;
    InvParts(f);
    PreparePageKeeps(f, prep);
  }

  lemma ConfirmPhase(f: Fax, prep: Prep)
    requires Inv(f) && Fits(prep)
    ensures Confirms(f, prep).main == f.main
  {
    hide PipeOk, PageOk, RateOk, ModemOk, Fits, SendNextPageData, Confirms;
    ConfirmsIs(f, prep);
    if !OnlyQueues(f, Confirms(f, prep)) {
      ConfirmedPipe(f);
      SendNextKeeps(f.(confirmed := f.confirmed + 1, dataBusy := false), prep);
    }
  }

  lemma NotSendingDcn(f: Fax)
    requires Inv(f)
    ensures !f.main.SendDcn?
  {
    hide RateOk, PipeOk, PageOk;
  }

  /** Only the end of a DIS exchange leads into a call, and nothing leads out of it. */
  lemma StepPhase(f: Fax, i: Input)
    requires Inv(f) && Allowed(f, i) && !NewDis(f, i)
    ensures SamePhase(f.main, Step(f, i).main)
  {
    hide Inv, Connects, Confirms, Prepare, MainStep, StartCall, SetNewModulation, Fits;
    match i
    case Ready => NewModulationSteady(f, ModReady);
    case Connect => ConnectPhase(f);
    case NoCarrier(prep) =>
      NotSendingDcn(f);
      IdlePhase(f.(mod := ModIdle), prep);
    case Received(frame) => ReceivedIs(f, frame);
    case Confirmed(prep) => ConfirmPhase(f, prep);
    case Delay => DelayPhase(f);
    case ConnectB3 => StartPhase(f);
    case DataB3(prep) => PreparePhase(f, prep);
  }

  // ----- whole sessions ---------------------------------------------------------------------

  /** A call that has negotiated a rate never ends another DIS exchange. */
  lemma {:induction false} CallHasOneDis(f: Fax, run: seq<Input>, g: Fax)
    requires Inv(f) && Reaches(f, run, g) && InCall(f.main)
    ensures OneDis(f, run) && InCall(g.main)
    decreases |run|
  {
    hide Inv, Step, Allowed, InCall;
    if run != [] {
      assert !NewDis(f, run[0]) by { NotReceivingDis(f, run[0]); }
      StepPhase(f, run[0]);
      StepKeeps(f, run[0]);
      CallHasOneDis(Step(f, run[0]), run[1..], g);
    }
  }

  lemma NotReceivingDis(f: Fax, i: Input)
    requires InCall(f.main)
    ensures !NewDis(f, i)
  {
  }

  /** The end of a DIS exchange: one rate has been tried and the first training begins, or the call is
      refused. */
  lemma FinishDisTries(f: Fax)
    ensures var g := FinishDis(f); if g.main.WaitSendDcs? then |g.tried| == 1 else g.main.Idle?
  {
    hide RequestModulation, BestRate, DcsFor, PeerRatesOf;
    RequestIs(FillDcs(Rated(f)).(main := WaitSendDcs), FTH, HDLC_RATE);
  }

  lemma DisEnds(f: Fax, prep: Prep)
    requires Inv(f) && f.main.RecvDis?
    ensures var g := Step(f, NoCarrier(prep));
            if g.main.WaitSendDcs? then |g.tried| == 1 else g.main.Idle?
  {
    hide RateOk, PipeOk, PageOk, FinishDis;
    assert Step(f, NoCarrier(prep)) == FinishDis(f.(mod := ModIdle));
    FinishDisTries(f.(mod := ModIdle));
  }

  /** A session that starts before a call trains at most eight times, apart from the pages the peer
      answers with RTP. */
  lemma {:induction false} TrainingsBounded(f: Fax, run: seq<Input>, g: Fax)
    requires Inv(f) && BeforeCall(f.main) && Reaches(f, run, g)
    ensures Retrainings(f, run) <= 8 + PageRetrainings(f, run)
    decreases |run|
  {
    hide Inv, Step, Allowed;
    if run != [] {
      var i := run[0];
      var h := Step(f, i);
      StepKeeps(f, i);
      if NewDis(f, i) {
        DisEnds(f, i.prep);
        if h.main.WaitSendDcs? {
          InCallTrainings(h, run[1..], g);
        } else {
          TrainingsBounded(h, run[1..], g);
        }
      } else {
        StepPhase(f, i);
        TrainingsBounded(h, run[1..], g);
      }
    }
  }

  lemma InCallTrainings(h: Fax, run: seq<Input>, g: Fax)
    requires Inv(h) && InCall(h.main) && Reaches(h, run, g) && |h.tried| >= 1
    ensures Retrainings(h, run) <= 7 + PageRetrainings(h, run)
  {
    hide Inv, Reaches, OneDis, Retrainings, PageRetrainings;
    CallHasOneDis(h, run, g);
    RateNeverRises(h, run, g);
    RunKeeps(h, run, g);
    TriedAtMost(g);
  }

  /** Every run of a new session, first training included. */
  lemma RetrainingsBounded(f: Fax, run: seq<Input>, g: Fax)
    requires Initial(f) && Reaches(f, run, g)
    ensures Retrainings(f, run) <= 8 + PageRetrainings(f, run)
  {
    hide Reaches, Retrainings, PageRetrainings, Inv;
    InitialInv(f);
    TrainingsBounded(f, run, g);
  }

  // ----- which peers are refused ------------------------------------------------------------

  /** With the rates the code claims for itself a peer is refused exactly when it names none: the
      best common rate is then never the lowest one. */
  lemma RefusedIff(f: Fax)
    requires f.ownRates == 0xff
    ensures FinishDis(f).main.Idle? <==> PeerRatesOf(f.dis) == 0
    ensures FinishDis(f).rateIdx in {-1, 1, 4, 7}
  {
    hide RequestModulation, DcsFor;
    var g := f.(peerRates := PeerRatesOf(f.dis));
    BestOfMask(g);
    var k := Rated(f);
    RequestIs(FillDcs(k).(main := WaitSendDcs), FTH, HDLC_RATE);
  }

  lemma Bits(mask: nat, i: nat)
    requires i <= 7 && mask in {0, 0x03, 0x17, 0xff}
    ensures HasBit(mask, i) <==> mask == 0xff || (mask == 0x17 && i in {0, 1, 2, 4}) || (mask == 0x03 && i in {0, 1})
  {
    assert Pow2(0) == 1 && Pow2(1) == 2 && Pow2(2) == 4 && Pow2(3) == 8;
    assert Pow2(4) == 16 && Pow2(5) == 32 && Pow2(6) == 64 && Pow2(7) == 128;
  }

  lemma BestOfMask(g: Fax)
    requires g.ownRates == 0xff && g.peerRates in {0, 0x03, 0x17, 0xff}
    ensures BestRate(g, MAX_RATE_IDX) ==
            (if g.peerRates == 0xff then 7 else if g.peerRates == 0x17 then 4 else if g.peerRates == 0x03 then 1 else -1)
  {
    hide HasBit;
    forall i: nat | i <= 7
      ensures ValidRate(g, i) <==> HasBit(g.peerRates, i)
    {
      Bits(0xff, i);
    }
    forall i: nat | i <= 7
      ensures HasBit(g.peerRates, i) <==>
              g.peerRates == 0xff || (g.peerRates == 0x17 && i in {0, 1, 2, 4}) || (g.peerRates == 0x03 && i in {0, 1})
    {
      Bits(g.peerRates, i);
    }
  }
}
