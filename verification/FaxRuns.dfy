/**
 Every run of a fax session keeps the invariant; what follows for the page bytes and the rates.
 */
module FaxRuns {
  import opened FaxSpec
  import opened FaxInvariant

  // ----- the modem comes up -----------------------------------------------------------------

  /** The modem has just connected in the mode the call is waiting for. */
  predicate Arrived(f: Fax) {
    && RateOk(f) && PipeOk(f) && PageOk(f)
    && Waiting(f.main)
    && f.mod == Connected
    && f.currentMod == ModeFor(f.main) && f.currentRate == RateFor(f.main, f.rateIdx)
    && f.pendingMod == -1 && f.pendingRate == -1
  }

  /** Sending outside a page disturbs nothing but the pipe. */
  lemma SendKeeps(f: Fax, frame: Frame)
    requires PipeOk(f) && !f.main.SendPage?
    ensures PipeOk(SendDown(f, frame)) && OnlyPipe(f, SendDown(f, frame))
  {
    SendDownKeeps(f, frame);
  }

  lemma {:induction false} CommonFrame(f: Fax, g: Fax, i: int)
    requires g.ownRates == f.ownRates && g.peerRates == f.peerRates
    ensures Common(g, i) == Common(f, i)
    decreases if i < 0 then 0 else i + 1
  {
    if i >= 0 {
      CommonFrame(f, g, i - 1);
    }
  }

  /** Nothing the rate bookkeeping looks at has changed, except the state. */
  lemma RateOkFrame(f: Fax, g: Fax)
    requires RateOk(f) && g.ownRates == f.ownRates && g.peerRates == f.peerRates
    requires g.rateIdx == f.rateIdx && g.tried == f.tried
    requires Negotiated(g.main) ==> Negotiated(f.main) || ValidRate(f, f.rateIdx)
    requires g.main.WaitSendDcs? ==> g.dcs == DcsFor(g.rateIdx)
    ensures RateOk(g)
  {
    CommonFrame(f, g, f.rateIdx - 1);
    CommonFrame(f, g, MAX_RATE_IDX);
  }

  /** From waiting to transferring in the mode that has been reached. */
  lemma TransferKeeps(f: Fax, g: Fax)
    requires Arrived(f) && PipeOk(g)
    requires g == f.(main := g.main, sentTis := g.sentTis, dataLast := g.dataLast, dataReady := g.dataReady,
                     mark := g.mark, downq := g.downq, sent := g.sent, dataBusy := g.dataBusy)
    requires Transferring(g.main) || g.main.WaitSendDcn?
    requires ModeFor(g.main) == ModeFor(f.main) && RateFor(g.main, f.rateIdx) == RateFor(f.main, f.rateIdx)
    requires Negotiated(g.main) ==> Negotiated(f.main)
    requires BeforePage(g.main) ==> BeforePage(f.main)
    ensures Inv(g)
  {
    hide Common, Flat, DcsFor, RateFor;
    RateOkFrame(f, g);
  }

  lemma DoDcsSends(f: Fax)
    requires Arrived(f) && f.main.WaitSendDcs?
    ensures var g := DoDcs(f);
            PipeOk(g) && g == f.(main := SendDcs, sentTis := true, downq := g.downq, sent := g.sent, dataBusy := g.dataBusy)
  {
    hide Common, Flat, RateOk, PageOk, Char20;
    var g := f.(main := SendDcs);
    assert PipeOk(g);
    var h := if g.sentTis then g else SendHdlc(g.(sentTis := true), 0x03, 0x43, Char20(g.stationId));
    if !g.sentTis {
      SendKeeps(g.(sentTis := true), [0xff, 0x03, 0x43] + Char20(g.stationId));
    }
    SendKeeps(h, [0xff, 0x13, 0x83] + h.dcs);
  }

  lemma DoDcsKeeps(f: Fax)
    requires Arrived(f) && f.main.WaitSendDcs?
    ensures Inv(DoDcs(f))
  {
    hide DoDcs, Inv, PipeOk;
    DoDcsSends(f);
    TransferKeeps(f, DoDcs(f));
  }

  lemma DoTrainKeeps(f: Fax)
    requires Arrived(f) && f.main.WaitSendTrain?
    ensures Inv(DoTrain(f))
  {
    hide Inv, RateOk, PageOk, Zeros;
    var g := f.(main := SendTrain, dataLast := true);
    SendKeeps(g, Zeros(TrainLength(f.rateIdx)));
    TransferKeeps(f, DoTrain(f));
  }

  lemma ReadySendPageKeeps(f: Fax)
    requires Arrived(f) && f.main.WaitSendPage?
    ensures Inv(ReadySendPage(f))
  {
    hide Inv, RateOk, Zeros;
    var g := f.(main := SendPage, dataReady := true, mark := |f.sent| + |f.downq|);
    SendDownKeeps(g, Zeros(f.preamble));
    var h := ReadySendPage(f);
    assert (h.sent + h.downq)[h.mark..] == [Zeros(f.preamble)];
    assert [Zeros(f.preamble)] + h.handed == [Zeros(f.preamble)];
    TransferKeeps(f, h);
  }

  lemma SendEndOfPageKeeps(f: Fax)
    requires Arrived(f) && f.main.WaitSendEop?
    ensures Inv(SendEndOfPage(f))
  {
    hide Inv, RateOk, PageOk;
    SendKeeps(f.(main := SendEop), [0xff, 0x13, if f.lastPage then 0x2f else 0x4f] + []);
    TransferKeeps(f, SendEndOfPage(f));
  }

  lemma SendDcnKeeps(f: Fax)
    requires Arrived(f) && f.main.WaitSendDcn?
    ensures Inv(SendHdlc(f, 0x13, 0xfb, []))
  {
    hide Inv, RateOk, PageOk;
    SendKeeps(f, [0xff, 0x13, 0xfb] + []);
    TransferKeeps(f, SendHdlc(f, 0x13, 0xfb, []));
  }

  lemma ActivRecvKeeps(f: Fax, s: MainState)
    requires Arrived(f)
    requires (f.main.WaitRecvDis? && s.RecvDis?) || (f.main.WaitTrainState? && s.RecvTrainState?)
             || (f.main.WaitRecvMcf? && s.RecvMcf?)
    ensures Inv(f.(main := s))
  {
    hide Inv, RateOk, PageOk;
    TransferKeeps(f, f.(main := s));
  }

  lemma ActivKeeps(f: Fax, arg: Arg)
    requires Arrived(f)
    ensures Inv(MainStep(f, ModemActiv, arg))
  {
    hide Inv, RateOk, PageOk, PipeOk, DoDcs, DoTrain, ReadySendPage, SendEndOfPage, SendHdlc;
    match f.main
    case WaitSendDcs => DoDcsKeeps(f);
    case WaitSendTrain => DoTrainKeeps(f);
    case WaitSendPage => ReadySendPageKeeps(f);
    case WaitSendEop => SendEndOfPageKeeps(f);
    case WaitSendDcn => SendDcnKeeps(f);
    case WaitRecvDis => ActivRecvKeeps(f, RecvDis);
    case WaitTrainState => ActivRecvKeeps(f, RecvTrainState);
    case WaitRecvMcf => ActivRecvKeeps(f, RecvMcf);
  }

  lemma ConnectsKeeps(f: Fax)
    requires Inv(f)
    ensures Inv(Connects(f))
  {
    if f.mod == WaitConnect {
      var g := f.(mod := Connected, currentMod := f.pendingMod, pendingMod := -1,
                  currentRate := f.pendingRate, pendingRate := -1);
      RateOkFrame(f, g);
      if Waiting(f.main) {
        ActivKeeps(g, Arg([], NoPrep()));
      }
    }
  }

  // ----- the modem goes idle ----------------------------------------------------------------

  /** The modem has just left the mode the call was using. */
  predicate Left(f: Fax) {
    && RateOk(f) && PipeOk(f) && PageOk(f)
    && Transferring(f.main)
    && f.mod == ModIdle
    && f.pendingMod == -1 && f.pendingRate == -1
  }

  /** The parts of the invariant a waiting call needs. */
  lemma WaitKeeps(g: Fax)
    requires RateOk(g) && PipeOk(g) && PageOk(g)
    requires Waiting(g.main)
    requires g.mod == ModIdle || g.mod == WaitConnect
    requires || (g.mod == ModIdle && g.pendingMod == -1 && g.pendingRate == -1)
             || (g.pendingMod == ModeFor(g.main) && g.pendingRate == RateFor(g.main, g.rateIdx))
    ensures Inv(g)
  {
    hide RateOk, PipeOk, PageOk;
  }

  /** Moving on to a waiting state without asking for a mode. */
  lemma MoveKeeps(f: Fax, s: MainState)
    requires RateOk(f) && PipeOk(f) && PageOk(f) && f.mod == ModIdle && f.pendingMod == -1 && f.pendingRate == -1
    requires Waiting(s) && !f.main.SendPage?
    requires Negotiated(s) ==> Negotiated(f.main) || ValidRate(f, f.rateIdx)
    requires BeforePage(s) ==> f.handed == []
    requires s.WaitSendDcs? ==> f.dcs == DcsFor(f.rateIdx)
    ensures Inv(f.(main := s))
  {
    hide Common, Flat, DcsFor, Zeros, RateFor, Inv;
    var g := f.(main := s);
    RateOkFrame(f, g);
    WaitKeeps(g);
  }

  /** An idle modem takes up a request at once. */
  lemma AskIs(f: Fax, mode: int)
    requires f.mod == ModIdle && mode >= 0
    ensures RequestModulation(f, mode, HDLC_RATE) == f.(mod := WaitConnect, pendingMod := mode, pendingRate := HDLC_RATE)
  {
  }

  /** Moving on to a waiting state and asking for its mode. */
  lemma AskKeeps(f: Fax, s: MainState)
    requires RateOk(f) && PipeOk(f) && PageOk(f) && f.mod == ModIdle && f.pendingMod == -1 && f.pendingRate == -1
    requires Waiting(s) && !f.main.SendPage? && ModeFor(s) != FTM
    requires Negotiated(s) ==> Negotiated(f.main) || ValidRate(f, f.rateIdx)
    requires BeforePage(s) ==> f.handed == []
    requires s.WaitSendDcs? ==> f.dcs == DcsFor(f.rateIdx)
    ensures var mode := ModeFor(s);
            var g := f.(main := s);
            && RequestModulation(g, mode, HDLC_RATE) == g.(mod := WaitConnect, pendingMod := mode, pendingRate := HDLC_RATE)
            && Inv(RequestModulation(g, mode, HDLC_RATE))
  {
    hide Common, Flat, DcsFor, Zeros, Inv, RateFor, RequestModulation;
    AskIs(f.(main := s), ModeFor(s));
    var g := f.(main := s, mod := WaitConnect, pendingMod := ModeFor(s), pendingRate := HDLC_RATE);
    RateOkFrame(f, g);
    HdlcRate(s, f.rateIdx);
    WaitKeeps(g);
  }

  /** The best common rate heads the list of common rates. */
  lemma {:induction false} BestHeads(f: Fax, i: int)
    requires -1 <= i
    ensures var r := BestRate(f, i);
            Common(f, i) == if r >= 0 then [r] + Common(f, r - 1) else []
    decreases i + 1
  {
    if i >= 0 && !ValidRate(f, i) {
      BestHeads(f, i - 1);
    }
  }

  lemma NoCommon(f: Fax, i: int)
    requires i < 0
    ensures Common(f, i) == []
  {
  }

  /** A fallback tries the next common rate, or finds that there is none. */
  lemma FallbackTries(f: Fax)
    requires f.tried + Common(f, f.rateIdx - 1) == Common(f, MAX_RATE_IDX)
    requires 0 <= f.rateIdx <= MAX_RATE_IDX
    ensures var g := FallbackRate(f);
            && -1 <= g.rateIdx < f.rateIdx
            && g.tried + Common(g, g.rateIdx - 1) == Common(g, MAX_RATE_IDX)
            && (g.rateIdx >= 0 <==> ValidRate(g, g.rateIdx))
            && (g.rateIdx >= 0 ==> g.tried == f.tried + [g.rateIdx])
            && (g.rateIdx == -1 ==> g.tried == f.tried == Common(f, MAX_RATE_IDX))
  {
    hide Common, HasBit;
    BestHeads(f, f.rateIdx - 1);
    var g := FallbackRate(f);
    var r := g.rateIdx;
    CommonFrame(f, g, r - 1);
    CommonFrame(f, g, MAX_RATE_IDX);
    NoCommon(f, -2);
    if r >= 0 {
      OneMore(f.tried, r, Common(f, r - 1));
    }
  }

  lemma OneMore(a: seq<int>, x: int, b: seq<int>)
    ensures a + ([x] + b) == a + [x] + b
  {
  }

  /** After a DIS the best common rate has been tried and nothing else. */
  lemma DisTries(f: Fax)
    requires f.rateIdx == BestRate(f, MAX_RATE_IDX)
    requires f.tried == if f.rateIdx >= 0 then [f.rateIdx] else []
    ensures f.tried + Common(f, f.rateIdx - 1) == Common(f, MAX_RATE_IDX)
  {
    BestHeads(f, MAX_RATE_IDX);
  }

  lemma RatedOk(f: Fax)
    requires Left(f) && f.main.RecvDis?
    ensures Left(Rated(f)) && Rated(f).main == f.main && (Rated(f).rateIdx >= 0 ==> ValidRate(Rated(f), Rated(f).rateIdx))
  {
    hide Common, HasBit, DcsFor, PeerRatesOf, Flat, Zeros;
    var k := Rated(f);
    BestFrame(f.(peerRates := PeerRatesOf(f.dis)), k);
    DisTries(k);
  }

  lemma FinishDisKeeps(f: Fax)
    requires Left(f) && f.main.RecvDis?
    ensures Inv(FinishDis(f))
  {
    hide Common, HasBit, DcsFor, Rated, RequestModulation, Flat, Zeros;
    RatedOk(f);
    var k := Rated(f);
    if k.rateIdx > 0 {
      RateOkFrame(k, FillDcs(k));
      AskKeeps(FillDcs(k), WaitSendDcs);
    } else {
      RateOkFrame(k, k.(main := Idle));
    }
  }

  lemma {:induction false} BestFrameAt(f: Fax, g: Fax, i: int)
    requires -1 <= i && g.ownRates == f.ownRates && g.peerRates == f.peerRates
    ensures BestRate(f, i) == BestRate(g, i)
    decreases i + 1
  {
    if i >= 0 {
      BestFrameAt(f, g, i - 1);
    }
  }

  lemma BestFrame(f: Fax, g: Fax)
    requires g.ownRates == f.ownRates && g.peerRates == f.peerRates
    ensures BestRate(f, MAX_RATE_IDX) == BestRate(g, MAX_RATE_IDX)
  {
    BestFrameAt(f, g, MAX_RATE_IDX);
  }

  /** After a fallback the rate bookkeeping is right again, wherever the call goes from there. */
  lemma FallbackKeeps(f: Fax)
    requires RateOk(f) && Negotiated(f.main)
    ensures var g := FallbackRate(f);
            && g == f.(rateIdx := g.rateIdx, tried := g.tried)
            && RateOk(FillDcs(g).(main := WaitSendDcn))
            && (ValidRate(g, g.rateIdx) <==> g.rateIdx >= 0)
  {
    hide Common, HasBit, DcsFor;
    FallbackTries(f);
    var g := FallbackRate(f);
    var h := FillDcs(g).(main := WaitSendDcn);
    CommonFrame(g, h, g.rateIdx - 1);
    CommonFrame(g, h, MAX_RATE_IDX);
  }

  lemma FinishTrainStateKeeps(f: Fax)
    requires Left(f) && f.main.RecvTrainState?
    ensures Inv(FinishTrainState(f))
  {
    hide Common, HasBit, DcsFor, FallbackRate, Flat, Zeros, Inv;
    if f.result == Ftt {
      var e := f.(pendingMod := FTH, pendingRate := HDLC_RATE);
      RateOkFrame(f, e);
      FallbackKeeps(e);
      var g := FallbackRate(e);
      var d := FillDcs(g).(main := WaitSendDcn);
      if ValidRate(g, g.rateIdx) {
        var w := FillDcs(g).(main := WaitSendDcs);
        RateOkFrame(d, w);
        WaitKeeps(w);
      } else {
        var w := g.(main := WaitSendDcn);
        RateOkFrame(d, w);
        WaitKeeps(w);
      }
    } else {
      MoveKeeps(f, WaitSendPage);
    }
  }

  lemma FinishPageKeeps(f: Fax)
    requires Left(f) && f.main.SendPage?
    ensures Inv(FinishPage(f))
  {
    hide Common, HasBit, DcsFor, Flat, Zeros, Inv, RequestModulation;
    var g := f.(dataReady := false, main := WaitRecvMcf);
    RateOkFrame(f, g);
    AskKeeps(g, WaitSendEop);
    assert g.(main := WaitSendEop) == f.(dataReady := false, main := WaitSendEop);
  }

  /** A new page starts with what is left in the buffer and what the parser yields. */
  lemma NewPageKeeps(f: Fax, prep: Prep)
    requires Left(f) && f.main.RecvMcf? && Fits(prep)
    ensures var g := Prepare(InitNewPage(f), prep);
            && Left(g) && g.handed == [] && g.main == f.main && g.dcs == f.dcs && g.rateIdx == f.rateIdx
  {
    hide Common, HasBit, DcsFor, Flat, Zeros, Prepare, Fits;
    InitKeeps(f);
    var h := InitNewPage(f);
    PrepareKeeps(h, prep);
    RateOkFrame(f, Prepare(h, prep));
  }

  /** The page is queued again at the next lower rate, if there is one. */
  lemma RtnFallsBack(h: Fax)
    requires Left(h) && h.main.RecvMcf?
    ensures var k := FallbackRate(h);
            var w := if ValidRate(k, k.rateIdx) then CopyForRetry(FillDcs(k)).(main := WaitSendDcs)
                     else k.(main := WaitSendDcn);
            Inv(RequestModulation(w, FTH, HDLC_RATE))
  {
    hide Common, HasBit, DcsFor, FallbackRate, Flat, Zeros, Inv, RequestModulation, BestRate;
    FallbackKeeps(h);
    var k := FallbackRate(h);
    var d := FillDcs(k).(main := WaitSendDcn);
    if ValidRate(k, k.rateIdx) {
      RtnQueues(d);
    } else {
      var w := k.(main := WaitSendDcn);
      RateOkFrame(d, w);
      AskKeeps(w, WaitSendDcn);
    }
  }

  /** Five failed attempts end the call. */
  lemma RtnKeeps(f: Fax)
    requires Left(f) && f.main.RecvMcf? && f.result == Rtn
    ensures Inv(FinishMcf(f, NoPrep()))
  {
    hide Common, HasBit, DcsFor, FallbackRate, Flat, Zeros, Inv, RequestModulation, CopyForRetry, FillDcs, ValidRate;
    var h := f.(pageRetry := f.pageRetry + 1);
    RateOkFrame(f, h);
    if h.pageRetry >= 5 {
      AskKeeps(h, WaitSendDcn);
    } else {
      RtnFallsBack(h);
    }
  }

  lemma RtnQueues(d: Fax)
    requires RateOk(d) && PipeOk(d) && PageOk(d) && d.mod == ModIdle && d.pendingMod == -1 && d.pendingRate == -1
    requires d.main.WaitSendDcn? && ValidRate(d, d.rateIdx) && d.dcs == DcsFor(d.rateIdx)
    ensures Inv(RequestModulation(CopyForRetry(d).(main := WaitSendDcs), FTH, HDLC_RATE))
  {
    hide Common, HasBit, DcsFor, Flat, Zeros, Inv, RequestModulation;
    RetryKeeps(d);
    var w := CopyForRetry(d);
    RateOkFrame(d, w);
    AskKeeps(w, WaitSendDcs);
  }

  lemma RtpKeeps(f: Fax, prep: Prep)
    requires Left(f) && f.main.RecvMcf? && !f.lastPage && Fits(prep)
    ensures Inv(RequestModulation(FillDcs(Prepare(InitNewPage(f), prep)).(main := WaitSendDcs), FTH, HDLC_RATE))
  {
    hide Common, HasBit, DcsFor, Flat, Zeros, Inv, RequestModulation, Prepare, InitNewPage, Fits;
    NewPageKeeps(f, prep);
    var g := Prepare(InitNewPage(f), prep);
    var d := FillDcs(g);
    RateOkFrame(g, d);
    AskKeeps(d, WaitSendDcs);
  }

  lemma FinishMcfKeeps(f: Fax, prep: Prep)
    requires Left(f) && f.main.RecvMcf? && Fits(prep)
    ensures Inv(FinishMcf(f, prep))
  {
    hide Inv, RequestModulation, Prepare, InitNewPage, FallbackRate, FillDcs, PipeOk, PageOk, RateOk, ValidRate, CopyForRetry, Fits;
    if f.result == Mcf && !f.lastPage {
      NewPageKeeps(f, prep);
      MoveKeeps(Prepare(InitNewPage(f), prep), WaitSendPage);
    } else if f.result == Rtn {
      RtnKeeps(f);
    } else if f.result == Rtp && !f.lastPage {
      RtpKeeps(f, prep);
    } else {
      AskKeeps(f, WaitSendDcn);
    }
  }

  lemma DcsGoneKeeps(f: Fax)
    requires Left(f) && f.main.SendDcs?
    ensures Inv(f.(main := WaitSendTrain))
  {
    hide Inv, RateOk, PipeOk;
    MoveKeeps(f, WaitSendTrain);
  }

  lemma AnswerDueKeeps(f: Fax, s: MainState)
    requires Left(f) && ((f.main.SendTrain? && s.WaitTrainState?) || (f.main.SendEop? && s.WaitRecvMcf?))
    ensures Inv(RequestModulation(f.(main := s), FRH, HDLC_RATE))
  {
    hide Inv, RateOk, PipeOk, RequestModulation;
    AskKeeps(f, s);
  }

  lemma IdleKeeps(f: Fax, arg: Arg)
    requires Left(f) && Fits(arg.prep)
    ensures Inv(MainStep(f, ModemIdle, arg))
  {
    hide Inv, RequestModulation, FinishDis, FinishTrainState, FinishPage, FinishMcf, RateOk, PipeOk, PageOk, Fits;
    match f.main
    case RecvDis => FinishDisKeeps(f);
    case SendDcs => DcsGoneKeeps(f);
    case SendTrain => AnswerDueKeeps(f, WaitTrainState);
    case RecvTrainState => FinishTrainStateKeeps(f);
    case SendPage => FinishPageKeeps(f);
    case SendEop => AnswerDueKeeps(f, WaitRecvMcf);
    case RecvMcf => FinishMcfKeeps(f, arg.prep);
  }

  lemma DisconnectsKeeps(f: Fax, prep: Prep)
    requires Inv(f) && Fits(prep)
    ensures Inv(Disconnects(f, prep))
  {
    hide Common, HasBit, DcsFor, Flat, Zeros, Run, Fits;
    if f.mod == Connected || f.mod == WaitDisconnect {
      var g := f.(mod := ModIdle);
      RateOkFrame(f, g);
      if Transferring(f.main) {
        IdleKeeps(g, Arg([], prep));
      }
    }
  }

  // ----- the modem confirms a frame ---------------------------------------------------------

  lemma ConfirmMovesDown(f: Fax)
    requires Inv(f) && f.dataBusy && f.downq != []
    ensures Inv(Confirms(f, NoPrep()))
  {
    hide Common, HasBit, DcsFor, Flat, Zeros, RateFor;
    var g := Confirms(f, NoPrep());
    RateOkFrame(f, g);
    assert f.sent + f.downq == g.sent + g.downq;
  }

  lemma ConfirmMovesPage(f: Fax)
    requires Inv(f) && f.dataBusy && f.downq == [] && f.dataReady && f.pageq != []
    ensures Inv(Confirms(f, NoPrep()))
  {
    hide Common, HasBit, DcsFor, Flat, Zeros, RateFor;
    var g := Confirms(f, NoPrep());
    RateOkFrame(f, g);
    assert f.handed + f.pageq == g.handed + g.pageq;
    assert g.sent + g.downq == (f.sent + f.downq) + [f.pageq[0]];
    assert (g.sent + g.downq)[f.mark..] == (f.sent + f.downq)[f.mark..] + [f.pageq[0]];
  }

  /** g differs from f in pipe and page only. */
  predicate OnlyData(f: Fax, g: Fax) {
    g == f.(downq := g.downq, sent := g.sent, dataBusy := g.dataBusy, pageq := g.pageq, handed := g.handed,
            saveq := g.saveq, pageSkb := g.pageSkb, collected := g.collected, dataLast := g.dataLast,
            lastPage := g.lastPage, confirmed := g.confirmed)
  }

  lemma DataKeeps(f: Fax, g: Fax)
    requires Inv(f) && OnlyData(f, g) && PipeOk(g) && PageOk(g)
    ensures Inv(g)
  {
    hide Common, HasBit, DcsFor, Flat, Zeros, RateFor, PipeOk, PageOk;
    RateOkFrame(f, g);
  }

  /** Preparing more of the page while it is being sent. */
  lemma PreparePageKeeps(f: Fax, prep: Prep)
    requires PipeOk(f) && PageOk(f) && Fits(prep)
    ensures var g := Prepare(f, prep);
            PipeOk(g) && PageOk(g) && OnlyData(f, g) && g.main == f.main
  {
    hide Flat, Zeros, Prepare;
    PrepareKeeps(f, prep);
  }

  lemma SendNextKeeps(f: Fax, prep: Prep)
    requires PipeOk(f) && PageOk(f) && f.main.SendPage? && Fits(prep)
    ensures var g := SendNextPageData(f, prep);
            PipeOk(g) && PageOk(g) && OnlyData(f, g)
  {
    hide Flat, Zeros, Prepare, HandPage, HandAllPages;
    if f.dataLast {
      HandAllKeeps(f);
    } else if f.pageRetry == 0 {
      PreparePageKeeps(f, prep);
      var g := Prepare(f, prep);
      if g.pageq != [] {
        HandPageKeeps(g);
      }
    } else if f.pageq != [] {
      HandPageKeeps(f);
    }
  }

  lemma ConfirmsKeeps(f: Fax, prep: Prep)
    requires Inv(f) && Fits(prep)
    ensures Inv(Confirms(f, prep))
  {
    hide RateOk, PageOk, ModemOk, SendNextPageData, Zeros, Fits;
    if f.dataBusy {
      if f.downq != [] {
        ConfirmMovesDown(f);
      } else if f.dataReady && f.pageq != [] {
        ConfirmMovesPage(f);
      } else {
        NextDataKeeps(f, prep);
      }
    }
  }

  lemma NextDataKeeps(f: Fax, prep: Prep)
    requires Inv(f) && Fits(prep) && f.dataBusy && f.downq == []
    ensures Inv(MainStep(f.(confirmed := f.confirmed + 1, dataBusy := false), NextData, Arg([], prep)))
  {
    hide RateOk, ModemOk, SendNextPageData, Zeros, Flat, Fits;
    var g := f.(confirmed := f.confirmed + 1, dataBusy := false);
    assert PipeOk(g) && PageOk(g);
    DataKeeps(f, g);
    if f.main.SendPage? {
      SendNextKeeps(g, prep);
      DataKeeps(g, SendNextPageData(g, prep));
    } else {
      var h := g.(dataLast := false);
      assert PipeOk(h) && PageOk(h);
      DataKeeps(g, h);
    }
  }

  // ----- the other events -------------------------------------------------------------------

  /** Only what the two machines share has changed, and the modem side is right. */
  lemma SharedKeeps(f: Fax, g: Fax)
    requires Inv(f) && ModemOk(g)
    requires g == f.(main := g.main, mod := g.mod, pendingMod := g.pendingMod, pendingRate := g.pendingRate,
                     dis := g.dis, result := g.result)
    requires g.main == f.main || (f.main.Idle? && g.main.WaitRecvDis?)
    ensures Inv(g)
  {
    hide Common, HasBit, DcsFor, Flat, Zeros, ModemOk;
    RateOkFrame(f, g);
  }

  lemma ReceivedIs(f: Fax, frame: Frame)
    ensures exists d, r :: Step(f, Received(frame)) == f.(dis := d, result := r)
  {
    hide DisAfter, TrainResult, PageResult;
    if f.main.RecvDis? {
      assert Step(f, Received(frame)) == f.(dis := DisAfter(f.dis, frame), result := f.result);
    } else if f.main.RecvTrainState? {
      assert Step(f, Received(frame)) == f.(dis := f.dis, result := TrainResult(f.result, frame));
    } else if f.main.RecvMcf? {
      assert Step(f, Received(frame)) == f.(dis := f.dis, result := PageResult(f.result, frame));
    } else {
      assert Step(f, Received(frame)) == f.(dis := f.dis, result := f.result);
    }
  }

  lemma ReceivedKeeps(f: Fax, frame: Frame)
    requires Inv(f)
    ensures Inv(Step(f, Received(frame)))
  {
    hide Step, RateOk, PipeOk, PageOk, RateFor;
    ReceivedIs(f, frame);
    var d, r :| Step(f, Received(frame)) == f.(dis := d, result := r);
    SharedKeeps(f, f.(dis := d, result := r));
  }

  lemma WaitingIs(s: MainState)
    requires Waiting(s)
    ensures !Transferring(s) && !s.Idle? && (ModeFor(s) == FRH || ModeFor(s) == FTM || ModeFor(s) == FTH)
  {
  }

  lemma RequestModemOk(f: Fax, mode: int, rate: int)
    requires ModemOk(f) && Waiting(f.main) && mode == ModeFor(f.main) && rate == RateFor(f.main, f.rateIdx) >= HDLC_RATE
    ensures ModemOk(RequestModulation(f, mode, rate))
  {
    hide RateFor, ModeFor, Waiting, Transferring;
    WaitingIs(f.main);
  }

  /** What asking for a mode leaves alone. */
  lemma RequestIs(f: Fax, mode: int, rate: int)
    ensures RequestModulation(f, mode, rate) ==
            f.(pendingMod := mode, pendingRate := rate, mod := RequestModulation(f, mode, rate).mod)
  {
  }

  /** Asking for the mode of the state the call waits in. */
  lemma RequestKeeps(f: Fax, mode: int, rate: int)
    requires Inv(f) && Waiting(f.main) && mode == ModeFor(f.main) && rate == RateFor(f.main, f.rateIdx) >= HDLC_RATE
    ensures Inv(RequestModulation(f, mode, rate))
  {
    hide RateOk, PipeOk, PageOk, ModemOk, Inv, RequestModulation;
    InvParts(f);
    RequestModemOk(f, mode, rate);
    RequestIs(f, mode, rate);
    SharedKeeps(f, RequestModulation(f, mode, rate));
  }

  lemma InvParts(f: Fax)
    requires Inv(f)
    ensures ModemOk(f) && RateOk(f) && PipeOk(f) && PageOk(f)
  {
  }

  lemma DelayKeeps(f: Fax)
    requires Inv(f)
    ensures Inv(Step(f, Delay))
  {
    hide RequestModulation, Inv, PipeOk, PageOk, Common, HasBit;
    InvParts(f);
    if f.main.WaitSendTrain? {
      RequestKeeps(f, FTM, TRAIN_RATES[f.rateIdx]);
    } else if f.main.WaitSendPage? {
      RequestKeeps(f, FTM, PAGE_RATES[f.rateIdx]);
    }
  }

  lemma HdlcRate(s: MainState, rateIdx: int)
    requires ModeFor(s) != FTM
    ensures RateFor(s, rateIdx) == HDLC_RATE
  {
  }

  lemma StartKeeps(f: Fax)
    requires Inv(f) && f.main.Idle?
    ensures Inv(Step(f, ConnectB3))
  {
    hide RateOk, PipeOk, PageOk, RateFor;
    var g := if f.mod == ModIdle
             then f.(main := WaitRecvDis, pendingMod := FRH, pendingRate := HDLC_RATE, mod := WaitConnect)
             else f.(main := WaitRecvDis, pendingMod := FRH, pendingRate := HDLC_RATE);
    assert Step(f, ConnectB3) == g;
    assert RateFor(WaitRecvDis, f.rateIdx) == HDLC_RATE by { HdlcRate(WaitRecvDis, f.rateIdx); }
    SharedKeeps(f, g);
  }

  lemma ReadyIs(f: Fax)
    ensures var g := Step(f, Ready); g == f.(mod := g.mod)
    ensures ModemOk(f) ==> ModemOk(Step(f, Ready))
  {
    hide RateFor;
  }

  lemma ReadyKeeps(f: Fax)
    requires Inv(f)
    ensures Inv(Step(f, Ready))
  {
    hide RateOk, PipeOk, PageOk, ModemOk, Inv, Step;
    InvParts(f);
    ReadyIs(f);
    SharedKeeps(f, Step(f, Ready));
  }

  lemma DataB3Keeps(f: Fax, prep: Prep)
    requires Inv(f) && Fits(prep)
    ensures Inv(Prepare(f, prep))
  {
    hide RateOk, ModemOk, Prepare, Fits, PipeOk, PageOk;
    PreparePageKeeps(f, prep);
    DataKeeps(f, Prepare(f, prep));
  }

  lemma StepKeeps(f: Fax, i: Input)
    requires Inv(f) && Allowed(f, i)
    ensures Inv(Step(f, i))
  {
    hide Inv, Connects, Disconnects, Confirms, MainStep, StartCall, Prepare, Fits;
    match i
    case Ready => ReadyKeeps(f);
    case Connect => ConnectsKeeps(f);
    case NoCarrier(prep) => DisconnectsKeeps(f, prep);
    case Received(frame) => ReceivedKeeps(f, frame);
    case Confirmed(prep) => ConfirmsKeeps(f, prep);
    case Delay => DelayKeeps(f);
    case ConnectB3 => StartKeeps(f);
    case DataB3(prep) => DataB3Keeps(f, prep);
  }
}
