/**
 Runs from a new session that show what the rates and the saved frames do not promise: a peer that
 answers every page with RTP makes the session train again for each of them, and a retry after RTN
 does not send what is left in the page buffer.
 */
module FaxRounds {
  import opened Basics
  import opened FaxSpec
  import opened FaxInvariant
  import opened FaxRuns
  import opened FaxTheorems
  import opened FaxRates
  import opened FaxSessions
  import opened FaxRetry

  // ----- runs that exist --------------------------------------------------------------------

  /** Some allowed run leads from f to g with at least n trainings. */
  ghost predicate CanReach(f: Fax, g: Fax, n: nat) {
    exists run :: Reaches(f, run, g) && Retrainings(f, run) >= n
  }

  lemma Stays(f: Fax)
    ensures CanReach(f, f, 0)
  {
    assert Reaches(f, [], f) && Retrainings(f, []) >= 0;
  }

  lemma {:induction false} Longer(f: Fax, a: seq<Input>, g: Fax, i: Input)
    requires Reaches(f, a, g) && Allowed(g, i)
    ensures Reaches(f, a + [i], Step(g, i))
    ensures Retrainings(f, a + [i]) == Retrainings(f, a) + (if Retrains(g, Step(g, i)) then 1 else 0)
    decreases |a|
  {
    hide Step, Allowed, Retrains;
    if a == [] {
      assert a + [i] == [i] && [i][1..] == [];
    } else {
      assert (a + [i])[1..] == a[1..] + [i];
      Longer(Step(f, a[0]), a[1..], g, i);
    }
  }

  /** One more event. */
  lemma Then(f: Fax, g: Fax, n: nat, i: Input)
    requires CanReach(f, g, n) && Allowed(g, i)
    ensures CanReach(f, Step(g, i), n)
    ensures Retrains(g, Step(g, i)) ==> CanReach(f, Step(g, i), n + 1)
  {
    hide Reaches, Retrainings, Step, Allowed, Retrains;
    var a :| Reaches(f, a, g) && Retrainings(f, a) >= n;
    Longer(f, a, g, i);
  }

  // ----- one event at a time ----------------------------------------------------------------

  /** Where the two machines are, in a session that is otherwise in order. */
  predicate Stands(f: Fax, s: MainState, m: ModState) {
    Inv(f) && f.main == s && f.mod == m && !f.lastPage
  }

  lemma ConnectGoes(f: Fax, s: MainState)
    requires Stands(f, s, WaitConnect) && Waiting(s)
    ensures var g := Step(f, Connect); Stands(g, Started(s), Connected) && Same(f, g)
  {
    hide Inv, Connects;
    StepKeeps(f, Connect);
    ConnectMain(f);
    ConnectSteady(f);
  }

  lemma IdleGoes(f: Fax, s: MainState)
    requires Stands(f, s, Connected) && (s.SendDcs? || s.SendTrain? || s.SendPage? || s.SendEop?)
    ensures var g := Step(f, NoCarrier(NoPrep()));
            Stands(g, Finished(s), if s.SendDcs? then ModIdle else WaitConnect) && Same(f, g)
  {
    hide Inv, MainStep;
    StepKeeps(f, NoCarrier(NoPrep()));
    IdleMain(f.(mod := ModIdle), NoPrep());
    IdleSteady(f.(mod := ModIdle), NoPrep());
  }

  lemma CfrGoes(f: Fax)
    requires Stands(f, RecvTrainState, Connected) && f.result == Cfr
    ensures var g := Step(f, NoCarrier(NoPrep())); Stands(g, WaitSendPage, ModIdle) && Same(f, g)
  {
    hide Inv;
    StepKeeps(f, NoCarrier(NoPrep()));
    assert Step(f, NoCarrier(NoPrep())) == f.(mod := ModIdle, main := WaitSendPage);
  }

  lemma DelayGoes(f: Fax, s: MainState)
    requires Stands(f, s, ModIdle) && (s.WaitSendTrain? || s.WaitSendPage?)
    ensures var g := Step(f, Delay); Stands(g, s, WaitConnect) && Same(f, g)
  {
    hide Inv, HasBit, RequestModulation;
    StepKeeps(f, Delay);
    NegotiatedRate(f);
    DelaySteady(f);
    RequestKeepsState(f, FTM, TRAIN_RATES[f.rateIdx]);
    RequestKeepsState(f, FTM, PAGE_RATES[f.rateIdx]);
  }

  lemma NegotiatedRate(f: Fax)
    requires Inv(f) && Negotiated(f.main)
    ensures ValidRate(f, f.rateIdx)
  {
    hide Common, HasBit, ModemOk, PipeOk, PageOk;
  }

  /** What the peer's answers say. */
  lemma HearsCfr(f: Fax)
    requires Stands(f, RecvTrainState, Connected)
    ensures var g := Step(f, Received([0xff, 0x13, 0x84])); Stands(g, RecvTrainState, Connected) && g.result == Cfr && Same(f, g)
  {
    hide Inv;
    StepKeeps(f, Received([0xff, 0x13, 0x84]));
    assert Step(f, Received([0xff, 0x13, 0x84])) == f.(result := Cfr);
  }

  lemma HearsPageResult(f: Fax, fcf: byte, r: Result)
    requires Stands(f, RecvMcf, Connected) && ((fcf == 0xcc && r == Rtp) || (fcf == 0x4c && r == Rtn))
    ensures var g := Step(f, Received([0xff, 0x13, fcf])); Stands(g, RecvMcf, Connected) && g.result == r && Same(f, g)
  {
    hide Inv;
    StepKeeps(f, Received([0xff, 0x13, fcf]));
    assert Step(f, Received([0xff, 0x13, fcf])) == f.(result := r);
  }

  lemma RtpStep(f: Fax)
    requires f.main.RecvMcf? && f.mod.Connected? && f.result == Rtp
    ensures Step(f, NoCarrier(NoPrep())) == RequestModulation(AfterRtp(f.(mod := ModIdle), NoPrep()), FTH, HDLC_RATE)
  {
    hide AfterRtp, RequestModulation;
  }

  /** An RTP page before the last one: the DCS is sent again. */
  lemma RtpRetrains(f: Fax)
    requires Stands(f, RecvMcf, Connected) && f.result == Rtp
    ensures Stands(Step(f, NoCarrier(NoPrep())), WaitSendDcs, WaitConnect)
  {
    hide Inv, RequestModulation, Step, CollectAll, DcsFor;
    StepKeeps(f, NoCarrier(NoPrep()));
    RtpStep(f);
    var h := f.(mod := ModIdle);
    NothingCollected(InitNewPage(h));
    AskIs(AfterRtp(h, NoPrep()), FTH);
  }

  /** An RTN with a lower rate to try: the DCS is sent again, for the same page. */
  lemma RtnRetrains(f: Fax)
    requires Stands(f, RecvMcf, Connected) && f.result == Rtn && f.pageRetry < 4
    requires f.rateIdx >= 0 && BestRate(f, f.rateIdx - 1) >= 0
    ensures var g := Step(f, NoCarrier(NoPrep()));
            && Stands(g, WaitSendDcs, WaitConnect) && g.pageRetry == f.pageRetry + 1
            && g.saveq == f.saveq && g.pageSkb == f.pageSkb && g.collected == f.collected
  {
    hide Inv, RequestModulation, AfterRtn, BestRate, DcsFor, Step;
    var h := f.(mod := ModIdle);
    StepKeeps(f, NoCarrier(NoPrep()));
    RtnStep(f, NoPrep());
    BestFrameAt(f, h, f.rateIdx - 1);
    RtnIs(h, BestRate(h, h.rateIdx - 1));
    RequestIs(AfterRtn(h), FTH, HDLC_RATE);
    RequestKeepsState(AfterRtn(h), FTH, HDLC_RATE);
  }

  // ----- stretches of a call ----------------------------------------------------------------

  /** A run from c with n trainings has led to g, which stands as said, with the rates and the page
      of o. */
  ghost predicate On(c: Fax, n: nat, o: Fax, g: Fax, s: MainState, m: ModState) {
    CanReach(c, g, n) && Stands(g, s, m) && Same(o, g)
  }

  /** One more event that changes neither rates nor page. */
  lemma Next(c: Fax, n: nat, o: Fax, f: Fax, i: Input, s: MainState, m: ModState)
    requires CanReach(c, f, n) && Same(o, f) && Allowed(f, i)
    requires Stands(Step(f, i), s, m) && Same(f, Step(f, i))
    ensures On(c, n, o, Step(f, i), s, m)
  {
    hide CanReach, Stands, Step, Allowed;
    Then(c, f, n, i);
  }

  lemma ThenConnect(c: Fax, n: nat, o: Fax, f: Fax, s: MainState) returns (g: Fax)
    requires On(c, n, o, f, s, WaitConnect) && Waiting(s)
    ensures On(c, n, o, g, Started(s), Connected)
  {
    hide CanReach, Stands, Step, Same, Waiting, Started;
    g := Step(f, Connect);
    ConnectGoes(f, s);
    Next(c, n, o, f, Connect, Started(s), Connected);
  }

  lemma ThenIdle(c: Fax, n: nat, o: Fax, f: Fax, s: MainState) returns (g: Fax)
    requires On(c, n, o, f, s, Connected) && (s.SendDcs? || s.SendTrain? || s.SendPage? || s.SendEop?)
    ensures On(c, n, o, g, Finished(s), if s.SendDcs? then ModIdle else WaitConnect)
  {
    hide CanReach, Stands, Step, Same, Finished;
    g := Step(f, NoCarrier(NoPrep()));
    IdleGoes(f, s);
    Next(c, n, o, f, NoCarrier(NoPrep()), Finished(s), if s.SendDcs? then ModIdle else WaitConnect);
  }

  lemma ThenDelay(c: Fax, n: nat, o: Fax, f: Fax, s: MainState) returns (g: Fax)
    requires On(c, n, o, f, s, ModIdle) && (s.WaitSendTrain? || s.WaitSendPage?)
    ensures On(c, n, o, g, s, WaitConnect)
  {
    hide CanReach, Stands, Step, Same;
    g := Step(f, Delay);
    DelayGoes(f, s);
    Next(c, n, o, f, Delay, s, WaitConnect);
  }

  lemma ThenCfr(c: Fax, n: nat, o: Fax, f: Fax) returns (g: Fax)
    requires On(c, n, o, f, RecvTrainState, Connected)
    ensures On(c, n, o, g, WaitSendPage, ModIdle)
  {
    hide CanReach, Stands, Step, Same;
    var i := Received([0xff, 0x13, 0x84]);
    HearsCfr(f);
    Next(c, n, o, f, i, RecvTrainState, Connected);
    var f1 := Step(f, i);
    g := Step(f1, NoCarrier(NoPrep()));
    CfrGoes(f1);
    Next(c, n, o, f1, NoCarrier(NoPrep()), WaitSendPage, ModIdle);
  }

  /** From the DCS to the page, with a training that succeeds. */
  lemma ToPage(c: Fax, n: nat, o: Fax, f: Fax) returns (g: Fax)
    requires On(c, n, o, f, WaitSendDcs, WaitConnect)
    ensures On(c, n, o, g, SendPage, Connected)
  {
    hide On;
    g := ThenConnect(c, n, o, f, WaitSendDcs);
    g := ThenIdle(c, n, o, g, SendDcs);
    g := ThenDelay(c, n, o, g, WaitSendTrain);
    g := ThenConnect(c, n, o, g, WaitSendTrain);
    g := ThenIdle(c, n, o, g, SendTrain);
    g := ThenConnect(c, n, o, g, WaitTrainState);
    g := ThenCfr(c, n, o, g);
    g := ThenDelay(c, n, o, g, WaitSendPage);
    g := ThenConnect(c, n, o, g, WaitSendPage);
  }

  /** From the page to the answer to it. */
  lemma ToAnswer(c: Fax, n: nat, o: Fax, f: Fax, fcf: byte, r: Result) returns (g: Fax)
    requires On(c, n, o, f, SendPage, Connected)
    requires (fcf == 0xcc && r == Rtp) || (fcf == 0x4c && r == Rtn)
    ensures On(c, n, o, g, RecvMcf, Connected) && g.result == r
  {
    hide On;
    var f1 := ThenIdle(c, n, o, f, SendPage);
    f1 := ThenConnect(c, n, o, f1, WaitSendEop);
    f1 := ThenIdle(c, n, o, f1, SendEop);
    f1 := ThenConnect(c, n, o, f1, WaitRecvMcf);
    g := ThenAnswer(c, n, o, f1, fcf, r);
  }

  lemma ThenAnswer(c: Fax, n: nat, o: Fax, f: Fax, fcf: byte, r: Result) returns (g: Fax)
    requires On(c, n, o, f, RecvMcf, Connected)
    requires (fcf == 0xcc && r == Rtp) || (fcf == 0x4c && r == Rtn)
    ensures On(c, n, o, g, RecvMcf, Connected) && g.result == r
  {
    hide CanReach, Stands, Step, Same;
    var i := Received([0xff, 0x13, fcf]);
    g := Step(f, i);
    HearsPageResult(f, fcf, r);
    Next(c, n, o, f, i, RecvMcf, Connected);
  }

  // ----- from a new session to the first DCS ------------------------------------------------

  /** A DIS that names all rates. */
  function FullDis(): Frame {
    [0xff, 0x13, 0x80, 0x00, 0x2c, 0x00]
  }

  lemma ReadyGoes(c: Fax)
    requires Initial(c)
    ensures var g := Step(c, Ready); Stands(g, Idle, ModIdle) && Same(c, g)
  {
    hide Inv;
    InitialInv(c);
    StepKeeps(c, Ready);
    assert Step(c, Ready) == c.(mod := ModIdle);
  }

  lemma StartGoes(f: Fax)
    requires Stands(f, Idle, ModIdle)
    ensures var g := Step(f, ConnectB3); Stands(g, WaitRecvDis, WaitConnect) && Same(f, g)
  {
    hide Inv, RequestModulation;
    StepKeeps(f, ConnectB3);
    StartSteady(f);
    RequestKeepsState(f, FRH, HDLC_RATE);
    RequestIs(f, FRH, HDLC_RATE);
  }

  lemma HearsDis(f: Fax)
    requires Stands(f, RecvDis, Connected)
    ensures var g := Step(f, Received(FullDis()));
            Stands(g, RecvDis, Connected) && Same(f, g) && PeerRatesOf(g.dis) == 0xff
  {
    hide Inv;
    StepKeeps(f, Received(FullDis()));
    var d := DisAfter(f.dis, FullDis());
    assert Step(f, Received(FullDis())) == f.(dis := d);
    assert d[1] == 0x2c;
  }

  lemma DisGoes(f: Fax)
    requires Stands(f, RecvDis, Connected) && f.ownRates == 0xff && PeerRatesOf(f.dis) == 0xff
    ensures var g := Step(f, NoCarrier(NoPrep()));
            && Stands(g, WaitSendDcs, WaitConnect) && SamePage(f, g)
            && g.ownRates == g.peerRates == 0xff && g.rateIdx == 7
  {
    hide Inv, RequestModulation, BestRate, DcsFor, HasBit;
    StepKeeps(f, NoCarrier(NoPrep()));
    var h := f.(mod := ModIdle);
    BestOfMask(h.(peerRates := 0xff));
    var d := FillDcs(Rated(h)).(main := WaitSendDcs);
    assert Step(f, NoCarrier(NoPrep())) == RequestModulation(d, FTH, HDLC_RATE);
    RequestIs(d, FTH, HDLC_RATE);
    RequestKeepsState(d, FTH, HDLC_RATE);
  }

  lemma ToDcs(c: Fax) returns (g: Fax)
    requires Initial(c) && c.ownRates == 0xff
    ensures CanReach(c, g, 0) && Stands(g, WaitSendDcs, WaitConnect) && SamePage(c, g)
    ensures g.ownRates == g.peerRates == 0xff && g.rateIdx == 7
  {
    hide CanReach, Inv, Step, FullDis, Initial;
    Stays(c);
    var f1 := Step(c, Ready);
    ReadyGoes(c);
    Then(c, c, 0, Ready);
    var f2 := Step(f1, ConnectB3);
    StartGoes(f1);
    Then(c, f1, 0, ConnectB3);
    var f3 := Step(f2, Connect);
    ConnectGoes(f2, WaitRecvDis);
    Then(c, f2, 0, Connect);
    var f4 := Step(f3, Received(FullDis()));
    HearsDis(f3);
    Then(c, f3, 0, Received(FullDis()));
    g := Step(f4, NoCarrier(NoPrep()));
    DisGoes(f4);
    Then(c, f4, 0, NoCarrier(NoPrep()));
  }

  // ----- trainings without bound ------------------------------------------------------------

  /** From one RTP to the next, with one training more. */
  lemma RtpRound(c: Fax, f: Fax, n: nat) returns (g: Fax)
    requires CanReach(c, f, n) && Stands(f, RecvMcf, Connected) && f.result == Rtp
    ensures CanReach(c, g, n + 1) && Stands(g, RecvMcf, Connected) && g.result == Rtp
  {
    hide CanReach, Inv, Step;
    var f1 := Step(f, NoCarrier(NoPrep()));
    RtpRetrains(f);
    Then(c, f, n, NoCarrier(NoPrep()));
    var f2 := ToPage(c, n + 1, f1, f1);
    g := ToAnswer(c, n + 1, f1, f2, 0xcc, Rtp);
  }

  lemma {:induction false} RtpRounds(c: Fax, f: Fax, n: nat) returns (g: Fax)
    requires CanReach(c, f, 0) && Stands(f, RecvMcf, Connected) && f.result == Rtp
    ensures CanReach(c, g, n) && Stands(g, RecvMcf, Connected) && g.result == Rtp
    decreases n
  {
    hide CanReach, Inv;
    if n == 0 {
      g := f;
    } else {
      var h := RtpRounds(c, f, n - 1);
      g := RtpRound(c, h, n - 1);
    }
  }

  /** For any number there is an allowed run of a new session that trains that often or more, though
      there are at most eight rates. */
  lemma RetrainingsUnbounded(c: Fax, n: nat) returns (run: seq<Input>, g: Fax)
    requires Initial(c) && c.ownRates == 0xff
    ensures Reaches(c, run, g) && Retrainings(c, run) >= n
  {
    hide Inv, Step, Reaches, Retrainings, Initial;
    var f := ToDcs(c);
    var f1 := ToPage(c, 0, f, f);
    var f2 := ToAnswer(c, 0, f, f1, 0xcc, Rtp);
    g := RtpRounds(c, f2, n);
    run :| Reaches(c, run, g) && Retrainings(c, run) >= n;
  }

  // ----- a tail that is never sent again ----------------------------------------------------

  /** Pieces of a page that has not ended, and that all fit into one buffer. */
  predicate Short(ps: seq<Piece>) {
    (forall k | 0 <= k < |ps| :: !ps[k].flush) && 0 < |Content(ps)| < PAGE_SKB_LEN
  }

  lemma {:induction false} ShortFits(ps: seq<Piece>)
    ensures forall k | 0 <= k < |ps| :: |ps[k].bytes| <= |Content(ps)|
    decreases |ps|
  {
    if ps != [] {
      ShortFits(ps[..|ps| - 1]);
    }
  }

  /** They go into the buffer one after the other and stay there. */
  lemma {:induction false} CollectsShort(f: Fax, ps: seq<Piece>)
    requires f.pageSkb.None? && f.collected == []
    requires forall k | 0 <= k < |ps| :: !ps[k].flush
    requires |Content(ps)| < PAGE_SKB_LEN
    ensures CollectAll(f, ps) == f.(pageSkb := if ps == [] then None else Some(Content(ps)), collected := Content(ps))
    decreases |ps|
  {
    if ps != [] {
      var n := |ps| - 1;
      CollectsShort(f, ps[..n]);
      ShortAppend(CollectAll(f, ps[..n]), ps[n], Content(ps[..n]));
    }
  }

  lemma ShortAppend(g: Fax, p: Piece, page: seq<byte>)
    requires Skb(g) == g.collected == page && !p.flush && |page + p.bytes| < PAGE_SKB_LEN
    ensures Collect(g, p) == g.(pageSkb := Some(page + p.bytes), collected := page + p.bytes)
  {
  }

  lemma DataGoes(f: Fax, ps: seq<Piece>)
    requires Stands(f, WaitSendDcs, WaitConnect) && f.saveq == [] && f.pageSkb.None? && f.collected == [] && Short(ps)
    ensures var g := Step(f, DataB3(Prep(ps, false, false)));
            && Allowed(f, DataB3(Prep(ps, false, false)))
            && Stands(g, WaitSendDcs, WaitConnect) && SameRates(f, g) && g.pageRetry == f.pageRetry
            && g.saveq == [] && g.collected == Content(ps)
  {
    hide Inv, CollectAll, Content;
    var i := DataB3(Prep(ps, false, false));
    ShortFits(ps);
    StepKeeps(f, i);
    CollectsShort(f, ps);
  }

  /** A confirmed frame while a page without frames is sent. */
  lemma ConfirmGoes(f: Fax)
    requires Stands(f, SendPage, Connected) && f.saveq == [] && f.pageRetry > 0 && f.dataBusy
    ensures var g := Step(f, Confirmed(NoPrep()));
            && Stands(g, SendPage, Connected) && Same(f, g)
            && (f.downq == [] ==> !g.dataBusy) && (f.downq != [] ==> |g.downq| < |f.downq|)
  {
    hide Inv, Confirms;
    StepKeeps(f, Confirmed(NoPrep()));
    ConfirmSteady(f, NoPrep());
    ConfirmGrows(f, NoPrep());
    ConfirmPhase(f, NoPrep());
    NoFrames(f);
    ConfirmDrains(f);
  }

  lemma NoFrames(f: Fax)
    requires Inv(f) && f.saveq == []
    ensures f.pageq == [] && f.handed == [] && (!f.dataBusy ==> f.downq == [])
  {
    hide RateOk, ModemOk, Flat, Zeros;
    assert |f.handed + f.pageq| == 0;
  }

  lemma ConfirmDrains(f: Fax)
    requires f.main.SendPage? && f.pageq == [] && f.pageRetry > 0 && f.dataBusy
    ensures var g := Confirms(f, NoPrep());
            g.mod == f.mod && (f.downq == [] ==> !g.dataBusy) && (f.downq != [] ==> |g.downq| < |f.downq|)
  {
    hide MainStep;
    if f.downq == [] {
      var h := f.(confirmed := f.confirmed + 1, dataBusy := false);
      NextPageIs(h, NoPrep());
      NothingToHand(h);
    }
  }

  lemma NothingToHand(h: Fax)
    requires h.pageq == [] && h.pageRetry > 0
    ensures SendNextPageData(h, NoPrep()) == h.(dataLast := false)
  {
    hide HandPage, HandAllPages, Prepare;
  }

  lemma {:induction false} Drain(c: Fax, f: Fax, n: nat) returns (g: Fax)
    requires CanReach(c, f, n) && Stands(f, SendPage, Connected) && f.saveq == [] && f.pageRetry > 0
    ensures CanReach(c, g, n) && Stands(g, SendPage, Connected) && Same(f, g) && !g.dataBusy
    decreases if f.dataBusy then 1 + |f.downq| else 0
  {
    hide CanReach, Inv, Step;
    if !f.dataBusy {
      g := f;
    } else {
      var h := Step(f, Confirmed(NoPrep()));
      ConfirmGoes(f);
      Then(c, f, n, Confirmed(NoPrep()));
      g := Drain(c, h, n);
    }
  }

  /** From a new session to a page answered with RTN while all of it is in the buffer. */
  lemma ToRtn(c: Fax, ps: seq<Piece>) returns (g: Fax)
    requires Initial(c) && c.ownRates == 0xff && Short(ps)
    ensures CanReach(c, g, 0) && Stands(g, RecvMcf, Connected) && g.result == Rtn
    ensures g.saveq == [] && g.collected == Content(ps) && g.pageRetry == 0
    ensures g.ownRates == g.peerRates == 0xff && g.rateIdx == 7
  {
    hide Inv, Step, Initial, CanReach, Short, Content, Allowed;
    var f := ToDcs(c);
    NewPage(c);
    var data := DataB3(Prep(ps, false, false));
    DataGoes(f, ps);
    Then(c, f, 0, data);
    var f1 := Step(f, data);
    var f2 := ToPage(c, 0, f1, f1);
    g := ToAnswer(c, 0, f1, f2, 0x4c, Rtn);
  }

  /** The page is sent again, and the pipe drained. */
  lemma ToDrained(c: Fax, f: Fax) returns (s: Fax)
    requires CanReach(c, f, 0) && Stands(f, RecvMcf, Connected) && f.result == Rtn && f.pageRetry == 0 && f.saveq == []
    requires f.ownRates == f.peerRates == 0xff && f.rateIdx == 7
    ensures CanReach(c, s, 0) && Stands(s, SendPage, Connected) && !s.dataBusy
    ensures s.saveq == [] && s.collected == f.collected && s.pageRetry == 1
  {
    hide Inv, Step, CanReach, BestRate;
    LowerRate(f);
    RtnRetrains(f);
    Then(c, f, 0, NoCarrier(NoPrep()));
    var f1 := Step(f, NoCarrier(NoPrep()));
    var f2 := ToPage(c, 0, f1, f1);
    s := Drain(c, f2, 0);
  }

  /** For every page that fits into one buffer and has not ended, an allowed run of a new session: the
      page is collected and answered with RTN, and the retry ends with nothing left to send and
      nothing of the page sent. */
  lemma TailNotResent(c: Fax, ps: seq<Piece>) returns (run: seq<Input>, s: Fax)
    requires Initial(c) && c.ownRates == 0xff && Short(ps)
    ensures Reaches(c, run, s)
    ensures s.main.SendPage? && s.pageRetry > 0 && s.collected == Content(ps)
    ensures s.pageq == [] && s.downq == [] && !s.dataBusy && s.mark <= |s.sent|
    ensures Flat(s.sent[s.mark..]) == Zeros(s.preamble) != Zeros(s.preamble) + s.collected
  {
    hide Inv, Reaches, Initial, CanReach, Flat, Zeros, Content;
    var f := ToRtn(c, ps);
    s := ToDrained(c, f);
    NoFrames(s);
    PageSent(s);
    NoFlat();
    assert Zeros(s.preamble) + [] == Zeros(s.preamble);
    assert |Zeros(s.preamble) + s.collected| > |Zeros(s.preamble)|;
    run := RunTo(c, s);
  }

  lemma RunTo(c: Fax, s: Fax) returns (run: seq<Input>)
    requires CanReach(c, s, 0)
    ensures Reaches(c, run, s)
  {
    run :| Reaches(c, run, s) && Retrainings(c, run) >= 0;
  }

  lemma NoFlat()
    ensures Flat([]) == []
  {
  }

  lemma NewPage(c: Fax)
    requires Initial(c)
    ensures c.saveq == [] && c.pageSkb.None? && c.collected == [] && c.pageRetry == 0
  {
  }

  lemma LowerRate(f: Fax)
    requires f.ownRates == f.peerRates == 0xff && f.rateIdx == 7
    ensures BestRate(f, f.rateIdx - 1) == 6
  {
    Bits(0xff, 6);
    assert ValidRate(f, 6);
  }
}
