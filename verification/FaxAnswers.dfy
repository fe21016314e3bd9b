/**
 What the session does with the peer's answers, and what it says to the peer, frame by frame.
 */
module FaxAnswers {
  import opened FaxSpec
  import opened FaxInvariant
  import opened FaxRuns
  import opened FaxTheorems
  import opened FaxRates
  import opened FaxSessions

  // ----- the answer to the training ---------------------------------------------------------

  /** r is the largest common rate below the current one. */
  ghost predicate NextRate(f: Fax, r: int) {
    0 <= r < f.rateIdx && ValidRate(f, r) && forall k | r < k < f.rateIdx :: !ValidRate(f, k)
  }

  lemma NextIsBest(f: Fax)
    requires f.rateIdx >= 0
    ensures var r := BestRate(f, f.rateIdx - 1);
            if r >= 0 then NextRate(f, r) else forall k | 0 <= k < f.rateIdx :: !ValidRate(f, k)
  {
    hide HasBit;
  }

  lemma NegotiatedIndex(f: Fax)
    requires RateOk(f) && Negotiated(f.main)
    ensures 0 <= f.rateIdx <= MAX_RATE_IDX
  {
    hide Common;
  }

  lemma TrainingFalls(f: Fax)
    requires Left(f) && f.main.RecvTrainState? && f.result == Ftt
    ensures var g := FinishTrainState(f);
            if g.main.WaitSendDcs? then NextRate(f, g.rateIdx) && g.dcs == DcsFor(g.rateIdx)
            else g.main.WaitSendDcn? && forall k | 0 <= k < f.rateIdx :: !ValidRate(f, k)
    ensures SamePage(f, FinishTrainState(f)) && FinishTrainState(f).pendingMod == FTH
  {
    hide ValidRate, DcsFor, BestRate, FallbackRate, PipeOk, PageOk, Common;
    assert f.rateIdx >= 0 by { NegotiatedIndex(f); }
    var e := f.(pendingMod := FTH, pendingRate := HDLC_RATE);
    FallbackEquals(e);
    NextIsBest(f);
    BestFrameAt(f, e, f.rateIdx - 1);
  }

  lemma TrainStateStep(f: Fax, frame: Frame, prep: Prep)
    requires Inv(f) && f.main.RecvTrainState? && |frame| >= 3
    ensures var r := if frame[2] == 0x84 then Cfr else if frame[2] == 0x44 then Ftt else NoResult;
            Step(f, Received(frame)) == f.(result := r)
    ensures var h := Step(f, Received(frame));
            Step(h, NoCarrier(prep)) == FinishTrainState(h.(mod := ModIdle))
  {
    hide Step, Inv;
    HearsIs(f, frame);
    StepKeeps(f, Received(frame));
    TrainStateEnds(Step(f, Received(frame)), prep);
  }

  lemma TrainStateEnds(h: Fax, prep: Prep)
    requires Inv(h) && h.main.RecvTrainState?
    ensures Step(h, NoCarrier(prep)) == FinishTrainState(h.(mod := ModIdle))
  {
    hide FinishTrainState, RateOk, PipeOk, PageOk, RateFor;
  }

  /** A failed training is followed by the largest common rate below the one that failed, announced in
      the DCS to come, or by the end of the call if there is none; any other answer by the page. A frame
      too short to be an answer is ignored. */
  lemma TrainingAnswered(f: Fax, frame: Frame, prep: Prep)
    requires Inv(f) && f.main.RecvTrainState?
    ensures var h := Step(f, Received(frame));
            var g := Step(h, NoCarrier(prep));
            if |frame| < 3 then h == f
            else if frame[2] == 0x44 then
              && SamePage(f, g)
              && (if g.main.WaitSendDcs? then NextRate(f, g.rateIdx) && g.dcs == DcsFor(g.rateIdx)
                  else g.main.WaitSendDcn? && forall k | 0 <= k < f.rateIdx :: !ValidRate(f, k))
            else g.main.WaitSendPage? && Same(f, g)
  {
    hide HasBit, DcsFor, FinishTrainState, Step, Inv, Left;
    if |frame| < 3 {
      ShortIgnored(f, frame);
    } else {
      TrainStateStep(f, frame, prep);
      StepKeeps(f, Received(frame));
      var h := Step(f, Received(frame));
      ModemLeaves(h);
      if frame[2] == 0x44 {
        TrainingFalls(h.(mod := ModIdle));
        SameRatesNext(f, h.(mod := ModIdle), FinishTrainState(h.(mod := ModIdle)).rateIdx);
      } else {
        PageFollows(h.(mod := ModIdle));
      }
    }
  }

  /** What hearing a frame changes. */
  lemma HearsIs(f: Fax, frame: Frame)
    requires f.main.RecvTrainState? || f.main.RecvMcf?
    ensures Step(f, Received(frame))
            == f.(result := if f.main.RecvMcf? then PageResult(f.result, frame) else TrainResult(f.result, frame))
  {
    hide TrainResult, PageResult;
  }

  lemma ShortIgnored(f: Fax, frame: Frame)
    requires |frame| < 3 && (f.main.RecvTrainState? || f.main.RecvMcf?)
    ensures Step(f, Received(frame)) == f
  {
    hide Step;
    HearsIs(f, frame);
  }

  lemma SameRatesNext(f: Fax, g: Fax, r: int)
    requires SameRates(f, g)
    ensures NextRate(f, r) <==> NextRate(g, r)
    ensures forall k :: ValidRate(f, k) <==> ValidRate(g, k)
  {
    hide HasBit;
    assert forall k :: ValidRate(f, k) <==> ValidRate(g, k);
    if NextRate(f, r) {
      assert forall k | r < k < g.rateIdx :: !ValidRate(f, k);
    }
    if NextRate(g, r) {
      assert forall k | r < k < f.rateIdx :: !ValidRate(g, k);
    }
  }

  lemma PageFollows(f: Fax)
    requires f.result != Ftt
    ensures FinishTrainState(f) == f.(main := WaitSendPage)
  {
    hide FallbackRate;
  }

  // ----- failures and the rates they leave --------------------------------------------------

  /** How many trainings and pages of the run have failed. */
  ghost function Failures(f: Fax, run: seq<Input>): nat
    decreases |run|
  {
    if run == [] then 0 else (if Fails(f, run[0]) then 1 else 0) + Failures(Step(f, run[0]), run[1..])
  }

  lemma StepTries(f: Fax, i: Input)
    requires Inv(f) && Allowed(f, i) && !NewDis(f, i)
    ensures var g := Step(f, i);
            && g.rateIdx <= f.rateIdx
            && (g.rateIdx >= 0 ==> |g.tried| == |f.tried| + if Fails(f, i) then 1 else 0)
  {
    hide Step, Inv, Allowed, BestRate, Common;
    StepRates(f, i);
  }

  lemma {:induction false} RunTries(f: Fax, run: seq<Input>, g: Fax)
    requires Inv(f) && Reaches(f, run, g) && OneDis(f, run) && g.rateIdx >= 0
    ensures |g.tried| == |f.tried| + Failures(f, run)
    decreases |run|
  {
    hide Step, Inv, Allowed, Fails, NewDis;
    if run != [] {
      var h := Step(f, run[0]);
      StepTries(f, run[0]);
      StepKeeps(f, run[0]);
      RateNeverRises(h, run[1..], g);
      RunTries(h, run[1..], g);
    }
  }

  /** From the end of a DIS exchange on: after n failures the session has tried exactly the first n + 1
      common rates, in descending order, and works at the last of them. */
  lemma FailuresVisit(f: Fax, prep: Prep, run: seq<Input>, g: Fax)
    requires Inv(f) && f.main.RecvDis? && Fits(prep) && Step(f, NoCarrier(prep)).main.WaitSendDcs?
    requires Reaches(Step(f, NoCarrier(prep)), run, g) && Negotiated(g.main)
    ensures var n := Failures(Step(f, NoCarrier(prep)), run);
            var c := Common(g, MAX_RATE_IDX);
            n < |c| && g.tried == c[..n + 1] && g.rateIdx == c[n]
  {
    hide Inv, Step, Reaches, Common, Failures, OneDis;
    var h := Step(f, NoCarrier(prep));
    StepKeeps(f, NoCarrier(prep));
    DisEnds(f, prep);
    CallHasOneDis(h, run, g);
    RunKeeps(h, run, g);
    TriedPrefix(g);
    RunTries(h, run, g);
  }

  lemma TriedPrefix(g: Fax)
    requires Inv(g) && Negotiated(g.main)
    ensures g.rateIdx >= 0 && g.tried != [] && g.tried <= Common(g, MAX_RATE_IDX)
    ensures g.tried[|g.tried| - 1] == g.rateIdx
  {
    hide Common, HasBit, PipeOk, PageOk, ModemOk;
    assert g.tried + Common(g, g.rateIdx - 1) == Common(g, MAX_RATE_IDX);
  }

  // ----- the answer to a page ---------------------------------------------------------------

  lemma McfEndsStep(h: Fax, prep: Prep)
    requires Inv(h) && h.main.RecvMcf?
    ensures Step(h, NoCarrier(prep)) == FinishMcf(h.(mod := ModIdle), prep)
  {
    hide FinishMcf, RateOk, PipeOk, PageOk, RateFor;
  }

  /** A new page has begun: with what was left in the buffer and what the parser yields now, not tried
      before, at the rate of the last one. */
  ghost predicate BeginsPage(f: Fax, g: Fax, prep: Prep) {
    && SameRates(f, g) && g.pageRetry == 0 && g.result == NoResult && g.handed == []
    && g.collected == Skb(f) + Content(prep.pieces) && Flat(g.pageq) + Skb(g) == g.collected
    && g.lastPage == (f.lastPage || prep.docEnd) && g.dataLast == (f.dataLast || prep.pageEnd || prep.docEnd)
  }

  lemma PreparedPage(f: Fax, prep: Prep)
    requires PageOk(f) && Fits(prep)
    ensures var g := Prepare(f, prep);
            && PageOk(g) && g.collected == f.collected + Content(prep.pieces)
            && g.lastPage == (f.lastPage || prep.docEnd) && g.dataLast == (f.dataLast || prep.pageEnd || prep.docEnd)
            && OnlyPage(f, g)
  {
    hide PageOk, CollectAll, Content;
    CollectAllKeeps(f, prep.pieces);
    CollectsContent(f, prep.pieces);
    PrepareKeeps(f, prep);
    CollectsMarks(f, prep.pieces);
  }

  /** Collecting does not touch the marks of the document's end. */
  lemma {:induction false} CollectsMarks(f: Fax, ps: seq<Piece>)
    ensures CollectAll(f, ps).lastPage == f.lastPage && CollectAll(f, ps).dataLast == f.dataLast
    decreases |ps|
  {
    hide Collect;
    if ps != [] {
      var h := CollectAll(f, ps[..|ps| - 1]);
      CollectsMarks(f, ps[..|ps| - 1]);
      CollectMarks(h, ps[|ps| - 1]);
    }
  }

  lemma CollectMarks(f: Fax, p: Piece)
    ensures Collect(f, p).lastPage == f.lastPage && Collect(f, p).dataLast == f.dataLast
  {
  }

  lemma NewPageIs(f: Fax, prep: Prep)
    requires PageOk(f) && Fits(prep)
    ensures BeginsPage(f, Prepare(InitNewPage(f), prep), prep)
    ensures var g := Prepare(InitNewPage(f), prep); g.main == f.main && g.mod == f.mod
  {
    hide Prepare, Content, Flat, Fits;
    var h := InitNewPage(f);
    InitKeeps(f);
    PreparedPage(h, prep);
    var g := Prepare(h, prep);
    assert g.handed + g.pageq == g.pageq;
  }

  /** What follows the answer to a page. */
  lemma McfFollows(f: Fax, prep: Prep)
    requires Left(f) && f.main.RecvMcf? && Fits(prep) && f.result == Mcf && !f.lastPage
    ensures var g := FinishMcf(f, prep); g.main.WaitSendPage? && g.mod == ModIdle && BeginsPage(f, g, prep)
  {
    hide Prepare, InitNewPage, Content, Flat, Fits, RateOk, PipeOk;
    NewPageIs(f, prep);
  }

  lemma RtpFollows(f: Fax, prep: Prep)
    requires Left(f) && f.main.RecvMcf? && Fits(prep) && f.result == Rtp && !f.lastPage
    ensures var g := FinishMcf(f, prep);
            && g.main.WaitSendDcs? && g.mod == WaitConnect && g.pendingMod == FTH && BeginsPage(f, g, prep)
            && g.dcs == DcsFor(g.rateIdx)
  {
    hide Prepare, InitNewPage, Content, Flat, Fits, RateOk, PipeOk, RequestModulation, DcsFor;
    NewPageIs(f, prep);
    AskIs(AfterRtp(f, prep), FTH);
  }

  lemma EndFollows(f: Fax, prep: Prep)
    requires Left(f) && f.main.RecvMcf? && f.result != Rtn && (f.lastPage || (f.result != Mcf && f.result != Rtp))
    ensures var g := FinishMcf(f, prep); g == f.(main := WaitSendDcn, mod := WaitConnect, pendingMod := FTH, pendingRate := HDLC_RATE)
  {
    hide Prepare, InitNewPage, RateOk, PipeOk, PageOk, RequestModulation;
    AskIs(f.(main := WaitSendDcn), FTH);
  }

  /** Whether the last frame heard confirms the page, wants another training or could not read it. */
  function AnswerOf(frame: Frame): Result
    requires |frame| >= 3
  {
    match frame[2]
    case 0x8c => Mcf
    case 0xcc => Rtp
    case 0x4c => Rtn
    case _ => NoResult
  }

  /** A confirmed page that was not the last is followed by the next page at the same rate; a page after
      which the peer wants to train, by a DCS with the same rate and then the next page; the last page,
      and a page with any other answer, by the end of the call. What follows a page that could not be
      read is stated by RetryQueues. A frame too short to be an answer is ignored. */
  lemma PageAnswered(f: Fax, frame: Frame, prep: Prep)
    requires Inv(f) && f.main.RecvMcf? && Fits(prep)
    ensures |frame| < 3 ==> Step(f, Received(frame)) == f
    ensures var h := Step(f, Received(frame));
            var g := Step(h, NoCarrier(prep));
            |frame| >= 3 ==>
            && Inv(h) && h.main.RecvMcf? && h.result == AnswerOf(frame) && Same(f, h)
            && (AnswerOf(frame) == Mcf && !f.lastPage ==> g.main.WaitSendPage? && BeginsPage(f, g, prep))
            && (AnswerOf(frame) == Rtp && !f.lastPage ==>
                  g.main.WaitSendDcs? && g.dcs == DcsFor(g.rateIdx) && BeginsPage(f, g, prep))
            && (AnswerOf(frame) != Rtn && (f.lastPage || AnswerOf(frame) == NoResult) ==>
                  g.main.WaitSendDcn? && g.mod == WaitConnect && g.pendingMod == FTH)
  {
    hide Step, Inv, FinishMcf, Left, Fits, BeginsPage, DcsFor;
    if |frame| < 3 {
      ShortIgnored(f, frame);
      return;
    }
    HearsIs(f, frame);
    StepKeeps(f, Received(frame));
    var h := Step(f, Received(frame));
    McfEndsStep(h, prep);
    ModemLeaves(h);
    var l := h.(mod := ModIdle);
    SamePageBegins(f, l, FinishMcf(l, prep), prep);
    if h.result == Mcf && !f.lastPage {
      McfFollows(l, prep);
    } else if h.result == Rtp && !f.lastPage {
      RtpFollows(l, prep);
    } else if h.result != Rtn {
      EndFollows(l, prep);
    }
  }

  lemma SamePageBegins(f: Fax, h: Fax, g: Fax, prep: Prep)
    requires Same(f, h) && h.dataLast == f.dataLast
    ensures BeginsPage(h, g, prep) ==> BeginsPage(f, g, prep)
  {
    hide Content, Flat;
  }
}
