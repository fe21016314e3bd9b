/**
 What a retry after RTN sends: the frames saved for the page, which are the page exactly when nothing
 of it is left in the buffer.
 */
module FaxRetry {
  import opened FaxSpec
  import opened FaxInvariant
  import opened FaxRuns
  import opened FaxTheorems
  import opened FaxRates

  /** A page whose queues have run empty: the saved frames have been sent after the preamble, and they
      are everything collected exactly when the buffer is empty. */
  lemma PageSent(s: Fax)
    requires Inv(s) && s.main.SendPage? && s.pageq == [] && s.downq == []
    ensures s.mark <= |s.sent|
    ensures Flat(s.sent[s.mark..]) == Zeros(s.preamble) + Flat(s.saveq)
    ensures Flat(s.sent[s.mark..]) == Zeros(s.preamble) + s.collected <==> Skb(s) == []
  {
    hide RateOk, ModemOk, Flat, Zeros;
    assert s.sent + s.downq == s.sent && s.handed + s.pageq == s.handed;
    FlatZeros(s.preamble, s.handed);
    var zeros, saved, rest := Zeros(s.preamble), Flat(s.saveq), Skb(s);
    assert s.collected == saved + rest;
    if rest == [] {
      assert saved + rest == saved;
    } else {
      assert |zeros + saved| != |zeros + (saved + rest)|;
    }
  }

  // ----- a page does not change while it is retried -----------------------------------------

  /** Bytes are only added to the page, and if none are, frames and buffer stay as they are. */
  predicate Grows(f: Fax, g: Fax) {
    && f.collected <= g.collected
    && (g.collected == f.collected ==> g.saveq == f.saveq && g.pageSkb == f.pageSkb)
  }

  /** The application hands over no empty pieces. */
  predicate HasBytes(i: Input) {
    i.DataB3? ==> forall k | 0 <= k < |i.prep.pieces| :: i.prep.pieces[k].bytes != []
  }

  lemma SamePageGrows(f: Fax, g: Fax)
    requires SamePage(f, g)
    ensures Grows(f, g)
  {
  }

  lemma PrepareGrows(f: Fax, prep: Prep)
    requires PageOk(f) && Fits(prep) && HasBytes(DataB3(prep))
    ensures Grows(f, Prepare(f, prep))
  {
    hide PageOk, CollectAll, Content;
    CollectsContent(f, prep.pieces);
    if prep.pieces == [] {
      NothingCollected(f);
    } else {
      ContentGrows(prep.pieces);
    }
  }

  lemma NothingCollected(f: Fax)
    ensures CollectAll(f, []) == f
  {
  }

  lemma ContentGrows(ps: seq<Piece>)
    requires ps != [] && forall k | 0 <= k < |ps| :: ps[k].bytes != []
    ensures Content(ps) != []
  {
    assert ps[|ps| - 1].bytes != [];
  }

  lemma HandKeepsPage(g: Fax, prep: Prep)
    requires PipeOk(g) && PageOk(g) && g.main.SendPage? && g.pageRetry > 0
    ensures SamePage(g, SendNextPageData(g, prep))
  {
    hide PipeOk, PageOk, HandPage, HandAllPages;
    HandAllKeeps(g);
    if g.pageq != [] {
      HandPageKeeps(g);
    }
  }

  /** While a page is retried a confirmed frame takes nothing new into it. */
  lemma ConfirmGrows(f: Fax, prep: Prep)
    requires Inv(f) && f.pageRetry > 0
    ensures SamePage(f, Confirms(f, prep))
  {
    hide PipeOk, PageOk, RateOk, ModemOk, Confirms, SendNextPageData;
    ConfirmsIs(f, prep);
    if !OnlyQueues(f, Confirms(f, prep)) {
      ConfirmedPipe(f);
      HandKeepsPage(f.(confirmed := f.confirmed + 1, dataBusy := false), prep);
    }
  }

  lemma DisGrows(f: Fax)
    ensures Grows(f, FinishDis(f))
  {
    hide RequestModulation, BestRate, DcsFor, PeerRatesOf;
    RequestSteady(FillDcs(Rated(f)).(main := WaitSendDcs), FTH, HDLC_RATE);
  }

  lemma FallbackKeepsPage(f: Fax)
    ensures var g := FallbackRate(f); g == f.(rateIdx := g.rateIdx, tried := g.tried)
    ensures SamePage(f, FillDcs(FallbackRate(f)))
  {
    hide BestRate, DcsFor;
  }

  lemma TrainStateIs(f: Fax, e: Fax)
    requires e == f.(pendingMod := FTH, pendingRate := HDLC_RATE)
    ensures var g := FinishTrainState(f);
            || g == f.(main := g.main)
            || g == FallbackRate(e).(main := g.main)
            || g == FillDcs(FallbackRate(e)).(main := g.main)
  {
    hide FallbackRate, ValidRate, FillDcs;
  }

  lemma TrainStateGrows(f: Fax)
    ensures Grows(f, FinishTrainState(f))
  {
    hide FinishTrainState, FallbackRate, FillDcs;
    var e := f.(pendingMod := FTH, pendingRate := HDLC_RATE);
    TrainStateIs(f, e);
    FallbackKeepsPage(e);
  }

  lemma RtnGrows(f: Fax)
    requires f.rateIdx >= 0
    ensures Grows(f, AfterRtn(f))
  {
    hide BestRate, AfterRtn, DcsFor;
    RtnIs(f, BestRate(f, f.rateIdx - 1));
  }

  lemma NewPageStarts(f: Fax, prep: Prep)
    requires Left(f) && f.main.RecvMcf? && Fits(prep)
    ensures Prepare(InitNewPage(f), prep).pageRetry == 0
  {
    hide Common, HasBit, DcsFor, PipeOk, PageOk, RateOk, Prepare, Fits;
    InitKeeps(f);
    PrepareKeeps(InitNewPage(f), prep);
  }

  lemma McfGrows(f: Fax, prep: Prep)
    requires Left(f) && f.main.RecvMcf? && Fits(prep) && FinishMcf(f, prep).pageRetry > 0
    ensures Grows(f, FinishMcf(f, prep))
  {
    hide Common, HasBit, DcsFor, PipeOk, PageOk, BestRate, AfterRtn, Prepare, RequestModulation, Fits, InitNewPage;
    if f.result == Rtn {
      RtnGrows(f);
      RequestSteady(AfterRtn(f), FTH, HDLC_RATE);
    } else if (f.result == Rtp || f.result == Mcf) && !f.lastPage {
      NewPageStarts(f, prep);
      RequestSteady(AfterRtp(f, prep), FTH, HDLC_RATE);
    } else {
      RequestSteady(f.(main := WaitSendDcn), FTH, HDLC_RATE);
    }
  }

  lemma IdleGrows(f: Fax, prep: Prep)
    requires Left(f) && Fits(prep) && MainStep(f, ModemIdle, Arg([], prep)).pageRetry > 0
    ensures Grows(f, MainStep(f, ModemIdle, Arg([], prep)))
  {
    hide FinishDis, FinishTrainState, FinishMcf, RateOk, PipeOk, PageOk, Fits, Grows, Steady;
    if f.main.RecvDis? {
      DisGrows(f);
    } else if f.main.RecvTrainState? {
      TrainStateGrows(f);
    } else if f.main.RecvMcf? {
      McfGrows(f, prep);
    } else {
      IdleSteady(f, prep);
      SamePageGrows(f, MainStep(f, ModemIdle, Arg([], prep)));
    }
  }

  lemma ModGrows(f: Fax, g: Fax)
    requires Grows(f.(mod := ModIdle), g)
    ensures Grows(f, g)
  {
  }

  lemma StepGrows(f: Fax, i: Input)
    requires Inv(f) && Allowed(f, i) && HasBytes(i) && f.pageRetry > 0 && Step(f, i).pageRetry > 0
    ensures Grows(f, Step(f, i))
  {
    hide Inv, Connects, Confirms, Prepare, MainStep, StartCall, SetNewModulation, Fits, Left, Grows, HasBytes, Steady;
    match i
    case NoCarrier(prep) =>
      if Transferring(f.main) {
        ModemLeaves(f);
        IdleGrows(f.(mod := ModIdle), prep);
        ModGrows(f, MainStep(f.(mod := ModIdle), ModemIdle, Arg([], prep)));
      } else {
        NotTransferring(f, prep);
        SamePageGrows(f, Disconnects(f, prep));
      }
    case Connect =>
      ConnectSteady(f);
      SamePageGrows(f, Connects(f));
    case Confirmed(prep) =>
      ConfirmGrows(f, prep);
      SamePageGrows(f, Confirms(f, prep));
    case DataB3(prep) =>
      InvParts(f);
      PrepareGrows(f, prep);
    case _ =>
      OtherSteady(f, i);
      SamePageGrows(f, Step(f, i));
  }

  // ----- runs -------------------------------------------------------------------------------

  /** In every state of the run the same page is being retried: no new one has begun. */
  ghost predicate Retrying(f: Fax, run: seq<Input>)
    decreases |run|
  {
    f.pageRetry > 0 && (run != [] ==> Retrying(Step(f, run[0]), run[1..]))
  }

  predicate AllHaveBytes(run: seq<Input>) {
    forall k | 0 <= k < |run| :: HasBytes(run[k])
  }

  lemma GrowsTransitive(f: Fax, g: Fax, h: Fax)
    requires Grows(f, g) && Grows(g, h)
    ensures Grows(f, h)
  {
    if h.collected == f.collected {
      assert |f.collected| <= |g.collected| <= |h.collected|;
      assert g.collected == f.collected;
    }
  }

  lemma {:induction false} RunGrows(f: Fax, run: seq<Input>, g: Fax)
    requires Inv(f) && Reaches(f, run, g) && Retrying(f, run) && AllHaveBytes(run)
    ensures Grows(f, g)
    decreases |run|
  {
    hide Inv, Step, Allowed, Grows, HasBytes;
    if run == [] {
      SamePageGrows(f, g);
    } else {
      var h := Step(f, run[0]);
      StepGrows(f, run[0]);
      StepKeeps(f, run[0]);
      RunGrows(h, run[1..], g);
      GrowsTransitive(f, h, g);
    }
  }

  /** A retry after RTN, followed until its queues have run empty with no more bytes collected, has sent
      the preamble and exactly the frames saved when the RTN came. That is the page if and only if
      nothing was left in the buffer then. */
  lemma RetrySends(f: Fax, prep: Prep, run: seq<Input>, s: Fax)
    requires Inv(f) && f.main.RecvMcf? && f.result == Rtn && Fits(prep)
    requires Step(f, NoCarrier(prep)).main.WaitSendDcs?
    requires Reaches(Step(f, NoCarrier(prep)), run, s)
    requires Retrying(Step(f, NoCarrier(prep)), run) && AllHaveBytes(run)
    requires s.main.SendPage? && s.collected == f.collected && s.pageq == [] && s.downq == []
    ensures s.mark <= |s.sent|
    ensures Flat(s.sent[s.mark..]) == Zeros(s.preamble) + Flat(f.saveq)
    ensures Flat(s.sent[s.mark..]) == Zeros(s.preamble) + f.collected <==> Skb(f) == []
  {
    hide Inv, Step, Reaches, Retrying, AllHaveBytes, Flat, Zeros, BestRate;
    var g := Step(f, NoCarrier(prep));
    StepKeeps(f, NoCarrier(prep));
    RetryQueues(f, prep);
    RunKeeps(g, run, s);
    RunGrows(g, run, s);
    PageSent(s);
  }
}
