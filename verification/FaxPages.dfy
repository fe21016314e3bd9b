/**
 How a page leaves: what each confirmed frame sends next, when the page's end is told, and what becomes
 of data that comes late.
 */
module FaxPages {
  import opened FaxSpec
  import opened FaxInvariant
  import opened FaxRuns
  import opened FaxTheorems
  import opened FaxRates
  import opened FaxRetry
  import opened FaxAnswers

  // ----- the end of a page ------------------------------------------------------------------

  lemma FlushEmpties(f: Fax, p: Piece)
    requires p.flush
    ensures Collect(f, p).pageSkb.None?
  {
    hide Append;
  }

  /** A page whose last piece is flushed is in the saved frames to the last byte, so a retry sends all of
      it. */
  lemma EndedPageIsSaved(f: Fax, prep: Prep)
    requires PageOk(f) && Fits(prep) && prep.pieces != [] && prep.pieces[|prep.pieces| - 1].flush
    ensures var g := Prepare(f, prep);
            g.pageSkb.None? && Flat(g.saveq) == g.collected == f.collected + Content(prep.pieces)
  {
    hide Collect, Content, Flat, Fits;
    var n := |prep.pieces| - 1;
    PreparedPage(f, prep);
    FlushEmpties(CollectAll(f, prep.pieces[..n]), prep.pieces[n]);
    var g := Prepare(f, prep);
    assert Flat(g.saveq) + [] == Flat(g.saveq);
  }

  // ----- the next frame ---------------------------------------------------------------------

  /** What the parser yields has been collected, and its first frame sent if there is one. */
  predicate Asked(f: Fax, g: Fax, prep: Prep) {
    && g.collected == f.collected + Content(prep.pieces) && f.saveq <= g.saveq
    && g.dataLast == (prep.pageEnd || prep.docEnd) && g.lastPage == (f.lastPage || prep.docEnd)
    && (if |g.saveq| == |f.saveq| then g.sent == f.sent && !g.dataBusy
        else g.sent == f.sent + [g.saveq[|f.saveq|]] && g.dataBusy && g.downq == [])
  }

  /** Nothing of the page is queued: the parser is asked for more, unless the page's end is known or the
      page is sent again. */
  lemma AsksForMore(h: Fax, prep: Prep)
    requires PipeOk(h) && PageOk(h) && h.main.SendPage? && Fits(prep) && h.pageq == [] && h.downq == [] && !h.dataBusy
    ensures var g := SendNextPageData(h, prep);
            if h.dataLast || h.pageRetry > 0 then g == h.(dataLast := false)
            else Asked(h, g, prep)
  {
    hide Prepare, HandAllPages, Content, Flat, Fits, Zeros;
    if !h.dataLast && h.pageRetry == 0 {
      PreparedPage(h, prep);
      var g := Prepare(h, prep);
      assert h.handed + [] == h.handed == h.saveq;
      assert g.saveq == h.saveq + g.pageq;
    }
  }

  lemma Unfold(a: seq<Frame>, b: seq<Frame>)
    requires b != []
    ensures a + [b[0]] + b[1..] == a + b
  {
  }

  lemma {:induction false} HandsAll(h: Fax)
    requires !h.dataBusy ==> h.downq == []
    ensures var g := HandAllPages(h); g.pageq == [] && g.sent + g.downq == h.sent + h.downq + h.pageq
    decreases |h.pageq|
  {
    hide SendDown;
    if h.pageq == [] {
      assert h.sent + h.downq + [] == h.sent + h.downq;
    } else {
      var x := h.pageq[0];
      SendQueues(h.(pageq := h.pageq[1..], handed := h.handed + [x]), x);
      HandsAll(HandPage(h));
      Unfold(h.sent + h.downq, h.pageq);
    }
  }

  /** What is queued of a page goes to the pipe in order: all of it once the page's end is known, and
      otherwise the first frame. */
  lemma HandsOn(h: Fax, prep: Prep)
    requires PipeOk(h) && PageOk(h) && h.main.SendPage? && h.pageq != [] && (h.dataLast || h.pageRetry > 0)
    ensures var g := SendNextPageData(h, prep);
            g.sent + g.downq == h.sent + h.downq + if h.dataLast then h.pageq else [h.pageq[0]]
  {
    hide Flat, Zeros, Prepare, HandAllPages;
    if h.dataLast {
      HandsAll(h);
    } else {
      SendQueues(h.(pageq := h.pageq[1..], handed := h.handed + [h.pageq[0]]), h.pageq[0]);
    }
  }

  /** What a confirmed frame of a page leads to: the next frame of the pipe, then the next one of the page,
      then whatever the parser yields, until the page's end is known. */
  lemma ConfirmedInPage(f: Fax, prep: Prep)
    requires Inv(f) && f.main.SendPage? && f.dataBusy && Fits(prep)
    ensures var g := Step(f, Confirmed(prep));
            if f.downq != [] then
              g == f.(confirmed := f.confirmed + 1, sent := f.sent + [f.downq[0]], downq := f.downq[1..])
            else if f.pageq != [] then
              g == f.(confirmed := f.confirmed + 1, sent := f.sent + [f.pageq[0]], pageq := f.pageq[1..],
                      handed := f.handed + [f.pageq[0]])
            else if f.dataLast || f.pageRetry > 0 then
              g == f.(confirmed := f.confirmed + 1, dataBusy := false, dataLast := false)
            else Asked(f, g, prep)
  {
    hide Inv, Step, Asked, Fits;
    if f.downq != [] {
      PipeFirst(f, prep);
    } else if f.pageq != [] {
      InvParts(f);
      PageNext(f, prep);
    } else {
      LastConfirmed(f, prep);
    }
  }

  lemma LastConfirmed(f: Fax, prep: Prep)
    requires Inv(f) && f.main.SendPage? && f.dataBusy && Fits(prep) && f.downq == [] && f.pageq == []
    ensures var g := Step(f, Confirmed(prep));
            if f.dataLast || f.pageRetry > 0 then g == f.(confirmed := f.confirmed + 1, dataBusy := false, dataLast := false)
            else Asked(f, g, prep)
  {
    hide SendNextPageData, Content, Fits, Inv, Step;
    InvParts(f);
    PageNext(f, prep);
    ConfirmedPipe(f);
    AsksForMore(f.(confirmed := f.confirmed + 1, dataBusy := false), prep);
  }

  lemma PipeFirst(f: Fax, prep: Prep)
    requires f.dataBusy && f.downq != []
    ensures Step(f, Confirmed(prep))
            == f.(confirmed := f.confirmed + 1, sent := f.sent + [f.downq[0]], downq := f.downq[1..])
  {
    hide MainStep;
  }

  lemma PageNext(f: Fax, prep: Prep)
    requires PipeOk(f) && f.main.SendPage? && f.dataBusy && f.downq == []
    ensures Step(f, Confirmed(prep)) ==
            if f.pageq == [] then SendNextPageData(f.(confirmed := f.confirmed + 1, dataBusy := false), prep)
            else f.(confirmed := f.confirmed + 1, sent := f.sent + [f.pageq[0]], pageq := f.pageq[1..],
                    handed := f.handed + [f.pageq[0]])
  {
    hide MainStep, SendNextPageData, Zeros;
    NextPageIs(f.(confirmed := f.confirmed + 1, dataBusy := false), prep);
  }

  /** Outside a page a confirmed frame sends the next one that waits; after the last one of a DCS, a
      training or an end of page the modem is told that there is no more. */
  lemma ConfirmedOutsidePage(f: Fax, prep: Prep)
    requires Inv(f) && !f.main.SendPage? && f.dataBusy
    ensures var g := Step(f, Confirmed(prep));
            if f.downq != [] then
              g == f.(confirmed := f.confirmed + 1, sent := f.sent + [f.downq[0]], downq := f.downq[1..])
            else if f.main.SendDcs? || f.main.SendTrain? || f.main.SendEop? then
              g == f.(confirmed := f.confirmed + 1, dataBusy := false, dataLast := false)
            else g == f.(confirmed := f.confirmed + 1, dataBusy := false)
  {
    hide RateOk, PageOk, MainStep, Flat, Zeros;
    var h := f.(confirmed := f.confirmed + 1, dataBusy := false);
    NoMore(h, prep);
  }

  lemma NoMore(h: Fax, prep: Prep)
    requires !h.main.SendPage? && !h.main.SendDcn?
    ensures MainStep(h, NextData, Arg([], prep))
            == if h.main.SendDcs? || h.main.SendTrain? || h.main.SendEop? then h.(dataLast := false) else h
  {
  }

  // ----- all of it leaves -------------------------------------------------------------------

  function Pending(f: Fax): nat {
    if f.dataBusy then 1 + |f.downq| + |f.pageq| else 0
  }

  /** A run of confirmations without more data. */
  function Confirmations(n: nat): seq<Input> {
    seq(n, _ => Confirmed(NoPrep()))
  }

  lemma ConfirmationSends(f: Fax)
    requires Inv(f) && f.main.SendPage? && f.dataBusy
    ensures var g := Step(f, Confirmed(NoPrep()));
            && g.main.SendPage? && g.saveq == f.saveq && g.collected == f.collected && g.mark == f.mark && g.preamble == f.preamble
            && (g.dataBusy ==> Pending(g) < Pending(f)) && (!g.dataBusy ==> g.pageq == [] && g.downq == [])
  {
    hide Step, Content, Inv;
    if f.downq == [] && f.pageq == [] && !f.dataLast && f.pageRetry == 0 {
      NothingMore(f);
    } else {
      ConfirmedInPage(f, NoPrep());
    }
  }

  /** The parser has nothing more. */
  lemma NothingMore(f: Fax)
    requires Inv(f) && f.main.SendPage? && f.dataBusy && f.downq == [] && f.pageq == [] && !f.dataLast && f.pageRetry == 0
    ensures Step(f, Confirmed(NoPrep())) == f.(confirmed := f.confirmed + 1, dataBusy := false)
  {
    hide Step, CollectAll, Inv;
    InvParts(f);
    PageNext(f, NoPrep());
    NothingCollected(f.(confirmed := f.confirmed + 1, dataBusy := false));
  }

  /** As many confirmations as frames wait, and one, drain a page that is being sent: everything saved for
      it has then been given to the modem, in order, after the preamble. */
  lemma {:induction false} PageDrains(f: Fax) returns (n: nat, s: Fax)
    requires Inv(f) && f.main.SendPage? && f.dataBusy
    ensures n <= Pending(f) && Reaches(f, Confirmations(n), s)
    ensures s.main.SendPage? && s.pageq == [] && s.downq == [] && !s.dataBusy && s.saveq == f.saveq && s.mark <= |s.sent|
    ensures s.collected == f.collected && s.preamble == f.preamble
    ensures Flat(s.sent[s.mark..]) == Zeros(f.preamble) + Flat(f.saveq)
    decreases Pending(f)
  {
    hide Inv, Step, Flat, Zeros;
    var g := Step(f, Confirmed(NoPrep()));
    ConfirmationSends(f);
    StepKeeps(f, Confirmed(NoPrep()));
    if g.dataBusy {
      var m;
      m, s := PageDrains(g);
      n := m + 1;
      assert Confirmations(n)[1..] == Confirmations(m);
    } else {
      n, s := 1, g;
      assert Confirmations(1)[1..] == [];
      assert Reaches(g, [], g);
      PageSent(g);
    }
  }

  // ----- data that comes late ---------------------------------------------------------------

  /** Once the modem has taken everything while a page is being sent, only the end of the page's
      transmission leads on: new data is collected and queued, and not sent. */
  lemma LateDataWaits(f: Fax, i: Input)
    requires Inv(f) && Allowed(f, i) && f.main.SendPage? && !f.dataBusy && !i.NoCarrier?
    ensures var g := Step(f, i);
            && g.main.SendPage? && !g.dataBusy && g.sent == f.sent && g.downq == f.downq
            && (i.DataB3? ==> g.collected == f.collected + Content(i.prep.pieces))
  {
    hide Prepare, Content, Fits, RateOk, PageOk, Flat, Zeros;
    match i {
      case DataB3(prep) =>
        hide PipeOk, ModemOk;
        PreparedPage(f, prep);
      case _ =>
    }
  }

  /** In any run without that end nothing is given to the modem any more, whatever has been queued. */
  lemma {:induction false} Stalled(f: Fax, run: seq<Input>, g: Fax)
    requires Inv(f) && Reaches(f, run, g) && f.main.SendPage? && !f.dataBusy
    requires forall k | 0 <= k < |run| :: !run[k].NoCarrier?
    ensures g.main.SendPage? && !g.dataBusy && g.sent == f.sent
    decreases |run|
  {
    hide Inv, Step, Allowed, Content;
    if run != [] {
      LateDataWaits(f, run[0]);
      StepKeeps(f, run[0]);
      Stalled(Step(f, run[0]), run[1..], g);
    }
  }
}
