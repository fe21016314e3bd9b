/**
 What every run of a fax session guarantees: the modem is in the mode the call works in, page
 bytes are neither lost nor reordered, and the rate only goes down.
 */
module FaxTheorems {
  import opened Basics
  import opened FaxSpec
  import opened FaxInvariant
  import opened FaxRuns

  // ----- runs -------------------------------------------------------------------------------

  /** A session as it is created. */
  predicate Initial(f: Fax) {
    && f.main.Idle? && f.mod.ModNull?
    && f.pendingMod == f.pendingRate == f.currentMod == f.currentRate == f.rateIdx == -1
    && f.peerRates == 0 && f.tried == []
    && f.downq == f.pageq == f.saveq == [] && f.pageSkb.None?
    && !f.dataBusy && !f.dataReady && !f.dataLast && !f.sentTis && !f.lastPage
    && f.result == NoResult && f.pageRetry == 0
    && f.sent == [] && f.confirmed == 0 && f.handed == [] && f.collected == []
  }

  lemma {:induction false} NoPeerNoRate(f: Fax, i: int)
    requires f.peerRates == 0
    ensures Common(f, i) == []
    decreases if i < 0 then 0 else i + 1
  {
    if i >= 0 {
      assert 0 / Pow2(i) == 0;
      NoPeerNoRate(f, i - 1);
    }
  }

  lemma InitialInv(f: Fax)
    requires Initial(f)
    ensures Inv(f)
  {
    NoPeerNoRate(f, f.rateIdx - 1);
    NoPeerNoRate(f, MAX_RATE_IDX);
    hide Common;
  }

  /** g is reached from f by the events of run, all of them allowed when they happen. */
  ghost predicate Reaches(f: Fax, run: seq<Input>, g: Fax)
    decreases |run|
  {
    if run == [] then g == f
    else Allowed(f, run[0]) && Reaches(Step(f, run[0]), run[1..], g)
  }

  lemma {:induction false} RunKeeps(f: Fax, run: seq<Input>, g: Fax)
    requires Inv(f) && Reaches(f, run, g)
    ensures Inv(g)
    decreases |run|
  {
    hide Inv, Step, Allowed;
    if run != [] {
      StepKeeps(f, run[0]);
      RunKeeps(Step(f, run[0]), run[1..], g);
    }
  }

  // ----- the two machines -------------------------------------------------------------------

  /** A sending or receiving call has a modem that is connected in the matching mode and rate, and
      a modem that is being connected has been given a mode and a rate. */
  lemma ModemInEveryRun(f: Fax, run: seq<Input>, g: Fax)
    requires Initial(f) && Reaches(f, run, g)
    ensures g.main.RecvDis? || g.main.RecvTrainState? || g.main.RecvMcf? ==>
              g.mod.Connected? && g.currentMod == FRH && g.currentRate == HDLC_RATE
    ensures g.main.SendDcs? || g.main.SendEop? ==>
              g.mod.Connected? && g.currentMod == FTH && g.currentRate == HDLC_RATE
    ensures g.main.SendTrain? || g.main.SendPage? ==>
              && g.mod.Connected? && g.currentMod == FTM && ValidRate(g, g.rateIdx)
              && g.currentRate == (if g.main.SendTrain? then TRAIN_RATES else PAGE_RATES)[g.rateIdx]
    ensures g.mod.WaitConnect? ==>
              g.pendingMod in {FRH, FTM, FTH} && g.pendingRate >= HDLC_RATE
    ensures !g.main.SendDcn? && !g.main.Clearing? && !g.main.WaitPageState? && !g.main.RecvPageState?
  {
    hide Common, PipeOk, PageOk, Reaches;
    InitialInv(f);
    RunKeeps(f, run, g);
  }

  // ----- the page ---------------------------------------------------------------------------

  /** The bytes of the pieces, in order. */
  function Content(ps: seq<Piece>): seq<byte> {
    if ps == [] then [] else Content(ps[..|ps| - 1]) + ps[|ps| - 1].bytes
  }

  /** Everything the parser yields is collected, in order, and nothing else. */
  lemma {:induction false} CollectsContent(f: Fax, ps: seq<Piece>)
    requires PageOk(f) && forall k | 0 <= k < |ps| :: |ps[k].bytes| <= PAGE_SKB_LEN
    ensures CollectAll(f, ps).collected == f.collected + Content(ps)
    decreases |ps|
  {
    hide PageOk, Collect;
    if ps == [] {
      assert f.collected + [] == f.collected;
    } else {
      var n := |ps| - 1;
      CollectsContent(f, ps[..n]);
      CollectAllKeeps(f, ps[..n]);
      CollectKeeps(CollectAll(f, ps[..n]), ps[n]);
    }
  }

  lemma {:induction false} FlatZeros(n: nat, rest: seq<Frame>)
    ensures Flat([Zeros(n)] + rest) == Zeros(n) + Flat(rest)
  {
    FlatConcat([Zeros(n)], rest);
    FlatOne([], Zeros(n));
  }

  /** While a page is sent, what went down for it, what waits in the pipe, what waits in the page
      queue and what is still in the buffer are together the preamble and everything collected. At
      most one frame is unconfirmed, and the saved copy with the buffer is the whole page. */
  lemma PageInEveryRun(f: Fax, run: seq<Input>, g: Fax)
    requires Initial(f) && Reaches(f, run, g)
    ensures g.main.SendPage? ==>
              && g.mark <= |g.sent| + |g.downq|
              && Flat((g.sent + g.downq)[g.mark..]) + Flat(g.pageq) + Skb(g) == Zeros(g.preamble) + g.collected
    ensures g.confirmed <= |g.sent| <= g.confirmed + 1 && (g.downq != [] ==> |g.sent| == g.confirmed + 1)
    ensures Flat(g.saveq) + Skb(g) == g.collected
  {
    hide Common, Reaches, Zeros, RateOk, ModemOk, Flat;
    InitialInv(f);
    RunKeeps(f, run, g);
    if g.main.SendPage? {
      FlatZeros(g.preamble, g.handed);
      FlatConcat(g.handed, g.pageq);
      calc {
        Flat((g.sent + g.downq)[g.mark..]) + Flat(g.pageq) + Skb(g);
        Zeros(g.preamble) + Flat(g.handed) + Flat(g.pageq) + Skb(g);
        { assert Zeros(g.preamble) + Flat(g.handed) + Flat(g.pageq) + Skb(g)
              == Zeros(g.preamble) + (Flat(g.handed) + Flat(g.pageq) + Skb(g)); }
        Zeros(g.preamble) + g.collected;
      }
    }
  }

  lemma RtnEnds(f: Fax)
    requires f.pageRetry >= 4
    ensures AfterRtn(f) == f.(pageRetry := f.pageRetry + 1, main := WaitSendDcn)
  {
    hide FallbackRate, ValidRate, CopyForRetry, FillDcs;
  }

  lemma RtnTakes(f: Fax, k: Fax)
    requires f.pageRetry < 4 && k == FallbackRate(f.(pageRetry := f.pageRetry + 1))
    ensures AfterRtn(f) == if ValidRate(k, k.rateIdx) then CopyForRetry(FillDcs(k)).(main := WaitSendDcs)
                           else k.(main := WaitSendDcn)
  {
    hide FallbackRate, ValidRate, CopyForRetry, FillDcs;
  }

  lemma QueuedAgain(k: Fax)
    ensures CopyForRetry(FillDcs(k)).(main := WaitSendDcs)
         == k.(main := WaitSendDcs, dcs := DcsFor(k.rateIdx), pageq := k.saveq, handed := [])
  {
    hide DcsFor;
  }

  lemma RtnFalls(f: Fax, r: int)
    requires f.pageRetry < 4 && f.rateIdx >= 0 && 0 <= r == BestRate(f, f.rateIdx - 1)
    ensures AfterRtn(f) == f.(pageRetry := f.pageRetry + 1, main := WaitSendDcs, rateIdx := r, tried := f.tried + [r],
                              dcs := DcsFor(r), pageq := f.saveq, handed := [])
  {
    hide ValidRate, DcsFor, BestRate, FallbackRate, AfterRtn, FillDcs, CopyForRetry;
    var h := f.(pageRetry := f.pageRetry + 1);
    BestFrameAt(f, h, f.rateIdx - 1);
    FallbackEquals(h);
    var k := FallbackRate(h);
    RtnTakes(f, k);
    QueuedAgain(k);
  }

  lemma RtnGivesUp(f: Fax)
    requires f.pageRetry < 4 && f.rateIdx >= 0 && BestRate(f, f.rateIdx - 1) < 0
    ensures AfterRtn(f) == f.(pageRetry := f.pageRetry + 1, main := WaitSendDcn, rateIdx := -1)
  {
    hide ValidRate, DcsFor, BestRate, FallbackRate;
    var h := f.(pageRetry := f.pageRetry + 1);
    BestFrameAt(f, h, f.rateIdx - 1);
    FallbackEquals(h);
  }

  lemma RtnIs(f: Fax, r: int)
    requires f.rateIdx >= 0 && r == BestRate(f, f.rateIdx - 1)
    ensures var h := f.(pageRetry := f.pageRetry + 1);
            && (f.pageRetry >= 4 ==> AfterRtn(f) == h.(main := WaitSendDcn))
            && (f.pageRetry < 4 && r >= 0 ==>
                  AfterRtn(f) == h.(main := WaitSendDcs, rateIdx := r, tried := f.tried + [r],
                                    dcs := DcsFor(r), pageq := f.saveq, handed := []))
            && (f.pageRetry < 4 && r < 0 ==> AfterRtn(f) == h.(main := WaitSendDcn, rateIdx := -1))
  {
    hide DcsFor, BestRate, AfterRtn;
    if f.pageRetry >= 4 {
      RtnEnds(f);
    } else if r >= 0 {
      RtnFalls(f, r);
    } else {
      RtnGivesUp(f);
    }
  }

  lemma FallbackEquals(h: Fax)
    requires h.rateIdx >= 0
    ensures var r := BestRate(h, h.rateIdx - 1);
            && (r >= 0 ==> FallbackRate(h) == h.(rateIdx := r, tried := h.tried + [r]))
            && (r < 0 ==> FallbackRate(h) == h.(rateIdx := -1))
            && (ValidRate(FallbackRate(h), FallbackRate(h).rateIdx) <==> r >= 0)
  {
    hide BestRate, HasBit;
  }

  lemma RtnStep(f: Fax, prep: Prep)
    requires f.main.RecvMcf? && f.mod.Connected? && f.result == Rtn
    ensures Step(f, NoCarrier(prep)) == RequestModulation(AfterRtn(f.(mod := ModIdle)), FTH, HDLC_RATE)
  {
    hide AfterRtn, RequestModulation;
  }

  /** A negative answer to the page queues the saved frames again at the next lower rate, or ends the
      call. What is still in the buffer is not among them. */
  lemma RetryQueues(f: Fax, prep: Prep)
    requires Inv(f) && f.main.RecvMcf? && f.result == Rtn
    ensures var g := Step(f, NoCarrier(prep));
            && g.collected == f.collected && g.saveq == f.saveq
            && (g.main.WaitSendDcs? || g.main.WaitSendDcn?)
            && (g.main.WaitSendDcs? <==> f.pageRetry < 4 && BestRate(f, f.rateIdx - 1) >= 0)
            && (g.main.WaitSendDcs? ==>
                  && g.handed == [] && g.pageq == f.saveq && g.rateIdx == BestRate(f, f.rateIdx - 1) < f.rateIdx
                  && Flat(g.pageq) + Skb(g) == f.collected && Skb(g) == Skb(f) && g.pageRetry == f.pageRetry + 1)
  {
    hide Common, PipeOk, Flat, HasBit, DcsFor, RateFor, AfterRtn, RequestModulation, PageOk, BestRate, Step;
    InvParts(f);
    SavedIsPage(f);
    var h := f.(mod := ModIdle);
    BestFrameAt(f, h, f.rateIdx - 1);
    RtnIs(h, BestRate(h, h.rateIdx - 1));
    var k := AfterRtn(h);
    RtnStep(f, prep);
    RequestIs(k, FTH, HDLC_RATE);
  }

  lemma SavedIsPage(f: Fax)
    requires PageOk(f)
    ensures Flat(f.saveq) + Skb(f) == f.collected
  {
  }

  // ----- the rates --------------------------------------------------------------------------

  /** The common rates, each once, in descending order. */
  lemma {:induction false} CommonIsDescending(f: Fax, i: int)
    requires i <= MAX_RATE_IDX
    ensures var c := Common(f, i);
            && (forall r :: r in c <==> r <= i && ValidRate(f, r))
            && (forall j, k | 0 <= j < k < |c| :: c[j] > c[k])
            && |c| <= (if i < 0 then 0 else i + 1)
    decreases if i < 0 then 0 else i + 1
  {
    hide HasBit;
    if i >= 0 {
      CommonIsDescending(f, i - 1);
      var rest := Common(f, i - 1);
      assert forall k | 0 <= k < |rest| :: rest[k] in rest;
    }
  }

  /** The rates tried since the last DIS are the common rates from the best one down to the current
      one, in descending order; when there is no rate left they are all the common rates. The DCS about
      to be sent announces the current one. */
  lemma RatesInEveryRun(f: Fax, run: seq<Input>, g: Fax)
    requires Initial(f) && Reaches(f, run, g)
    ensures g.tried <= Common(g, MAX_RATE_IDX) && |g.tried| <= 8
    ensures forall j, k | 0 <= j < k < |g.tried| :: g.tried[j] > g.tried[k]
    ensures forall r :: r in g.tried <==> ValidRate(g, r) && r >= g.rateIdx
    ensures Negotiated(g.main) ==> ValidRate(g, g.rateIdx) && g.rateIdx == g.tried[|g.tried| - 1]
    ensures g.main.WaitSendDcs? ==> g.dcs == DcsFor(g.rateIdx)
  {
    hide Common, Reaches, HasBit, PipeOk, PageOk, ModemOk;
    InitialInv(f);
    RunKeeps(f, run, g);
    var c := Common(g, MAX_RATE_IDX);
    CommonIsDescending(g, MAX_RATE_IDX);
    CommonIsDescending(g, g.rateIdx - 1);
    assert g.tried == c[..|g.tried|];
    TriedAre(g, c);
  }

  lemma TriedAre(g: Fax, c: seq<int>)
    requires g.tried + Common(g, g.rateIdx - 1) == c && -1 <= g.rateIdx <= MAX_RATE_IDX
    requires forall r :: r in c <==> r <= MAX_RATE_IDX && ValidRate(g, r)
    requires forall j, k | 0 <= j < k < |c| :: c[j] > c[k]
    requires forall r :: r in Common(g, g.rateIdx - 1) <==> r <= g.rateIdx - 1 && ValidRate(g, r)
    requires g.rateIdx >= 0 ==> g.tried != [] && g.tried[|g.tried| - 1] == g.rateIdx
    ensures forall r :: r in g.tried <==> ValidRate(g, r) && r >= g.rateIdx
  {
    hide Common, HasBit;
    var n := |g.tried|;
    forall r
      ensures r in g.tried <==> ValidRate(g, r) && r >= g.rateIdx
    {
      if r in g.tried {
        var j :| 0 <= j < n && g.tried[j] == r;
        assert c[j] == r;
        assert r in c;
        if g.rateIdx >= 0 && j < n - 1 {
          assert c[j] > c[n - 1] == g.rateIdx;
        }
      } else {
        assert r in c ==> r in Common(g, g.rateIdx - 1);
      }
    }
  }
}
