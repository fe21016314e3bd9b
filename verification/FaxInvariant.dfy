/**
 What holds in every run of a fax session.
 */
module FaxInvariant {
  import opened Basics
  import opened Fsm
  import opened FaxSpec

  /** The table as a list and as a function are the same table. */
  lemma TableIsList(s: MainState, e: MainEvent)
    ensures LastRoutine(MAIN_TABLE, s, e) == HandlerFor(s, e)
  {
    var r := HandlerFor(s, e);
    forall k | 0 <= k < |MAIN_TABLE|
      ensures HandlerFor(MAIN_TABLE[k].state, MAIN_TABLE[k].event) == Some(MAIN_TABLE[k].routine)
    {
      TableEntry(k);
    }
    TableFound(s, e);
    ListIsFunction(MAIN_TABLE, s, e, r);
  }

  lemma TableEntry(k: nat)
    requires k < |MAIN_TABLE|
    ensures HandlerFor(MAIN_TABLE[k].state, MAIN_TABLE[k].event) == Some(MAIN_TABLE[k].routine)
  {
  }

  /** Where in the list a handler is found. */
  function TablePosition(s: MainState, e: MainEvent): int {
    match (s, e)
    case (Idle, _) => 0
    case (WaitRecvDis, _) => 1
    case (RecvDis, Data) => 2
    case (RecvDis, _) => 3
    case (WaitSendDcs, _) => 4
    case (SendDcs, NextData) => 5
    case (SendDcs, _) => 6
    case (WaitSendTrain, DelayTimer) => 7
    case (WaitSendTrain, _) => 8
    case (SendTrain, ModemIdle) => 9
    case (SendTrain, _) => 10
    case (WaitTrainState, _) => 11
    case (RecvTrainState, Data) => 12
    case (RecvTrainState, _) => 13
    case (WaitSendPage, DelayTimer) => 14
    case (WaitSendPage, _) => 15
    case (SendPage, NextData) => 16
    case (SendPage, _) => 17
    case (WaitSendEop, _) => 18
    case (SendEop, NextData) => 19
    case (SendEop, _) => 20
    case (WaitRecvMcf, _) => 21
    case (RecvMcf, Data) => 22
    case (RecvMcf, _) => 23
    case (WaitSendDcn, _) => 24
    case (SendDcn, NextData) => 25
    case _ => 26
  }

  /** The states up to the training. */
  predicate Early(s: MainState) {
    s.Idle? || s.WaitRecvDis? || s.RecvDis? || s.WaitSendDcs? || s.SendDcs?
  }

  /** The states of the training. */
  predicate Middle(s: MainState) {
    s.WaitSendTrain? || s.SendTrain? || s.WaitTrainState? || s.RecvTrainState?
  }

  lemma TableFoundEarly(s: MainState, e: MainEvent)
    requires Early(s)
    ensures var k := TablePosition(s, e);
            && 0 <= k < |MAIN_TABLE|
            && (HandlerFor(s, e).Some? ==> MAIN_TABLE[k].state == s && MAIN_TABLE[k].event == e)
  {
  }

  lemma TableFoundMiddle(s: MainState, e: MainEvent)
    requires Middle(s)
    ensures var k := TablePosition(s, e);
            && 0 <= k < |MAIN_TABLE|
            && (HandlerFor(s, e).Some? ==> MAIN_TABLE[k].state == s && MAIN_TABLE[k].event == e)
  {
  }

  lemma TableFoundLate(s: MainState, e: MainEvent)
    requires !Early(s) && !Middle(s)
    ensures var k := TablePosition(s, e);
            && 0 <= k < |MAIN_TABLE|
            && (HandlerFor(s, e).Some? ==> MAIN_TABLE[k].state == s && MAIN_TABLE[k].event == e)
  {
  }

  lemma TableFound(s: MainState, e: MainEvent)
    ensures var k := TablePosition(s, e);
            && 0 <= k < |MAIN_TABLE|
            && (HandlerFor(s, e).Some? ==> MAIN_TABLE[k].state == s && MAIN_TABLE[k].event == e)
  {
    hide HandlerFor, TablePosition;
    if Early(s) {
      TableFoundEarly(s, e);
    } else if Middle(s) {
      TableFoundMiddle(s, e);
    } else {
      TableFoundLate(s, e);
    }
  }

  // ----- the two machines together ----------------------------------------------------------

  /** The call is sending or receiving. */
  predicate Transferring(s: MainState) {
    s.RecvDis? || s.SendDcs? || s.SendTrain? || s.RecvTrainState? || s.SendPage? || s.SendEop? || s.RecvMcf?
  }

  /** The call waits for the modem. */
  predicate Waiting(s: MainState) {
    || s.WaitRecvDis? || s.WaitSendDcs? || s.WaitSendTrain? || s.WaitTrainState?
    || s.WaitSendPage? || s.WaitSendEop? || s.WaitRecvMcf? || s.WaitSendDcn?
  }

  /** The modem mode a state works in or waits for. */
  function ModeFor(s: MainState): int {
    match s
    case RecvDis => FRH case WaitRecvDis => FRH
    case RecvTrainState => FRH case WaitTrainState => FRH
    case RecvMcf => FRH case WaitRecvMcf => FRH
    case SendTrain => FTM case WaitSendTrain => FTM
    case SendPage => FTM case WaitSendPage => FTM
    case _ => FTH
  }

  function RateFor(s: MainState, rateIdx: int): int {
    if !(0 <= rateIdx <= MAX_RATE_IDX) then HDLC_RATE
    else if s.SendTrain? || s.WaitSendTrain? then TRAIN_RATES[rateIdx]
    else if s.SendPage? || s.WaitSendPage? then PAGE_RATES[rateIdx]
    else HDLC_RATE
  }

  /** States from which the rate negotiated with the peer is used. */
  predicate Negotiated(s: MainState) {
    || s.WaitSendDcs? || s.SendDcs? || s.WaitSendTrain? || s.SendTrain? || s.WaitTrainState?
    || s.RecvTrainState? || s.WaitSendPage? || s.SendPage? || s.WaitSendEop? || s.SendEop?
    || s.WaitRecvMcf? || s.RecvMcf?
  }

  predicate ModemOk(f: Fax) {
    && (f.main.Idle? || Transferring(f.main) || Waiting(f.main))
    && (Transferring(f.main) ==>
          && f.mod == Connected
          && f.currentMod == ModeFor(f.main) && f.currentRate == RateFor(f.main, f.rateIdx)
          && f.pendingMod == -1 && f.pendingRate == -1)
    && (Waiting(f.main) && f.pendingMod >= 0 ==>
          f.pendingMod == ModeFor(f.main) && f.pendingRate == RateFor(f.main, f.rateIdx))
    && ((f.pendingMod == -1 && f.pendingRate == -1)
        || ((f.pendingMod == FRH || f.pendingMod == FTM || f.pendingMod == FTH) && f.pendingRate >= HDLC_RATE))
    && (f.mod == WaitConnect ==> f.pendingMod >= 0)
  }

  // ----- rates ------------------------------------------------------------------------------

  /** The common rates no larger than i, best first. */
  function Common(f: Fax, i: int): seq<int>
    decreases if i < 0 then 0 else i + 1
  {
    if i < 0 then [] else (if ValidRate(f, i) then [i] else []) + Common(f, i - 1)
  }

  predicate RateOk(f: Fax) {
    && -1 <= f.rateIdx <= MAX_RATE_IDX
    && (Negotiated(f.main) ==> ValidRate(f, f.rateIdx))
    && (f.main.WaitSendDcs? ==> f.dcs == DcsFor(f.rateIdx))
    && f.tried + Common(f, f.rateIdx - 1) == Common(f, MAX_RATE_IDX)
    && (f.rateIdx >= 0 ==> f.tried != [] && f.tried[|f.tried| - 1] == f.rateIdx)
  }

  // ----- the pipe and the page --------------------------------------------------------------

  function Flat(frames: seq<Frame>): seq<byte> {
    if frames == [] then [] else Flat(frames[..|frames| - 1]) + frames[|frames| - 1]
  }

  lemma {:induction false} FlatConcat(a: seq<Frame>, b: seq<Frame>)
    ensures Flat(a + b) == Flat(a) + Flat(b)
    decreases |b|
  {
    if b == [] {
      assert a + b == a;
    } else {
      var n := |b| - 1;
      FlatConcat(a, b[..n]);
      assert (a + b)[..|a + b| - 1] == a + b[..n];
    }
  }

  lemma FlatOne(a: seq<Frame>, x: Frame)
    ensures Flat(a + [x]) == Flat(a) + x && Flat([x]) == x
  {
    assert (a + [x])[..|a|] == a;
    assert [x][..0] == [];
  }

  /** Nothing of the current page has been handed on yet. */
  predicate BeforePage(s: MainState) {
    || s.Idle? || s.WaitRecvDis? || s.RecvDis? || s.WaitSendDcs? || s.SendDcs? || s.WaitSendTrain?
    || s.SendTrain? || s.WaitTrainState? || s.RecvTrainState? || s.WaitSendPage?
  }

  predicate PipeOk(f: Fax) {
    && (!f.dataBusy ==> f.downq == [])
    && |f.sent| == f.confirmed + (if f.dataBusy then 1 else 0)
    && (f.dataReady <==> f.main.SendPage?)
    && (f.main.SendPage? ==>
          && f.mark <= |f.sent| + |f.downq|
          && (f.sent + f.downq)[f.mark..] == [Zeros(f.preamble)] + f.handed)
  }

  predicate PageOk(f: Fax) {
    && f.saveq == f.handed + f.pageq
    && Flat(f.saveq) + Skb(f) == f.collected
    && |Skb(f)| < PAGE_SKB_LEN
    && (BeforePage(f.main) ==> f.handed == [])
  }

  predicate Inv(f: Fax) {
    ModemOk(f) && RateOk(f) && PipeOk(f) && PageOk(f)
  }

  /** The application asks for a call only when there is none; pieces fit the page buffer. */
  predicate Allowed(f: Fax, i: Input) {
    match i
    case ConnectB3 => f.main.Idle?
    case NoCarrier(prep) => Fits(prep)
    case Confirmed(prep) => Fits(prep)
    case DataB3(prep) => Fits(prep)
    case _ => true
  }

  predicate Fits(prep: Prep) {
    forall k | 0 <= k < |prep.pieces| :: |prep.pieces[k].bytes| <= PAGE_SKB_LEN
  }

  // ----- collecting -------------------------------------------------------------------------

  /** g differs from f only in the page buffer and the end-of-page flags. */
  predicate OnlyPage(f: Fax, g: Fax) {
    g == f.(pageq := g.pageq, saveq := g.saveq, pageSkb := g.pageSkb, collected := g.collected,
            dataLast := g.dataLast, lastPage := g.lastPage)
  }

  lemma FlushKeeps(f: Fax)
    requires PageOk(f)
    ensures PageOk(Flush(f)) && OnlyPage(f, Flush(f)) && Flush(f).collected == f.collected
  {
    FlatOne(f.saveq, Skb(f));
    assert f.saveq + [Skb(f)] == f.handed + (f.pageq + [Skb(f)]);
    assert f.collected + [] == f.collected;
  }

  /** A full buffer and the start of the next are the old buffer and the bytes. */
  lemma Regroup(page: seq<byte>, skb: seq<byte>, bytes: seq<byte>, room: nat)
    requires room <= |bytes|
    ensures page + (skb + bytes[..room]) + bytes[room..] == page + skb + bytes
  {
    assert bytes == bytes[..room] + bytes[room..];
  }

  lemma PushKeeps(f: Fax, bytes: seq<byte>, room: nat)
    requires PageOk(f) && room == PAGE_SKB_LEN - |Skb(f)| <= |bytes| <= PAGE_SKB_LEN
    ensures var g := PushPage(f, Skb(f) + bytes[..room]).(pageSkb := Some(bytes[room..]),
                                                         collected := f.collected + bytes);
            PageOk(g) && OnlyPage(f, g)
  {
    hide Flat;
    var x := Skb(f) + bytes[..room];
    FlatOne(f.saveq, x);
    assert f.saveq + [x] == f.handed + (f.pageq + [x]);
    Regroup(Flat(f.saveq), Skb(f), bytes, room);
  }

  lemma AppendKeeps(f: Fax, bytes: seq<byte>)
    requires PageOk(f) && |bytes| <= PAGE_SKB_LEN
    ensures PageOk(Append(f, bytes)) && OnlyPage(f, Append(f, bytes))
    ensures Append(f, bytes).collected == f.collected + bytes
  {
    hide Flat;
    var room := PAGE_SKB_LEN - |Skb(f)|;
    if room <= |bytes| {
      PushKeeps(f, bytes, room);
    } else {
      assert Flat(f.saveq) + Skb(f) + bytes == Flat(f.saveq) + (Skb(f) + bytes);
    }
  }

  lemma CollectKeeps(f: Fax, p: Piece)
    requires PageOk(f) && |p.bytes| <= PAGE_SKB_LEN
    ensures PageOk(Collect(f, p)) && OnlyPage(f, Collect(f, p))
    ensures Collect(f, p).collected == f.collected + p.bytes
  {
    AppendKeeps(f, p.bytes);
    FlushKeeps(Append(f, p.bytes));
  }

  lemma {:induction false} CollectAllKeeps(f: Fax, ps: seq<Piece>)
    requires PageOk(f) && forall k | 0 <= k < |ps| :: |ps[k].bytes| <= PAGE_SKB_LEN
    ensures PageOk(CollectAll(f, ps)) && OnlyPage(f, CollectAll(f, ps))
    decreases |ps|
  {
    if ps != [] {
      var n := |ps| - 1;
      CollectAllKeeps(f, ps[..n]);
      CollectKeeps(CollectAll(f, ps[..n]), ps[n]);
    }
  }

  lemma PrepareKeeps(f: Fax, prep: Prep)
    requires PageOk(f) && Fits(prep)
    ensures PageOk(Prepare(f, prep)) && OnlyPage(f, Prepare(f, prep))
  {
    CollectAllKeeps(f, prep.pieces);
  }

  lemma InitKeeps(f: Fax)
    requires PageOk(f)
    ensures PageOk(InitNewPage(f))
  {
    assert [] + Skb(f) == Skb(f);
  }

  /** A retry queues the frames of the page once more: queue and buffer together are all that was
      collected for the page, and the buffer is what the queue leaves out. */
  lemma RetryKeeps(f: Fax)
    requires PageOk(f)
    ensures PageOk(CopyForRetry(f))
    ensures Flat(CopyForRetry(f).pageq) + Skb(CopyForRetry(f)) == f.collected
  {
    assert [] + f.saveq == f.saveq;
  }

  // ----- sending ----------------------------------------------------------------------------

  /** g differs from f only in the transmit pipe. */
  predicate OnlyPipe(f: Fax, g: Fax) {
    g == f.(downq := g.downq, sent := g.sent, dataBusy := g.dataBusy)
  }

  /** A frame goes to the end of what the modem has been given and what waits for it. */
  lemma SendQueues(f: Fax, frame: Frame)
    requires !f.dataBusy ==> f.downq == []
    ensures var g := SendDown(f, frame);
            OnlyPipe(f, g) && (!g.dataBusy ==> g.downq == []) && g.sent + g.downq == f.sent + f.downq + [frame]
  {
    var g := SendDown(f, frame);
    if f.dataBusy {
      assert g.sent + g.downq == f.sent + f.downq + [frame];
    } else {
      assert f.sent + f.downq == f.sent && g.sent + g.downq == g.sent;
    }
  }

  lemma SendDownKeeps(f: Fax, frame: Frame)
    requires !f.dataBusy ==> f.downq == []
    requires |f.sent| == f.confirmed + (if f.dataBusy then 1 else 0)
    ensures var g := SendDown(f, frame);
            && OnlyPipe(f, g)
            && (!g.dataBusy ==> g.downq == [])
            && |g.sent| == g.confirmed + (if g.dataBusy then 1 else 0)
            && g.sent + g.downq == f.sent + f.downq + [frame]
  {
    SendQueues(f, frame);
  }

  lemma HandPageKeeps(f: Fax)
    requires PipeOk(f) && PageOk(f) && f.main.SendPage? && f.pageq != []
    ensures var g := HandPage(f);
            && PipeOk(g) && PageOk(g)
            && g == f.(downq := g.downq, sent := g.sent, dataBusy := g.dataBusy, pageq := g.pageq, handed := g.handed)
  {
    hide Flat, Zeros, SendDown;
    var x := f.pageq[0];
    var h := f.(pageq := f.pageq[1..], handed := f.handed + [x]);
    SendDownKeeps(h, x);
    assert f.handed + f.pageq == h.handed + h.pageq;
    Extended(f.sent + f.downq, x, f.mark, [Zeros(f.preamble)], f.handed);
  }

  /** A list that ends in first and handed ends, with one frame more, in that and the frame. */
  lemma Extended(all: seq<Frame>, x: Frame, mark: nat, first: seq<Frame>, handed: seq<Frame>)
    requires mark <= |all| && all[mark..] == first + handed
    ensures (all + [x])[mark..] == first + (handed + [x])
  {
    assert (all + [x])[mark..] == all[mark..] + [x];
  }

  lemma {:induction false} HandAllKeeps(f: Fax)
    requires PipeOk(f) && PageOk(f) && f.main.SendPage?
    ensures var g := HandAllPages(f);
            && PipeOk(g) && PageOk(g)
            && g == f.(downq := g.downq, sent := g.sent, dataBusy := g.dataBusy, pageq := g.pageq, handed := g.handed)
    decreases |f.pageq|
  {
    if f.pageq != [] {
      HandPageKeeps(f);
      HandAllKeeps(HandPage(f));
    }
  }
}
