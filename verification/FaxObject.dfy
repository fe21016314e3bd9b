/**
 The fax session as an object whose handlers change it in place; every method computes the
 operation of the same name on the session's value.
 */
module FaxObject {
  import opened Basics
  import opened Fsm
  import opened FaxSpec
  import opened FaxInvariant
  import opened FaxRuns
  import opened FaxTheorems

  // ----- the call machine's table by numbers --------------------------------------------------

  const STATES: seq<MainState> := [
    Idle, WaitRecvDis, RecvDis, WaitSendDcs, SendDcs, WaitSendTrain, SendTrain, WaitTrainState,
    RecvTrainState, WaitSendPage, SendPage, WaitPageState, RecvPageState, WaitSendEop, SendEop,
    WaitRecvMcf, RecvMcf, WaitSendDcn, SendDcn, Clearing]

  const EVENTS: seq<MainEvent> := [
    CallOut, ModemActiv, ModemIdle, ModemError, Data, NextData, DelayTimer, ClearCall]

  function StateNo(s: MainState): (n: nat)
    ensures n < |STATES| && STATES[n] == s
  {
    match s
    case Idle => 0 case WaitRecvDis => 1 case RecvDis => 2 case WaitSendDcs => 3 case SendDcs => 4
    case WaitSendTrain => 5 case SendTrain => 6 case WaitTrainState => 7 case RecvTrainState => 8
    case WaitSendPage => 9 case SendPage => 10 case WaitPageState => 11 case RecvPageState => 12
    case WaitSendEop => 13 case SendEop => 14 case WaitRecvMcf => 15 case RecvMcf => 16
    case WaitSendDcn => 17 case SendDcn => 18 case Clearing => 19
  }

  function EventNo(e: MainEvent): (n: nat)
    ensures n < |EVENTS| && EVENTS[n] == e
  {
    match e
    case CallOut => 0 case ModemActiv => 1 case ModemIdle => 2 case ModemError => 3
    case Data => 4 case NextData => 5 case DelayTimer => 6 case ClearCall => 7
  }

  function Numbered(nodes: seq<Node<MainState, MainEvent, Handler>>): (r: seq<Node<nat, nat, Handler>>)
    ensures |r| == |nodes|
  {
    if nodes == [] then []
    else
      var n := nodes[|nodes| - 1];
      Numbered(nodes[..|nodes| - 1]) + [Node(StateNo(n.state), EventNo(n.event), n.routine)]
  }

  /** Numbering states and events does not change what the list says. */
  lemma {:induction false} NumberedSame(nodes: seq<Node<MainState, MainEvent, Handler>>, s: MainState, e: MainEvent)
    ensures LastRoutine(Numbered(nodes), StateNo(s), EventNo(e)) == LastRoutine(nodes, s, e)
  {
    hide StateNo, EventNo;
    if nodes != [] {
      var rest := nodes[..|nodes| - 1];
      NumberedSame(rest, s, e);
      assert Numbered(nodes)[..|nodes| - 1] == Numbered(rest);
      var n := nodes[|nodes| - 1];
      assert StateNo(n.state) == StateNo(s) <==> n.state == s;
      assert EventNo(n.event) == EventNo(e) <==> n.event == e;
    }
  }

  /** Twenty characters, last one first, filled from the end of a buffer of spaces. */
  method Char20Buffer(s: Frame) returns (buf: array<byte>)
    ensures fresh(buf) && buf[..] == Char20(s)
  {
    buf := new byte[20](_ => 0x20);
    var len := if |s| > 20 then 20 else |s|;
    var i := len;
    while i > 0
      invariant 0 <= i <= len
      invariant forall k | 0 <= k < len - i :: buf[k] == s[len - 1 - k]
      invariant forall k | len - i <= k < 20 :: buf[k] == 0x20
    {
      buf[len - i] := s[i - 1];
      i := i - 1;
    }
    assert |Char20(s)| == 20;
  }

  class FaxSession {
    var main: MainState
    var mod: ModState
    var pendingMod: int
    var pendingRate: int
    var currentMod: int
    var currentRate: int
    var ownRates: nat
    var peerRates: nat
    var rateIdx: int
    var dis: seq<byte>
    var dcs: seq<byte>
    var stationId: Frame
    var result: Result
    var pageRetry: nat
    var sentTis: bool
    var dataBusy: bool
    var dataLast: bool
    var dataReady: bool
    var lastPage: bool
    var preamble: nat
    var downq: seq<Frame>
    var pageq: seq<Frame>
    var saveq: seq<Frame>
    var pageSkb: Option<Frame>
    ghost var sent: seq<Frame>
    ghost var confirmed: nat
    ghost var mark: nat
    ghost var handed: seq<Frame>
    ghost var collected: seq<byte>
    ghost var tried: seq<int>
    const table: JumpTable<Handler>

    ghost function Abs(): Fax
      reads this
    {
      Fax(main, mod, pendingMod, pendingRate, currentMod, currentRate, ownRates, peerRates, rateIdx, dis, dcs,
          stationId, result, pageRetry, sentTis, dataBusy, dataLast, dataReady, lastPage, preamble,
          downq, pageq, saveq, pageSkb, sent, confirmed, mark, handed, collected, tried)
    }

    ghost predicate Valid()
      reads this, table, table.jumpmatrix
    {
      && table.Valid()
      && table.stateCount == |STATES| && table.eventCount == |EVENTS|
      && table.nodes == Numbered(MAIN_TABLE)
    }

    constructor (own: nat, station: Frame, preamble: nat)
      ensures Valid() && Initial(Abs())
      ensures ownRates == own && stationId == station && this.preamble == preamble
    {
      hide Numbered, Zeros, Filled;
      main, mod := Idle, ModNull;
      pendingMod, pendingRate, currentMod, currentRate, rateIdx := -1, -1, -1, -1, -1;
      ownRates, peerRates := own, 0;
      dis, dcs, stationId := Zeros(12), Zeros(4), station;
      result, pageRetry := NoResult, 0;
      sentTis, dataBusy, dataLast, dataReady, lastPage := false, false, false, false, false;
      this.preamble := preamble;
      downq, pageq, saveq, pageSkb := [], [], [], None;
      sent, confirmed, mark, handed, collected, tried := [], 0, 0, [], [], [];
      table := new JumpTable(|STATES|, |EVENTS|, Numbered(MAIN_TABLE));
    }

    // ----- single changes ---------------------------------------------------------------------

    /** The states, the rate and the flags are those of the value. */
    lemma Flags()
      ensures main == Abs().main && mod == Abs().mod && result == Abs().result
      ensures pendingMod == Abs().pendingMod && pendingRate == Abs().pendingRate
      ensures rateIdx == Abs().rateIdx && pageRetry == Abs().pageRetry && preamble == Abs().preamble
      ensures sentTis == Abs().sentTis && dataBusy == Abs().dataBusy && dataLast == Abs().dataLast
      ensures dataReady == Abs().dataReady && lastPage == Abs().lastPage && confirmed == Abs().confirmed
    {
    }

    /** The frames to send and sent are those of the value. */
    lemma Queues()
      ensures downq == Abs().downq && pageq == Abs().pageq && sent == Abs().sent && handed == Abs().handed
    {
    }

    /** The page is that of the value. */
    lemma Page()
      ensures pageSkb == Abs().pageSkb && collected == Abs().collected
    {
    }

    /** What is sent and received to describe the two sides is that of the value. */
    lemma Capabilities()
      ensures dis == Abs().dis && dcs == Abs().dcs && stationId == Abs().stationId
    {
    }

    method ChangeState(s: MainState)
      modifies this`main
      ensures Abs() == old(Abs()).(main := s)
      ensures main == s
    {
      main := s;
    }

    method ChangeModState(s: ModState)
      modifies this`mod
      ensures Abs() == old(Abs()).(mod := s)
      ensures mod == s
    {
      mod := s;
    }

    method SetPending(mode: int, rate: int)
      modifies this`pendingMod, this`pendingRate
      ensures Abs() == old(Abs()).(pendingMod := mode, pendingRate := rate)
      ensures pendingMod == mode && pendingRate == rate
    {
      pendingMod, pendingRate := mode, rate;
    }

    method SetCurrent(mode: int, rate: int)
      modifies this`currentMod, this`currentRate
      ensures Abs() == old(Abs()).(currentMod := mode, currentRate := rate)
      ensures currentMod == mode && currentRate == rate
    {
      currentMod, currentRate := mode, rate;
    }

    method SetPeerRates(mask: nat)
      modifies this`peerRates
      ensures Abs() == old(Abs()).(peerRates := mask)
      ensures peerRates == mask
    {
      peerRates := mask;
    }

    method SetRateIdx(i: int)
      modifies this`rateIdx
      ensures Abs() == old(Abs()).(rateIdx := i)
      ensures rateIdx == i
    {
      rateIdx := i;
    }

    /** The rates tried so far. */
    ghost method Note(rates: seq<int>)
      modifies this`tried
      ensures Abs() == old(Abs()).(tried := rates)
      ensures tried == rates
    {
      tried := rates;
    }

    method SetResult(r: Result)
      modifies this`result
      ensures Abs() == old(Abs()).(result := r)
      ensures result == r
    {
      result := r;
    }

    method SetPageRetry(n: nat)
      modifies this`pageRetry
      ensures Abs() == old(Abs()).(pageRetry := n)
      ensures pageRetry == n
    {
      pageRetry := n;
    }

    method SetSentTis(b: bool)
      modifies this`sentTis
      ensures Abs() == old(Abs()).(sentTis := b)
      ensures sentTis == b
    {
      sentTis := b;
    }

    method SetDataBusy(b: bool)
      modifies this`dataBusy
      ensures Abs() == old(Abs()).(dataBusy := b)
      ensures dataBusy == b
    {
      dataBusy := b;
    }

    method SetDataLast(b: bool)
      modifies this`dataLast
      ensures Abs() == old(Abs()).(dataLast := b)
      ensures dataLast == b
    {
      dataLast := b;
    }

    method SetDataReady(b: bool)
      modifies this`dataReady
      ensures Abs() == old(Abs()).(dataReady := b)
      ensures dataReady == b
    {
      dataReady := b;
    }

    method SetLastPage(b: bool)
      modifies this`lastPage
      ensures Abs() == old(Abs()).(lastPage := b)
      ensures lastPage == b
    {
      lastPage := b;
    }

    method SetDownq(q: seq<Frame>)
      modifies this`downq
      ensures Abs() == old(Abs()).(downq := q)
      ensures downq == q
    {
      downq := q;
    }

    method SetPageq(q: seq<Frame>)
      modifies this`pageq
      ensures Abs() == old(Abs()).(pageq := q)
      ensures pageq == q
    {
      pageq := q;
    }

    method SetSaveq(q: seq<Frame>)
      modifies this`saveq
      ensures Abs() == old(Abs()).(saveq := q)
      ensures saveq == q
    {
      saveq := q;
    }

    method SetPageSkb(skb: Option<Frame>)
      modifies this`pageSkb
      ensures Abs() == old(Abs()).(pageSkb := skb)
      ensures pageSkb == skb
    {
      pageSkb := skb;
    }

    /** The frames given to the modem so far. */
    ghost method NoteSent(frames: seq<Frame>)
      modifies this`sent
      ensures Abs() == old(Abs()).(sent := frames)
      ensures sent == frames
    {
      sent := frames;
    }

    /** How many of them it has confirmed. */
    ghost method NoteConfirmed(n: nat)
      modifies this`confirmed
      ensures Abs() == old(Abs()).(confirmed := n)
      ensures confirmed == n
    {
      confirmed := n;
    }

    /** Where the page starts among them. */
    ghost method NoteMark(n: nat)
      modifies this`mark
      ensures Abs() == old(Abs()).(mark := n)
      ensures mark == n
    {
      mark := n;
    }

    /** The page frames handed on so far. */
    ghost method NoteHanded(frames: seq<Frame>)
      modifies this`handed
      ensures Abs() == old(Abs()).(handed := frames)
      ensures handed == frames
    {
      handed := frames;
    }

    /** The bytes collected for the page so far. */
    ghost method NoteCollected(bytes: seq<byte>)
      modifies this`collected
      ensures Abs() == old(Abs()).(collected := bytes)
      ensures collected == bytes
    {
      collected := bytes;
    }

    // ----- rates ------------------------------------------------------------------------------

    predicate IsValidRate(i: int)
      reads this
    {
      0 <= i <= MAX_RATE_IDX && HasBit(ownRates, i) && HasBit(peerRates, i)
    }

    method CalcMaxRate() returns (r: int)
      ensures r == BestRate(Abs(), MAX_RATE_IDX)
    {
      r := MAX_RATE_IDX;
      while r >= 0 && !IsValidRate(r)
        invariant -1 <= r <= MAX_RATE_IDX
        invariant BestRate(Abs(), MAX_RATE_IDX) == BestRate(Abs(), r)
      {
        r := r - 1;
      }
    }

    /** Steps down until a common rate or the end is reached. */
    method LowerRate()
      modifies this`rateIdx
      ensures old(rateIdx) >= 0 ==> rateIdx == BestRate(old(Abs()), old(rateIdx) - 1)
      ensures old(rateIdx) < 0 ==> rateIdx == old(rateIdx) - 1
    {
      hide HasBit;
      ghost var before := Abs();
      rateIdx := rateIdx - 1;
      while rateIdx >= 0 && !IsValidRate(rateIdx)
        invariant rateIdx < before.rateIdx
        invariant before.rateIdx < 0 ==> rateIdx == before.rateIdx - 1
        invariant before.rateIdx >= 0 ==> -1 <= rateIdx && BestRate(before, before.rateIdx - 1) == BestRate(before, rateIdx)
        decreases rateIdx
      {
        rateIdx := rateIdx - 1;
      }
    }

    method FallbackRate() returns (ok: bool)
      modifies this`rateIdx, this`tried
      ensures Abs() == FaxSpec.FallbackRate(old(Abs()))
      ensures ok == ValidRate(Abs(), Abs().rateIdx)
    {
      hide HasBit, BestRate;
      LowerRate();
      Note(if rateIdx >= 0 then tried + [rateIdx] else tried);
      ok := IsValidRate(rateIdx);
    }

    // ----- the modem machine ------------------------------------------------------------------

    method SetNewModulation(e: ModEvent)
      modifies this`mod
      ensures Abs() == FaxSpec.SetNewModulation(old(Abs()), e)
    {
      if pendingMod < 0 || pendingRate < 0 {
        if e == ModReady {
          mod := ModIdle;
        }
        return;
      }
      mod := WaitConnect;
    }

    method RequestModulation(mode: int, rate: int)
      modifies this`mod, this`pendingMod, this`pendingRate
      ensures Abs() == FaxSpec.RequestModulation(old(Abs()), mode, rate)
    {
      hide FaxSpec.SetNewModulation;
      pendingMod, pendingRate := mode, rate;
      if mod == ModIdle {
        SetNewModulation(ModNew);
      }
    }

    // ----- the transmit pipe ------------------------------------------------------------------

    method SendDown(frame: Frame)
      modifies this`dataBusy, this`downq, this`sent
      ensures Abs() == FaxSpec.SendDown(old(Abs()), frame)
    {
      if dataBusy {
        downq := downq + [frame];
      } else {
        dataBusy, sent := true, sent + [frame];
      }
    }

    method SendHdlc(control: byte, fcf: byte, para: Frame)
      modifies this`dataBusy, this`downq, this`sent
      ensures Abs() == FaxSpec.SendHdlc(old(Abs()), control, fcf, para)
    {
      hide FaxSpec.SendDown;
      SendDown([0xff, control, fcf] + para);
    }

    method FillDcs()
      modifies this`dcs
      ensures Abs() == FaxSpec.FillDcs(old(Abs()))
    {
      var rate := if 0 <= rateIdx <= MAX_RATE_IDX then DCS_RATES[rateIdx] else 0xf;
      dcs := [0, rate * 4 + 0x42, 0xf8, 0];
    }

    // ----- the page buffer --------------------------------------------------------------------

    method PushPage(frame: Frame)
      modifies this`pageq, this`saveq
      ensures Abs() == FaxSpec.PushPage(old(Abs()), frame)
    {
      saveq := saveq + [frame];
      pageq := pageq + [frame];
    }

    /** Bytes of a piece go into the buffer; a full buffer is queued. */
    method Append(bytes: seq<byte>)
      modifies this`pageSkb, this`pageq, this`saveq, this`collected
      ensures Abs() == FaxSpec.Append(old(Abs()), bytes)
    {
      hide FaxSpec.PushPage, Abs;
      Page();
      var skb := if pageSkb.Some? then pageSkb.value else [];
      var room := PAGE_SKB_LEN - |skb|;
      if 0 <= room <= |bytes| {
        PushPage(skb + bytes[..room]);
        SetPageSkb(Some(bytes[room..]));
      } else {
        SetPageSkb(Some(skb + bytes));
      }
      Page();
      NoteCollected(collected + bytes);
    }

    method Flush()
      modifies this`pageSkb, this`pageq, this`saveq
      ensures Abs() == FaxSpec.Flush(old(Abs()))
    {
      hide FaxSpec.PushPage;
      PushPage(if pageSkb.Some? then pageSkb.value else []);
      pageSkb := None;
    }

    method Collect(p: Piece)
      modifies this`pageSkb, this`pageq, this`saveq, this`collected
      ensures Abs() == FaxSpec.Collect(old(Abs()), p)
    {
      hide FaxSpec.Append, FaxSpec.Flush;
      Append(p.bytes);
      if p.flush {
        Flush();
      }
    }

    method CollectAll(ps: seq<Piece>)
      modifies this`pageSkb, this`pageq, this`saveq, this`collected
      ensures Abs() == FaxSpec.CollectAll(old(Abs()), ps)
    {
      hide FaxSpec.Collect;
      assert ps[..0] == [];
      for i := 0 to |ps|
        invariant Abs() == FaxSpec.CollectAll(old(Abs()), ps[..i])
      {
        Collect(ps[i]);
        assert ps[..i + 1][..i] == ps[..i];
      }
      assert ps[..|ps|] == ps;
    }

    method Prepare(prep: Prep)
      modifies this`pageSkb, this`pageq, this`saveq, this`collected, this`dataLast, this`lastPage
      ensures Abs() == FaxSpec.Prepare(old(Abs()), prep)
    {
      hide FaxSpec.CollectAll, Abs;
      CollectAll(prep.pieces);
      Flags();
      SetDataLast(dataLast || prep.pageEnd || prep.docEnd);
      SetLastPage(lastPage || prep.docEnd);
    }

    method InitNewPage()
      modifies this`pageRetry, this`result, this`pageq, this`saveq, this`handed, this`collected
      ensures Abs() == FaxSpec.InitNewPage(old(Abs()))
    {
      hide Abs;
      Page();
      SetPageRetry(0);
      SetResult(NoResult);
      SetPageq([]);
      SetSaveq([]);
      NoteHanded([]);
      NoteCollected(if pageSkb.Some? then pageSkb.value else []);
    }

    /** The saved frames move to the page queue and their clones back to the saved ones. */
    method Requeue()
      modifies this`pageq, this`saveq
      ensures pageq == saveq == old(saveq)
    {
      var tmpq: seq<Frame> := [];
      pageq := [];
      while saveq != []
        invariant pageq == tmpq && pageq + saveq == old(saveq)
        decreases |saveq|
      {
        Moved(pageq, saveq);
        var skb := saveq[0];
        saveq := saveq[1..];
        pageq := pageq + [skb];
        tmpq := tmpq + [skb];
      }
      assert pageq == old(saveq);
      while tmpq != []
        invariant saveq + tmpq == old(saveq) && pageq == old(saveq)
        decreases |tmpq|
      {
        Moved(saveq, tmpq);
        saveq := saveq + [tmpq[0]];
        tmpq := tmpq[1..];
      }
      assert saveq == old(saveq);
    }

    method CopyForRetry()
      modifies this`pageq, this`saveq, this`handed
      ensures Abs() == FaxSpec.CopyForRetry(old(Abs()))
    {
      Requeue();
      handed := [];
    }

    method HandPage()
      requires pageq != []
      modifies this`pageq, this`handed, this`dataBusy, this`downq, this`sent
      ensures Abs() == FaxSpec.HandPage(old(Abs()))
    {
      hide FaxSpec.SendDown, Abs;
      Queues();
      var skb := pageq[0];
      SetPageq(pageq[1..]);
      NoteHanded(handed + [skb]);
      SendDown(skb);
    }

    method HandAllPages()
      modifies this`pageq, this`handed, this`dataBusy, this`downq, this`sent
      ensures Abs() == FaxSpec.HandAllPages(old(Abs()))
    {
      hide FaxSpec.HandPage;
      while pageq != []
        invariant FaxSpec.HandAllPages(Abs()) == FaxSpec.HandAllPages(old(Abs()))
        decreases |pageq|
      {
        ghost var before := Abs();
        HandPage();
        HandPageShrinks(before);
      }
    }

    // ----- the handlers of the call machine ---------------------------------------------------

    method ReceiveDis(frame: Frame)
      modifies this`dis
      ensures Abs() == FaxSpec.ReceiveDis(old(Abs()), frame)
    {
      if |frame| < 3 || frame[2] != 0x80 || |frame| < 6 {
        return;
      }
      var n := if |frame| - 3 > 12 then 12 else |frame| - 3;
      dis := frame[3..3 + n] + (if n <= |dis| then dis[n..] else []);
    }

    method CalcPeerRates() returns (mask: nat)
      ensures mask == PeerRatesOf(dis)
    {
      mask := if |dis| < 2 then 0 else PEER_RATES[(dis[1] / 4) % 16];
    }

    method Rate()
      modifies this`peerRates, this`rateIdx, this`tried
      ensures Abs() == Rated(old(Abs()))
    {
      hide Abs, BestRate, PeerRatesOf;
      Capabilities();
      var mask := CalcPeerRates();
      SetPeerRates(mask);
      var r := CalcMaxRate();
      SetRateIdx(r);
      Note(if r >= 0 then [r] else []);
    }

    method FinishDis()
      modifies this
      ensures Abs() == FaxSpec.FinishDis(old(Abs()))
    {
      hide Abs, Rated, FaxSpec.RequestModulation, FaxSpec.FillDcs;
      Rate();
      Flags();
      if rateIdx > 0 {
        FillDcs();
        ChangeState(WaitSendDcs);
        RequestModulation(FTH, HDLC_RATE);
      } else {
        ChangeState(Idle);
      }
    }

    method DoDcs()
      modifies this
      ensures Abs() == FaxSpec.DoDcs(old(Abs()))
    {
      hide Abs, FaxSpec.SendHdlc, Char20;
      ChangeState(SendDcs);
      Flags();
      Capabilities();
      if !sentTis {
        SetSentTis(true);
        var buf := Char20Buffer(stationId);
        SendHdlc(0x03, 0x43, buf[..]);
      }
      Capabilities();
      SendHdlc(0x13, 0x83, dcs);
    }

    method SetupTrain()
      modifies this
      ensures Abs() == FaxSpec.SetupTrain(old(Abs()))
    {
      hide FaxSpec.RequestModulation, HasBit;
      if IsValidRate(rateIdx) {
        RequestModulation(FTM, TRAIN_RATES[rateIdx]);
      } else {
        ChangeState(Idle);
      }
    }

    method DoTrain()
      modifies this
      ensures Abs() == FaxSpec.DoTrain(old(Abs()))
    {
      hide FaxSpec.SendDown, Abs, Zeros;
      Flags();
      ChangeState(SendTrain);
      SetDataLast(true);
      SendDown(Zeros(TrainLength(rateIdx)));
    }

    method ReceiveTrainState(frame: Frame)
      modifies this`result
      ensures Abs() == FaxSpec.ReceiveTrainState(old(Abs()), frame)
    {
      hide Abs;
      Flags();
      if |frame| < 3 {
        return;
      }
      SetResult(match frame[2] case 0x84 => Cfr case 0x44 => Ftt case _ => NoResult);
    }

    method FinishTrainState()
      modifies this
      ensures Abs() == FaxSpec.FinishTrainState(old(Abs()))
    {
      hide FaxSpec.FallbackRate, FaxSpec.FillDcs, ValidRate, Abs;
      Flags();
      if result == Ftt {
        SetPending(FTH, HDLC_RATE);
        var ok := FallbackRate();
        if ok {
          FillDcs();
          ChangeState(WaitSendDcs);
        } else {
          ChangeState(WaitSendDcn);
        }
      } else {
        ChangeState(WaitSendPage);
      }
    }

    method SetupSendPage()
      modifies this
      ensures Abs() == FaxSpec.SetupSendPage(old(Abs()))
    {
      hide FaxSpec.RequestModulation, HasBit;
      if IsValidRate(rateIdx) {
        RequestModulation(FTM, PAGE_RATES[rateIdx]);
      } else {
        ChangeState(Idle);
      }
    }

    method ReadySendPage()
      modifies this
      ensures Abs() == FaxSpec.ReadySendPage(old(Abs()))
    {
      hide FaxSpec.SendDown, Abs, Zeros;
      Flags();
      Queues();
      ChangeState(SendPage);
      SetDataReady(true);
      NoteMark(|sent| + |downq|);
      SendDown(Zeros(preamble));
    }

    method SendNextPageData(prep: Prep)
      modifies this
      ensures Abs() == FaxSpec.SendNextPageData(old(Abs()), prep)
    {
      hide FaxSpec.HandPage, FaxSpec.HandAllPages, FaxSpec.Prepare, Abs;
      Flags();
      Queues();
      if dataLast {
        if pageq == [] {
          SetDataLast(false);
        } else {
          HandAllPages();
        }
        return;
      }
      if pageRetry == 0 {
        Prepare(prep);
        Queues();
      } else if pageq == [] {
        SetDataLast(false);
        return;
      }
      if pageq != [] {
        HandPage();
      }
    }

    method FinishPage()
      modifies this
      ensures Abs() == FaxSpec.FinishPage(old(Abs()))
    {
      hide FaxSpec.RequestModulation, Abs;
      SetDataReady(false);
      ChangeState(WaitSendEop);
      RequestModulation(FTH, HDLC_RATE);
    }

    method SendEndOfPage()
      modifies this
      ensures Abs() == FaxSpec.SendEndOfPage(old(Abs()))
    {
      hide FaxSpec.SendHdlc, Abs;
      Flags();
      ChangeState(SendEop);
      SendHdlc(0x13, if lastPage then 0x2f else 0x4f, []);
    }

    method ReceiveMcf(frame: Frame)
      modifies this`result
      ensures Abs() == FaxSpec.ReceiveMcf(old(Abs()), frame)
    {
      hide Abs;
      Flags();
      if |frame| < 3 {
        return;
      }
      SetResult(match frame[2] case 0x8c => Mcf case 0xcc => Rtp case 0x4c => Rtn case _ => NoResult);
    }

    method AfterRtn()
      modifies this
      ensures Abs() == FaxSpec.AfterRtn(old(Abs()))
    {
      hide FaxSpec.FallbackRate, FaxSpec.FillDcs, FaxSpec.CopyForRetry, ValidRate, Abs;
      Flags();
      SetPageRetry(pageRetry + 1);
      if pageRetry < 5 {
        var ok := FallbackRate();
        if ok {
          FillDcs();
          CopyForRetry();
          ChangeState(WaitSendDcs);
          return;
        }
      }
      ChangeState(WaitSendDcn);
    }

    method AfterRtp(prep: Prep)
      modifies this
      ensures Abs() == FaxSpec.AfterRtp(old(Abs()), prep)
    {
      hide FaxSpec.Prepare, FaxSpec.InitNewPage, FaxSpec.FillDcs, Abs;
      Flags();
      if lastPage {
        ChangeState(WaitSendDcn);
      } else {
        InitNewPage();
        Prepare(prep);
        FillDcs();
        ChangeState(WaitSendDcs);
      }
    }

    method FinishMcf(prep: Prep)
      modifies this
      ensures Abs() == FaxSpec.FinishMcf(old(Abs()), prep)
    {
      hide FaxSpec.Prepare, FaxSpec.InitNewPage, FaxSpec.AfterRtn, FaxSpec.AfterRtp, FaxSpec.RequestModulation, Abs;
      Flags();
      if result == Mcf && !lastPage {
        InitNewPage();
        Prepare(prep);
        ChangeState(WaitSendPage);
        return;
      }
      if result == Rtn {
        AfterRtn();
      } else if result == Rtp {
        AfterRtp(prep);
      } else {
        ChangeState(WaitSendDcn);
      }
      RequestModulation(FTH, HDLC_RATE);
    }

    // ----- dispatch ---------------------------------------------------------------------------

    method RunReceiving(h: Handler, arg: Arg)
      requires h.DoReceiveDis? || h.DoReceiveTrainState? || h.DoReceiveMcf? || h.DoActivDis? || h.DoActivTrainState?
               || h.DoActivMcf? || h.DoFinishDis? || h.DoFinishTrainState? || h.DoFinishMcf?
      modifies this
      ensures Abs() == Run(old(Abs()), h, arg)
    {
      hide Abs, FaxSpec.FinishDis, FaxSpec.FinishTrainState, FaxSpec.FinishMcf, FaxSpec.ReceiveDis,
           FaxSpec.ReceiveTrainState, FaxSpec.ReceiveMcf;
      match h
      case DoReceiveDis => ReceiveDis(arg.frame);
      case DoReceiveTrainState => ReceiveTrainState(arg.frame);
      case DoReceiveMcf => ReceiveMcf(arg.frame);
      case DoActivDis => ChangeState(RecvDis);
      case DoActivTrainState => ChangeState(RecvTrainState);
      case DoActivMcf => ChangeState(RecvMcf);
      case DoFinishDis => FinishDis();
      case DoFinishTrainState => FinishTrainState();
      case DoFinishMcf => FinishMcf(arg.prep);
    }

    method RunHandler(h: Handler, arg: Arg)
      modifies this
      ensures Abs() == Run(old(Abs()), h, arg)
    {
      hide Abs, FaxSpec.FinishDis, FaxSpec.FinishTrainState, FaxSpec.FinishMcf, FaxSpec.ReceiveDis,
           FaxSpec.ReceiveTrainState, FaxSpec.ReceiveMcf, FaxSpec.DoDcs, FaxSpec.SetupTrain, FaxSpec.DoTrain,
           FaxSpec.SetupSendPage, FaxSpec.ReadySendPage, FaxSpec.SendNextPageData, FaxSpec.FinishPage,
           FaxSpec.SendEndOfPage, FaxSpec.RequestModulation, FaxSpec.SendHdlc;
      match h
      case DoCallout => ChangeState(WaitRecvDis);
      case DoSendDcs => DoDcs();
      case DoSendLastData => SetDataLast(false);
      case DoFinishDcs => ChangeState(WaitSendTrain);
      case DoSetupTrain => SetupTrain();
      case DoSendTrain => DoTrain();
      case DoFinishTrain => ChangeState(WaitTrainState); RequestModulation(FRH, HDLC_RATE);
      case DoSetupSendPage => SetupSendPage();
      case DoReadySendPage => ReadySendPage();
      case DoSendNextPageData => SendNextPageData(arg.prep);
      case DoFinishPage => FinishPage();
      case DoSendEndOfPage => SendEndOfPage();
      case DoFinishEop => ChangeState(WaitRecvMcf); RequestModulation(FRH, HDLC_RATE);
      case DoSendDcn => SendHdlc(0x13, 0xfb, []);
      case DoFinishDcn => ChangeState(Clearing);
      case _ => RunReceiving(h, arg);
    }

    /** An event of the call machine, dispatched through its jump matrix. */
    method MainEvent(e: FaxSpec.MainEvent, arg: Arg)
      requires Valid()
      modifies this
      ensures Abs() == MainStep(old(Abs()), e, arg)
    {
      hide Run, HandlerFor, StateNo, EventNo, Numbered;
      var h := table.Dispatch(StateNo(main), EventNo(e));
      NumberedSame(MAIN_TABLE, main, e);
      TableIsList(main, e);
      if h.Some? {
        RunHandler(h.value, arg);
      }
    }

    // ----- what happens to a session ----------------------------------------------------------

    method Connect()
      requires Valid()
      modifies this
      ensures Abs() == Connects(old(Abs()))
    {
      hide Abs, MainStep;
      Flags();
      if mod == WaitConnect {
        ChangeModState(Connected);
        SetCurrent(pendingMod, pendingRate);
        SetPending(-1, -1);
        MainEvent(ModemActiv, Arg([], NoPrep()));
      }
    }

    method Disconnect(prep: Prep)
      requires Valid()
      modifies this
      ensures Abs() == Disconnects(old(Abs()), prep)
    {
      hide Abs, MainStep;
      Flags();
      if mod == Connected || mod == WaitDisconnect {
        ChangeModState(ModIdle);
        MainEvent(ModemIdle, Arg([], prep));
      }
    }

    /** The next queued frame goes to the modem. */
    method NextDown()
      requires downq != []
      modifies this`downq, this`sent
      ensures Abs() == old(Abs()).(downq := old(downq)[1..], sent := old(sent) + [old(downq)[0]])
    {
      hide Abs;
      NoteSent(sent + [downq[0]]);
      SetDownq(downq[1..]);
    }

    /** The next frame of the page goes to the modem. */
    method NextPageFrame()
      requires pageq != []
      modifies this`pageq, this`handed, this`sent
      ensures Abs() == old(Abs()).(pageq := old(pageq)[1..], handed := old(handed) + [old(pageq)[0]],
                                   sent := old(sent) + [old(pageq)[0]])
    {
      hide Abs;
      NoteSent(sent + [pageq[0]]);
      NoteHanded(handed + [pageq[0]]);
      SetPageq(pageq[1..]);
    }

    /** The modem has taken the last frame: the next one goes down, or the call is told. */
    method Confirm(prep: Prep)
      requires Valid()
      modifies this
      ensures Abs() == Confirms(old(Abs()), prep)
    {
      hide Abs, MainStep;
      Flags();
      Queues();
      if !dataBusy {
        return;
      }
      NoteConfirmed(confirmed + 1);
      if downq != [] {
        NextDown();
      } else if dataReady && pageq != [] {
        NextPageFrame();
      } else {
        SetDataBusy(false);
        MainEvent(NextData, Arg([], prep));
      }
    }

    method StartCall()
      requires Valid()
      modifies this
      ensures Abs() == FaxSpec.StartCall(old(Abs()))
    {
      hide Abs, MainStep, FaxSpec.RequestModulation;
      RequestModulation(FRH, HDLC_RATE);
      MainEvent(CallOut, Arg([], NoPrep()));
    }

    /** One event, and what every run of events keeps. */
    method Handle(i: Input)
      requires Valid() && Inv(Abs()) && Allowed(Abs(), i)
      modifies this
      ensures Valid() && Abs() == Step(old(Abs()), i) && Inv(Abs())
    {
      hide Abs, MainStep, Connects, Disconnects, Confirms, FaxSpec.StartCall, FaxSpec.Prepare, Inv,
           FaxSpec.SetNewModulation;
      StepKeeps(Abs(), i);
      Flags();
      match i
      case Ready =>
        if mod == ModNull || mod == ModIdle {
          SetNewModulation(ModReady);
        }
      case Connect => Connect();
      case NoCarrier(prep) => Disconnect(prep);
      case Received(frame) => MainEvent(Data, Arg(frame, NoPrep()));
      case Confirmed(prep) => Confirm(prep);
      case Delay => MainEvent(DelayTimer, Arg([], NoPrep()));
      case ConnectB3 => StartCall();
      case DataB3(prep) => Prepare(prep);
    }
  }

  /** The first element of the second list moves to the end of the first. */
  lemma Moved(a: seq<Frame>, b: seq<Frame>)
    requires b != []
    ensures a + b == a + [b[0]] + b[1..]
  {
  }

  lemma HandPageShrinks(f: Fax)
    requires f.pageq != []
    ensures |HandPage(f).pageq| < |f.pageq|
    ensures HandAllPages(f) == HandAllPages(HandPage(f))
  {
  }
}
