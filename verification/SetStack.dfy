/**
 Building the layers of a stack: the manager keeps the run of layers it handles, and an instance is
 found or made for the lowest layer left until none is left.
 */
module SetStack {
  import opened Basics
  import opened LayerMask

  const LAYERS: nat := 8
  const NO_PROTOCOL: nat := 0
  const ANY_PROTOCOL: nat := 0xffff_ffff
  const BCHANNEL_BIT: nat := 30

  /** Layers asked for or served, and the protocol of each. */
  datatype PidValue = Pid(mask: int, protocol: seq<nat>)
  type Pid = p: PidValue | |p.protocol| == 8 witness Pid(0, [0, 0, 0, 0, 0, 0, 0, 0])

  /** The protocols an object implements, by layer, on the D channel and on a B channel. */
  datatype ObjectValue = Object(dproto: seq<nat>, bproto: seq<nat>)
  type Object = o: ObjectValue | |o.dproto| == 8 && |o.bproto| == 8
    witness Object([0, 0, 0, 0, 0, 0, 0, 0], [0, 0, 0, 0, 0, 0, 0, 0])

  predicate Within(a: nat, b: nat) {
    forall n :: 0 <= n < 32 && Bit(a, n) ==> Bit(b, n)
  }

  predicate HasProtocol(obj: Object, protocol: nat) {
    var layer := (protocol / 0x100_0000) % 16;
    && layer <= MAX_LAYER_NR
    && var pmask := if Bit(protocol, BCHANNEL_BIT) then obj.bproto[layer] else obj.dproto[layer];
       pmask != ANY_PROTOCOL && Within(protocol, pmask)
  }

  // ----- what a manager handles -------------------------------------------------------------

  /** The layer is asked for, and the object implements the protocol asked for. */
  predicate Serves(obj: Object, pid: Pid, n: int) {
    0 <= n <= MAX_LAYER_NR && Bit(pid.mask, n) && HasProtocol(obj, pid.protocol[n])
  }

  /** handled is the longest run of count layers that starts at the lowest layer asked for and that
      the object serves throughout. */
  ghost predicate HandledRun(obj: Object, pid: Pid, handled: Pid, count: nat) {
    var low := LowLayer(pid.mask);
    && (forall n: nat :: Bit(handled.mask, n) <==> low <= n < low + count)
    && (forall n | low <= n < low + count :: Serves(obj, pid, n))
    && !Serves(obj, pid, low + count)
    && (forall n | 0 <= n <= MAX_LAYER_NR ::
          handled.protocol[n] == if low <= n < low + count then pid.protocol[n] else NO_PROTOCOL)
  }

  method SetHandledPid(obj: Object, pid: Pid) returns (handled: Pid, count: nat)
    ensures HandledRun(obj, pid, handled, count)
  {
    hide HasProtocol, Bit, With, LowLayer;
    var protocol := [0, 0, 0, 0, 0, 0, 0, 0];
    var mask := 0;
    ghost var low := LowLayer(pid.mask);
    count := 0;
    EmptyMask();
    var layer := 0;
    while layer <= MAX_LAYER_NR
      invariant 0 <= layer <= LAYERS && |protocol| == 8
      invariant count == 0 ==> forall n | 0 <= n < layer :: !Bit(pid.mask, n)
      invariant count > 0 ==> layer == low + count
      invariant forall n: nat :: Bit(mask, n) <==> low <= n < low + count
      invariant forall n | low <= n < low + count :: Serves(obj, pid, n)
      invariant forall n | 0 <= n <= MAX_LAYER_NR ::
                  protocol[n] == if low <= n < low + count then pid.protocol[n] else NO_PROTOCOL
    {
      if !Bit(pid.mask, layer) {
        if count > 0 {
          break;
        }
      } else if HasProtocol(obj, pid.protocol[layer]) {
        assert layer == low + count;
        forall n: nat
          ensures Bit(With(mask, layer), n) <==> low <= n < low + count + 1
        {
          WithBits(mask, layer, n);
        }
        count := count + 1;
        protocol := protocol[layer := pid.protocol[layer]];
        mask := With(mask, layer);
      } else {
        assert layer == low + count;
        break;
      }
      layer := layer + 1;
    }
    handled := Pid(mask, protocol);
  }

  lemma EmptyMask()
    ensures forall n: nat :: !Bit(0, n)
  {
    forall n: nat
      ensures !Bit(0, n)
    {
      ZeroHasNoBit(n);
    }
  }

  /** The run is fixed by the request and the object. */
  lemma HandledRunUnique(obj: Object, pid: Pid, a: Pid, m: nat, b: Pid, n: nat)
    requires HandledRun(obj, pid, a, m) && HandledRun(obj, pid, b, n)
    ensures m == n && a.protocol == b.protocol && forall k: nat :: Bit(a.mask, k) <==> Bit(b.mask, k)
  {
    hide Bit, HasProtocol;
    var low := LowLayer(pid.mask);
    assert m < n ==> Serves(obj, pid, low + m);
    assert n < m ==> Serves(obj, pid, low + n);
  }

  // ----- removing what is used --------------------------------------------------------------

  /** The mask without the layers below n that are in used. */
  function Without(m: int, used: int, n: nat): int {
    if n == 0 then m
    else
      var rest := Without(m, used, n - 1);
      if Bit(used, n - 1) then Clear(rest, n - 1) else rest
  }

  lemma {:induction false} WithoutBits(m: int, used: int, n: nat, k: nat)
    ensures Bit(Without(m, used, n), k) <==> Bit(m, k) && !(k < n && Bit(used, k))
    decreases n
  {
    hide Bit, Clear;
    if n > 0 {
      WithoutBits(m, used, n - 1, k);
      ClearBits(Without(m, used, n - 1), n - 1, k);
    }
  }

  lemma {:induction false} WithoutShrinks(m: int, used: int, n: nat)
    ensures Without(m, used, n) <= m && (0 <= m ==> 0 <= Without(m, used, n))
    decreases n
  {
    if n > 0 {
      WithoutShrinks(m, used, n - 1);
      ClearShrinks(Without(m, used, n - 1), n - 1);
    }
  }

  /** What is left of a request when the layers of another are taken care of. */
  function RemoveUsed(pid: Pid, used: Pid): Pid {
    Pid(Without(pid.mask, used.mask, LAYERS),
        seq(8, n requires 0 <= n < 8 => if Bit(used.mask, n) then NO_PROTOCOL else pid.protocol[n]))
  }

  method RemoveUsedPid(pid: Pid, used: Pid) returns (rest: Pid)
    ensures rest == RemoveUsed(pid, used)
  {
    hide Bit, Clear;
    var mask, protocol := pid.mask, pid.protocol;
    if used.mask == 0 {
      EmptyMask();
      NothingUsed(pid, used, LAYERS);
      assert RemoveUsed(pid, used).protocol == pid.protocol;
      return pid;
    }
    var layer := 0;
    while layer <= MAX_LAYER_NR
      invariant 0 <= layer <= LAYERS && |protocol| == 8
      invariant mask == Without(pid.mask, used.mask, layer)
      invariant forall n | 0 <= n < 8 ::
                  protocol[n] == if n < layer && Bit(used.mask, n) then NO_PROTOCOL else pid.protocol[n]
    {
      if Bit(used.mask, layer) {
        protocol := protocol[layer := NO_PROTOCOL];
        mask := Clear(mask, layer);
      }
      layer := layer + 1;
    }
    rest := Pid(mask, protocol);
    assert rest.protocol == RemoveUsed(pid, used).protocol;
  }

  lemma {:induction false} NothingUsed(pid: Pid, used: Pid, n: nat)
    requires forall k: nat :: !Bit(used.mask, k)
    ensures Without(pid.mask, used.mask, n) == pid.mask
    decreases n
  {
    if n > 0 {
      NothingUsed(pid, used, n - 1);
    }
  }

  // ----- finding an instance ----------------------------------------------------------------

  /** The first of the stack's instances that serves the layer with the protocol. */
  function FindServing(layers: seq<Pid>, n: nat, protocol: nat): (k: nat)
    requires n <= MAX_LAYER_NR
    ensures k <= |layers|
    ensures k < |layers| ==> Bit(layers[k].mask, n) && layers[k].protocol[n] == protocol
    ensures forall j | 0 <= j < k :: !(Bit(layers[j].mask, n) && layers[j].protocol[n] == protocol)
  {
    if layers == [] || (Bit(layers[0].mask, n) && layers[0].protocol[n] == protocol) then 0
    else 1 + FindServing(layers[1..], n, protocol)
  }

  /** None for a layer number out of range, and when no instance serves it. */
  method GetInstance(layers: seq<Pid>, n: int, protocol: nat) returns (r: Option<Pid>)
    ensures r.Some? <==> 0 <= n <= MAX_LAYER_NR && FindServing(layers, n, protocol) < |layers|
    ensures r.Some? ==> r.value == layers[FindServing(layers, n, protocol)]
  {
    hide Bit;
    if n < 0 || n > MAX_LAYER_NR {
      return None;
    }
    var k := 0;
    while k < |layers|
      invariant 0 <= k <= |layers|
      invariant forall j | 0 <= j < k :: !(Bit(layers[j].mask, n) && layers[j].protocol[n] == protocol)
    {
      if Bit(layers[k].mask, n) && layers[k].protocol[n] == protocol {
        return Some(layers[k]);
      }
      k := k + 1;
    }
    return None;
  }

  /** What asking an object for a new layer comes to: there is no such object, it fails, or the
      stack then has these layers. */
  datatype Made = NoObject | Failed | Layers(layers: seq<Pid>)

  /** The instance serves the lowest layer of the request with the protocol asked for. */
  predicate ServesLowest(pid: Pid, inst: Pid) {
    var n := LowLayer(pid.mask);
    Bit(inst.mask, n) && inst.protocol[n] == pid.protocol[n]
  }

  /** What the layers have for the lowest layer of the request. */
  function Looked(layers: seq<Pid>, pid: Pid): Option<Pid> {
    var n := LowLayer(pid.mask);
    var k := FindServing(layers, n, pid.protocol[n]);
    if k < |layers| then Some(layers[k]) else None
  }

  method GetNextInstance(layers: seq<Pid>, pid: Pid, made: Made) returns (now: seq<Pid>, r: Option<Pid>)
    ensures now == if Looked(layers, pid).None? && made.Layers? then made.layers else layers
    ensures r == Looked(now, pid)
    ensures r.Some? ==> r.value in now && ServesLowest(pid, r.value)
    ensures r.None? ==> forall k | 0 <= k < |layers| :: !ServesLowest(pid, layers[k])
    ensures r.None? && made.Layers? ==> forall k | 0 <= k < |made.layers| :: !ServesLowest(pid, made.layers[k])
  {
    hide Bit;
    var n := GetLowLayer(pid.mask);
    now := layers;
    r := GetInstance(layers, n, pid.protocol[n]);
    if r.None? && made.Layers? {
      now := made.layers;
      r := GetInstance(now, n, pid.protocol[n]);
    }
  }

  // ----- the loop ---------------------------------------------------------------------------

  /** What is left of the request after the used ones, in order. */
  function Remaining(pid: Pid, used: seq<Pid>): Pid {
    if used == [] then pid else RemoveUsed(Remaining(pid, used[..|used| - 1]), used[|used| - 1])
  }

  /** A layer is left exactly when it is asked for and none of the used ones has it. */
  lemma {:induction false} RemainingBits(pid: Pid, used: seq<Pid>, n: nat)
    ensures Bit(Remaining(pid, used).mask, n) <==>
            Bit(pid.mask, n) && !(n <= MAX_LAYER_NR && exists k :: 0 <= k < |used| && Bit(used[k].mask, n))
    ensures n <= MAX_LAYER_NR && Bit(Remaining(pid, used).mask, n) ==> Remaining(pid, used).protocol[n] == pid.protocol[n]
    decreases |used|
  {
    hide Bit, Without;
    if used != [] {
      var last := |used| - 1;
      RemainingBits(pid, used[..last], n);
      WithoutBits(Remaining(pid, used[..last]).mask, used[last].mask, LAYERS, n);
      assert forall k | 0 <= k < last :: used[..last][k] == used[k];
    }
  }

  lemma {:induction false} RemainingShrinks(pid: Pid, used: seq<Pid>)
    requires 0 <= pid.mask
    ensures 0 <= Remaining(pid, used).mask <= pid.mask
    decreases |used|
  {
    if used != [] {
      var rest := used[..|used| - 1];
      RemainingShrinks(pid, rest);
      WithoutShrinks(Remaining(pid, rest).mask, used[|used| - 1].mask, LAYERS);
    }
  }

  /** How many of the first n bits are set. */
  function Count(m: int, n: nat): nat {
    if n == 0 then 0 else Count(m, n - 1) + (if Bit(m, n - 1) then 1 else 0)
  }

  lemma {:induction false} CountLess(a: int, b: int, n: nat)
    requires forall k | 0 <= k < n && Bit(a, k) :: Bit(b, k)
    ensures Count(a, n) <= Count(b, n)
    ensures (exists k :: 0 <= k < n && Bit(b, k) && !Bit(a, k)) ==> Count(a, n) < Count(b, n)
    decreases n
  {
    hide Bit;
    if n > 0 {
      CountLess(a, b, n - 1);
    }
  }

  /** Taking care of the lowest layer clears it, and leaves a smaller request with fewer layers. */
  lemma RoundShrinks(pid: Pid, inst: Pid)
    requires HasLayer(pid.mask) && ServesLowest(pid, inst)
    ensures !Bit(RemoveUsed(pid, inst).mask, LowLayer(pid.mask))
    ensures RemoveUsed(pid, inst).mask < pid.mask
    ensures Count(RemoveUsed(pid, inst).mask, LAYERS) < Count(pid.mask, LAYERS)
  {
    hide Bit, Without, Count;
    var rest := RemoveUsed(pid, inst).mask;
    WithoutShrinks(pid.mask, inst.mask, LAYERS);
    forall k: nat
      ensures Bit(rest, k) ==> Bit(pid.mask, k)
    {
      WithoutBits(pid.mask, inst.mask, LAYERS, k);
    }
    WithoutBits(pid.mask, inst.mask, LAYERS, LowLayer(pid.mask));
    CountLess(rest, pid.mask, LAYERS);
  }

  /** With no layer left but other bits, a round changes nothing but protocols. */
  lemma RoundWithoutLayers(pid: Pid, inst: Pid)
    requires !HasLayer(pid.mask)
    ensures RemoveUsed(pid, inst).mask == pid.mask
  {
    NothingLeft(pid.mask, inst.mask, LAYERS);
  }

  lemma {:induction false} NothingLeft(m: int, used: int, n: nat)
    requires n <= LAYERS && !HasLayer(m)
    ensures Without(m, used, n) == m
    decreases n
  {
    if n > 0 {
      NothingLeft(m, used, n - 1);
      ClearShrinks(m, n - 1);
    }
  }

  /** The round does not change what the next round looks at. */
  predicate Repeats(pid: Pid, inst: Pid) {
    && pid.mask != 0 && !HasLayer(pid.mask) && ServesLowest(pid, inst)
    && RemoveUsed(pid, inst).protocol[0] == pid.protocol[0]
  }

  function Again(inst: Pid, n: nat): seq<Pid> {
    if n == 0 then [] else Again(inst, n - 1) + [inst]
  }

  lemma RepeatsOnce(layers: seq<Pid>, pid: Pid, inst: Pid)
    requires Repeats(pid, inst)
    ensures RemoveUsed(pid, inst).mask == pid.mask != 0 && Repeats(RemoveUsed(pid, inst), inst)
    ensures Looked(layers, RemoveUsed(pid, inst)) == Looked(layers, pid)
  {
    hide Bit, Without, LowLayer, HasLayer;
    NoLowLayer(pid.mask);
    RoundWithoutLayers(pid, inst);
  }

  /** Such a round is followed by the same round, however often: the layers have the same instance
      for it, and the loop never ends. */
  lemma {:induction false} RepeatsForever(layers: seq<Pid>, pid: Pid, inst: Pid, n: nat)
    requires Looked(layers, pid) == Some(inst) && Repeats(pid, inst)
    ensures Remaining(pid, Again(inst, n)).mask == pid.mask != 0
    ensures Looked(layers, Remaining(pid, Again(inst, n))) == Some(inst)
    ensures Repeats(Remaining(pid, Again(inst, n)), inst)
    decreases n
  {
    hide RemoveUsed, HasLayer, ServesLowest, Looked;
    if n > 0 {
      RepeatsForever(layers, pid, inst, n - 1);
      OneMore(pid, Again(inst, n - 1), inst);
      RepeatsOnce(layers, Remaining(pid, Again(inst, n - 1)), inst);
    }
  }

  lemma ProtocolCleared(pid: Pid, inst: Pid)
    requires Bit(inst.mask, 0)
    ensures RemoveUsed(pid, inst).protocol[0] == NO_PROTOCOL
  {
  }

  /** A request for bit 8 only, and an instance for layer 0 without protocol. */
  lemma RepeatsReached(n: nat)
    ensures var none := [0, 0, 0, 0, 0, 0, 0, 0];
            var pid, inst := Pid(256, none), Pid(1, none);
            && Looked([inst], pid) == Some(inst) && Repeats(pid, inst)
            && Remaining(pid, Again(inst, n)).mask == 256
            && Looked([inst], Remaining(pid, Again(inst, n))) == Some(inst)
  {
    hide Remaining, RemoveUsed;
    var none := [0, 0, 0, 0, 0, 0, 0, 0];
    var pid, inst := Pid(256, none), Pid(1, none);
    assert !HasLayer(256) && LowLayer(256) == 0 by {
      NoLayerIn256();
    }
    assert Bit(1, 0) && FindServing([inst], 0, 0) == 0;
    assert RemoveUsed(pid, inst).protocol[0] == 0 by {
      ProtocolCleared(pid, inst);
    }
    RepeatsForever([inst], pid, inst, n);
  }

  lemma NoLowLayer(m: int)
    requires !HasLayer(m)
    ensures LowLayer(m) == 0
  {
  }

  datatype Outcome =
    | NotHandled                  // the manager does not serve the lowest layer asked for
    | NotRegistered               // the manager could not take its layers
    | NoInstance(layer: nat)      // nothing serves this layer with its protocol
    | Endless                     // the last round repeats for ever
    | Built

  /** Every instance found served the lowest layer that was left when it was found. */
  predicate InOrder(pid: Pid, found: seq<Pid>) {
    forall k | 0 <= k < |found| :: ServesLowest(Remaining(pid, found[..k]), found[k])
  }

  lemma InOrderMore(pid: Pid, found: seq<Pid>, x: Pid)
    requires InOrder(pid, found) && ServesLowest(Remaining(pid, found), x)
    ensures InOrder(pid, found + [x])
  {
    hide ServesLowest, Remaining;
    var all := found + [x];
    forall k | 0 <= k < |all|
      ensures ServesLowest(Remaining(pid, all[..k]), all[k])
    {
      assert all[..k] == found[..k];
      assert found[..|found|] == found;
    }
  }

  /** The loop: the lowest layer left is taken care of until none is left. make says what each request
      for a new layer comes to. Where the loop would go round for ever, the method says so. */
  method Fill(layers: seq<Pid>, pid: Pid, make: (nat, seq<Pid>, Pid) -> Made)
    returns (outcome: Outcome, found: seq<Pid>, now: seq<Pid>)
    ensures outcome.Built? || outcome.NoInstance? || outcome.Endless?
    ensures InOrder(pid, found)
    ensures outcome.Built? ==> Remaining(pid, found).mask == 0
    ensures outcome.NoInstance? ==>
              var rest := Remaining(pid, found);
              && rest.mask != 0 && outcome.layer == LowLayer(rest.mask)
              && forall k | 0 <= k < |now| :: !ServesLowest(rest, now[k])
    ensures outcome.Endless? ==>
              && found != [] && found[|found| - 1] in now
              && Repeats(Remaining(pid, found[..|found| - 1]), found[|found| - 1])
              && Looked(now, Remaining(pid, found[..|found| - 1])) == Some(found[|found| - 1])
  {
    hide Bit, LowLayer, Without, HasLayer, Count, InOrder, Looked;
    found, now := [], layers;
    assert InOrder(pid, found) by { InOrderNone(pid); }
    var rest := pid;
    while rest.mask != 0
      invariant rest == Remaining(pid, found) && InOrder(pid, found)
      decreases Count(rest.mask, LAYERS), if rest.protocol[0] == NO_PROTOCOL then 0 else 1
    {
      var next;
      now, next := GetNextInstance(now, rest, make(|found|, now, rest));
      if next.None? {
        return NoInstance(LowLayer(rest.mask)), found, now;
      }
      var after := RemoveUsedPid(rest, next.value);
      OneMore(pid, found, next.value);
      InOrderMore(pid, found, next.value);
      assert (found + [next.value])[..|found|] == found;
      found := found + [next.value];
      if HasLayer(rest.mask) {
        RoundShrinks(rest, next.value);
      } else {
        NoLowLayer(rest.mask);
        RoundWithoutLayers(rest, next.value);
        if after.protocol[0] == rest.protocol[0] {
          return Endless, found, now;
        }
      }
      rest := after;
    }
    outcome := Built;
  }

  lemma InOrderNone(pid: Pid)
    ensures InOrder(pid, [])
  {
  }

  lemma {:induction false} RemainingSplit(pid: Pid, first: Pid, rest: seq<Pid>)
    ensures Remaining(pid, [first] + rest) == Remaining(RemoveUsed(pid, first), rest)
    decreases |rest|
  {
    hide RemoveUsed;
    if rest == [] {
      assert [first] + rest == [first] && [first][..0] == [];
    } else {
      var n := |rest| - 1;
      assert ([first] + rest)[..|rest|] == [first] + rest[..n];
      RemainingSplit(pid, first, rest[..n]);
    }
  }

  /** Builds the layers of a stack: the manager takes the run of layers it handles, and the loop fills
      the rest. When all are filled, manager and instances found cover the whole request; with bits
      beyond the eight layers that never happens. */
  method Build(mgr: Object, layers: seq<Pid>, pid: Pid, registered: bool, make: (nat, seq<Pid>, Pid) -> Made)
    returns (outcome: Outcome, handled: Pid, found: seq<Pid>, now: seq<Pid>)
    ensures outcome.NotHandled? <==> !Serves(mgr, pid, LowLayer(pid.mask))
    ensures !outcome.NotHandled? ==> exists count: nat :: count > 0 && HandledRun(mgr, pid, handled, count)
    ensures InOrder(RemoveUsed(pid, handled), found)
    ensures outcome.Built? ==> 0 <= pid.mask < 256
    ensures outcome.Built? ==>
              forall n | 0 <= n <= MAX_LAYER_NR && Bit(pid.mask, n) ::
                Bit(handled.mask, n) || exists k :: 0 <= k < |found| && Bit(found[k].mask, n)
    ensures outcome.NoInstance? ==>
              var rest := Remaining(pid, [handled] + found);
              && outcome.layer == LowLayer(rest.mask) && (HasLayer(rest.mask) ==> Bit(pid.mask, outcome.layer))
              && forall k | 0 <= k < |now| :: !ServesLowest(rest, now[k])
    ensures outcome.Endless? ==>
              && !(0 <= pid.mask < 256) && found != [] && found[|found| - 1] in now
              && Repeats(Remaining(pid, [handled] + found[..|found| - 1]), found[|found| - 1])
              && Looked(now, Remaining(pid, [handled] + found[..|found| - 1])) == Some(found[|found| - 1])
  {
    hide Bit, LowLayer, HasLayer, HasProtocol, Remaining, RemoveUsed, ServesLowest, Looked;
    found, now := [], layers;
    var count;
    handled, count := SetHandledPid(mgr, pid);
    InOrderNone(RemoveUsed(pid, handled));
    if count == 0 {
      return NotHandled, handled, found, now;
    }
    if !registered {
      return NotRegistered, handled, found, now;
    }
    var rest := RemoveUsedPid(pid, handled);
    outcome, found, now := Fill(layers, rest, make);
    RemainingSplit(pid, handled, found);
    if outcome.Built? {
      Covered(pid, handled, found);
      FinishableIff(pid);
    } else if outcome.NoInstance? {
      LowestAsked(pid, [handled] + found);
    } else {
      RemainingSplit(pid, handled, found[..|found| - 1]);
      NeverBuilt(pid, [handled] + found[..|found| - 1]);
    }
  }

  /** Bits left over mean that more than the eight layers were asked for. */
  lemma NeverBuilt(pid: Pid, used: seq<Pid>)
    requires Remaining(pid, used).mask != 0 && !HasLayer(Remaining(pid, used).mask)
    ensures !(0 <= pid.mask < 256)
  {
    if 0 <= pid.mask < 256 {
      RemainingShrinks(pid, used);
      OnlyLayers(Remaining(pid, used).mask);
    }
  }

  lemma OneMore(pid: Pid, used: seq<Pid>, x: Pid)
    ensures Remaining(pid, used + [x]) == RemoveUsed(Remaining(pid, used), x)
  {
    assert (used + [x])[..|used|] == used;
  }

  lemma LowestAsked(pid: Pid, used: seq<Pid>)
    ensures HasLayer(Remaining(pid, used).mask) ==> Bit(pid.mask, LowLayer(Remaining(pid, used).mask))
  {
    hide Bit, Remaining;
    var rest := Remaining(pid, used);
    RemainingBits(pid, used, LowLayer(rest.mask));
  }

  /** Nothing left means that everything asked for is covered. */
  lemma Covered(pid: Pid, handled: Pid, found: seq<Pid>)
    requires Remaining(pid, [handled] + found).mask == 0
    ensures forall n | 0 <= n <= MAX_LAYER_NR && Bit(pid.mask, n) ::
              Bit(handled.mask, n) || exists k :: 0 <= k < |found| && Bit(found[k].mask, n)
  {
    hide Bit, Remaining;
    EmptyMask();
    var used := [handled] + found;
    forall n | 0 <= n <= MAX_LAYER_NR && Bit(pid.mask, n)
      ensures Bit(handled.mask, n) || exists k :: 0 <= k < |found| && Bit(found[k].mask, n)
    {
      RemainingBits(pid, used, n);
      var k :| 0 <= k < |used| && Bit(used[k].mask, n);
      if k > 0 {
        assert used[k] == found[k - 1];
      }
    }
  }

  // ----- masks with more than the eight layers ----------------------------------------------

  lemma {:induction false} ShiftBits(m: int, d: nat, n: nat)
    ensures Bit(m, n + d) == Bit(Shifted(m, d), n)
    decreases d
  {
    if d > 0 {
      ShiftBits(m / 2, d - 1, n);
    }
  }

  function Shifted(m: int, d: nat): int
    decreases d
  {
    if d == 0 then m else Shifted(m / 2, d - 1)
  }

  lemma {:induction false} ShiftedZero(m: int, d: nat)
    ensures Shifted(m, d) == 0 <==> 0 <= m < Pow2(d)
    decreases d
  {
    if d > 0 {
      ShiftedZero(m / 2, d - 1);
    }
  }

  /** A number of any size other than zero has a bit. */
  lemma {:induction false} AnyBit(m: int) returns (n: nat)
    requires m != 0
    ensures Bit(m, n)
    decreases if m < 0 then -m else m
  {
    if m % 2 == 1 {
      n := 0;
    } else {
      var k := AnyBit(m / 2);
      n := k + 1;
    }
  }

  /** The loop can come to an end with every layer taken care of exactly when the request has
      nothing but the eight layers: no instance ever takes care of another bit. */
  lemma FinishableIff(pid: Pid)
    ensures (exists used: seq<Pid> :: Remaining(pid, used).mask == 0) <==> 0 <= pid.mask < 256
  {
    hide Bit, Remaining, Shifted;
    Powers();
    ShiftedZero(pid.mask, 8);
    if 0 <= pid.mask < 256 {
      AllAtOnce(pid);
      assert Remaining(pid, [pid]).mask == 0;
    } else {
      var n := AnyBit(Shifted(pid.mask, 8));
      ShiftBits(pid.mask, 8, n);
      forall used: seq<Pid>
        ensures Remaining(pid, used).mask != 0
      {
        RemainingBits(pid, used, n + 8);
        EmptyMask();
      }
    }
  }

  lemma AllAtOnce(pid: Pid)
    requires 0 <= pid.mask < 256
    ensures Remaining(pid, [pid]).mask == 0
  {
    hide Bit, Remaining;
    var rest := Remaining(pid, [pid]);
    RemainingShrinks(pid, [pid]);
    forall n | 0 <= n <= MAX_LAYER_NR
      ensures !Bit(rest.mask, n)
    {
      RemainingBits(pid, [pid], n);
      assert [pid][0] == pid;
    }
    if rest.mask != 0 {
      OnlyLayers(rest.mask);
    }
  }
}
