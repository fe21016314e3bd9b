/**
 Ids in every run of the registry: no two stacks and no two instances share one, and looking an id
 up finds its owner.
 */
module StackTheorems {
  import opened Basics
  import opened LayerMask
  import opened StackLayers
  import opened StackRegistry
  import opened StackRuns

  // ----- stack ids --------------------------------------------------------------------------

  /** A listed stack that got no id and has children. */
  predicate NamelessParent<I>(stacks: seq<Stack<I>>, k: nat) {
    k < |stacks| && stacks[k].id == 0 && stacks[k].children != []
  }

  /** At most one such stack. */
  predicate OneNameless<I>(stacks: seq<Stack<I>>) {
    forall j, k | 0 <= j < k < |stacks| :: !(NamelessParent(stacks, j) && NamelessParent(stacks, k))
  }

  lemma TopIdsDiffer<I>(stacks: seq<Stack<I>>, j: nat, k: nat)
    requires Unique(IdsIn(stacks)) && j < |stacks| && k < |stacks| && j != k && stacks[j].id == stacks[k].id
    ensures stacks[j].id == 0
  {
    var ids := IdsIn(stacks);
    assert ids[j] == ids[k];
  }

  lemma SiblingsDiffer<I>(stacks: seq<Stack<I>>, k: nat, c: nat, d: nat)
    requires StacksOk(stacks) && k < |stacks| && c < |stacks[k].children| && d < |stacks[k].children| && c != d
    requires stacks[k].children[c].id == stacks[k].children[d].id
    ensures stacks[k].children[c].id == 0
  {
    assert TopOk(stacks[k]);
    TopIdsDiffer(stacks[k].children, c, d);
  }

  /** Two stacks share an id only as children of two parents that got none. */
  lemma SharedIdPlaces<I>(stacks: seq<Stack<I>>, w: Where, v: Where)
    requires StacksOk(stacks) && Unique(IdsIn(stacks))
    requires Listed(stacks, w) && Listed(stacks, v) && w != v
    requires At(stacks, w).id == At(stacks, v).id != 0
    ensures w.Under? && v.Under? && w.k != v.k && NamelessParent(stacks, w.k) && NamelessParent(stacks, v.k)
  {
    hide TopOk, Unique, StacksOk;
    ListedRange(stacks, w);
    ListedRange(stacks, v);
    if w.Top? && v.Top? {
      TopIdsDiffer(stacks, w.k, v.k);
    } else if w.Under? && v.Under? {
      if w.k == v.k {
        SiblingsDiffer(stacks, w.k, w.c, v.c);
      } else if stacks[w.k].id != 0 {
        TopIdsDiffer(stacks, w.k, v.k);
      }
    }
  }

  /** Two parents without an id give their first children the same one. */
  lemma NamelessParentsClash<I>(stacks: seq<Stack<I>>, j: nat, k: nat)
    requires StacksOk(stacks) && NamelessParent(stacks, j) && NamelessParent(stacks, k)
    ensures At(stacks, Under(j, 0)).id == At(stacks, Under(k, 0)).id == FLG_CHILD + ID_INC
  {
    hide Tidy, Unique, ChildOk;
    assert TopOk(stacks[j]) && TopOk(stacks[k]);
  }

  /** Every id but 0 belongs to one listed stack. */
  ghost predicate DistinctIds<I>(stacks: seq<Stack<I>>) {
    forall w, v | Listed(stacks, w) && Listed(stacks, v) && w != v && At(stacks, w).id == At(stacks, v).id ::
      At(stacks, w).id == 0
  }

  lemma DistinctIff<I>(stacks: seq<Stack<I>>)
    requires StacksOk(stacks) && Unique(IdsIn(stacks))
    ensures DistinctIds(stacks) <==> OneNameless(stacks)
  {
    hide StacksOk, Unique;
    if OneNameless(stacks) {
      forall w, v | Listed(stacks, w) && Listed(stacks, v) && w != v && At(stacks, w).id == At(stacks, v).id
        ensures At(stacks, w).id == 0
      {
        if At(stacks, w).id != 0 {
          SharedIdPlaces(stacks, w, v);
        }
      }
    } else {
      var j, k :| 0 <= j < k < |stacks| && NamelessParent(stacks, j) && NamelessParent(stacks, k);
      NamelessParentsClash(stacks, j, k);
    }
  }

  lemma EmptyInv<I>()
    ensures Inv<I>(Empty())
  {
  }

  /** In every run: the stacks that have ids have different ones if and only if at most one stack
      without an id has children, and then an id finds its stack. Without that condition, an id
      still finds its stack unless the stack is a child of such a parent. */
  lemma StackIdsInEveryRun<I>(run: seq<Event<I>>, r: Registry<I>, w: Where)
    requires Reaches(Empty(), run, r) && Listed(r.stacks, w)
    ensures DistinctIds(r.stacks) <==> OneNameless(r.stacks)
    ensures At(r.stacks, w).id != 0 && (OneNameless(r.stacks) || !(w.Under? && NamelessParent(r.stacks, w.k))) ==>
              Lookup(r.stacks, At(r.stacks, w).id) == Some(w)
    ensures Tidy(At(r.stacks, w).layers)
  {
    hide Gather, Unique, Reaches, InstsOk, LookupFrom, StacksOk, Tidy;
    EmptyInv<I>();
    RunKeeps(Empty(), run, r);
    DistinctIff(r.stacks);
    ListedTidy(r.stacks, w);
    var id := At(r.stacks, w).id;
    if id != 0 && (OneNameless(r.stacks) || !(w.Under? && NamelessParent(r.stacks, w.k))) {
      assert LookupFrom(r.stacks, id, 0).Some?;
      var v := LookupFrom(r.stacks, id, 0).value;
      if v != w {
        SharedIdPlaces(r.stacks, w, v);
      }
    }
  }

  // ----- instances --------------------------------------------------------------------------

  /** A listed entry comes from a layer of a listed stack. */
  lemma EntryHome<I>(r: Registry<I>, e: Inst<I>) returns (w: Where, j: nat)
    requires e in Gather(r.stacks, EntriesOf)
    ensures Listed(r.stacks, w) && j < |At(r.stacks, w).layers|
    ensures e == Entry(At(r.stacks, w).id, At(r.stacks, w).layers[j])
  {
    hide InstId, Gather;
    var k := GatherHas(r.stacks, EntriesOf, e);
    var s := r.stacks[k];
    if e in Own(s) {
      w := Top(k);
      j :| 0 <= j < |s.layers| && Own(s)[j] == e;
    } else {
      var c := GatherHas(s.children, Own, e);
      w := Under(k, c);
      j :| 0 <= j < |s.children[c].layers| && Own(s.children[c])[j] == e;
    }
  }

  /** Layer and stack can be read off an instance id. */
  lemma InstIdInjective(s: nat, a: Mask, t: nat, b: Mask)
    requires s < FLG_CLONE + 0x1_0000 && t < FLG_CLONE + 0x1_0000
    requires s % FLG_CHILD < 0x1_0000 && t % FLG_CHILD < 0x1_0000
    requires InstId(s, a) == InstId(t, b)
    ensures s == t && LowLayer(a) == LowLayer(b)
  {
    hide LowLayer;
    var m, n: nat := LowLayer(a), LowLayer(b);
    assert m * 0x10_0000 + s == n * 0x10_0000 + t;
    if m != n {
      Apart(m, s, n, t);
    }
  }

  /** Stack ids leave the bits of the layer free. */
  lemma Apart(m: nat, s: nat, n: nat, t: nat)
    requires m <= 7 && n <= 7 && m * 0x10_0000 + s == n * 0x10_0000 + t
    requires s < FLG_CLONE + 0x1_0000 && t < FLG_CLONE + 0x1_0000
    requires s % FLG_CHILD < 0x1_0000 && t % FLG_CHILD < 0x1_0000
    ensures m == n
  {
    var p, q := s / FLG_CHILD, t / FLG_CHILD;
    assert s == FLG_CHILD * p + s % FLG_CHILD && t == FLG_CHILD * q + t % FLG_CHILD;
    assert 0 <= p <= 2 && 0 <= q <= 2;
  }

  /** A number has no bits above its width. */
  lemma NoBitAbove(b: int, k: nat, n: nat)
    requires 0 <= b < Pow2(k) && k <= n
    ensures !Bit(b, n)
  {
    BitSplit(0, b, k, n);
    ZeroHasNoBit(n - k);
  }

  /** The two top bits of a stack id beside the instance flag. */
  lemma FlagBits(p: nat, n: nat)
    requires p <= 2
    ensures Bit(4 + p, n) <==> Bit(p, n) || n == 2
  {
    BitSplit(1, p, 2, n);
    assert Pow2(2) == 4;
    if n > 2 {
      ZeroHasNoBit(n - 3);
      NoBitAbove(p, 2, n);
    } else if n == 2 {
      NoBitAbove(p, 2, n);
    }
  }

  /** An instance id is the bitwise or of the shifted layer, the instance flag and the stack id. */
  lemma InstIdIsOr(stack: nat, mask: Mask, n: nat)
    requires stack < FLG_CLONE + 0x1_0000 && stack % FLG_CHILD < 0x1_0000
    ensures Bit(InstId(stack, mask), n) <==>
            (n >= 20 && Bit(LowLayer(mask), n - 20)) || n == 30 || Bit(stack, n)
  {
    hide LowLayer, Bit, Pow2;
    Powers();
    var low, p, s: nat := LowLayer(mask), stack / FLG_CHILD, stack % FLG_CHILD;
    assert stack == p * Pow2(28) + s;
    assert InstId(stack, mask) == (4 + p) * Pow2(28) + (low * Pow2(20) + s);
    BitSplit(p, s, 28, n);
    BitSplit(4 + p, low * Pow2(20) + s, 28, n);
    if n < 28 {
      BitSplit(low, s, 20, n);
      if n >= 20 {
        NoBitAbove(s, 16, n);
      }
    } else {
      FlagBits(p, n - 28);
      LowFits(low);
      NoBitAbove(low, 3, n - 20);
    }
  }

  lemma LowFits(low: nat)
    requires low <= MAX_LAYER_NR
    ensures low < Pow2(3)
  {
  }

  lemma StackIdBits<I>(stacks: seq<Stack<I>>, w: Where)
    requires StacksOk(stacks) && Listed(stacks, w)
    ensures At(stacks, w).id < FLG_CLONE + 0x1_0000 && At(stacks, w).id % FLG_CHILD < 0x1_0000
  {
    hide Tidy, Unique, StacksOk;
    ListedRange(stacks, w);
  }

  /** Instance ids are equal exactly when stack ids and lowest layers are. */
  lemma EntryIdsEqualIff<I>(r: Registry<I>, e: Inst<I>, f: Inst<I>)
    requires StacksOk(r.stacks) && e in Gather(r.stacks, EntriesOf) && f in Gather(r.stacks, EntriesOf)
    ensures e.id == f.id <==> e.stack == f.stack && LowLayer(e.mask) == LowLayer(f.mask)
  {
    hide Gather, InstId, LowLayer, StacksOk;
    var w, j := EntryHome(r, e);
    var v, k := EntryHome(r, f);
    StackIdBits(r.stacks, w);
    StackIdBits(r.stacks, v);
    if e.id == f.id {
      InstIdInjective(e.stack, e.mask, f.stack, f.mask);
    } else {
      assert e.stack == f.stack && LowLayer(e.mask) == LowLayer(f.mask) ==> InstId(e.stack, e.mask) == InstId(f.stack, f.mask) by {
        SameInstId(e.stack, e.mask, f.mask);
      }
    }
  }

  lemma SameInstId(stack: nat, a: Mask, b: Mask)
    ensures LowLayer(a) == LowLayer(b) ==> InstId(stack, a) == InstId(stack, b)
  {
  }

  /** Both count as layer 0, and one of them because it has none of the eight layers. */
  predicate BothLowest(a: Mask, b: Mask) {
    LowLayer(a) == 0 && LowLayer(b) == 0 && (!HasLayer(a) || !HasLayer(b))
  }

  /** Two layers of one stack have the same lowest layer exactly when one of them has none. */
  lemma SameLowestIff<I>(stacks: seq<Stack<I>>, w: Where, j: nat, k: nat)
    requires StacksOk(stacks) && Listed(stacks, w)
    requires j < |At(stacks, w).layers| && k < |At(stacks, w).layers| && j != k
    ensures var a, b := At(stacks, w).layers[j].mask, At(stacks, w).layers[k].mask;
            LowLayer(a) == LowLayer(b) <==> BothLowest(a, b)
  {
    hide HasLayer, Meets, StacksOk, LowFrom;
    ListedTidy(stacks, w);
    var ls := At(stacks, w).layers;
    var a, b := ls[j].mask, ls[k].mask;
    MeetsBothWays(a, b);
    if HasLayer(a) && HasLayer(b) {
      LowLayersDiffer(a, b);
    } else if HasLayer(a) {
      assert LowLayer(b) == 0;
    } else {
      assert LowLayer(a) == 0;
    }
  }

  /** With distinct stack ids, two instances on stacks that have ids share their own id exactly when
      they are on one stack and both count as its layer 0. */
  lemma EntriesClashIff<I>(r: Registry<I>, e: Inst<I>, f: Inst<I>)
    requires Inv(r) && OneNameless(r.stacks) && e != f && e.stack != 0
    requires e in Gather(r.stacks, EntriesOf) && f in Gather(r.stacks, EntriesOf)
    ensures e.id == f.id <==> e.stack == f.stack && BothLowest(e.mask, f.mask)
  {
    hide Gather, Unique, InstId, LowLayer, HasLayer, Meets, InstsOk, StacksOk, BothLowest;
    EntryIdsEqualIff(r, e, f);
    var w, j := EntryHome(r, e);
    var v, k := EntryHome(r, f);
    if e.stack == f.stack {
      if w != v {
        SharedIdPlaces(r.stacks, w, v);
      }
      SameLowestIff(r.stacks, w, j, k);
    }
  }

  /** Who clashes with whom in the instance list. */
  predicate Clash<I>(e: Inst<I>, f: Inst<I>) {
    e.stack == f.stack && LowLayer(e.mask) == LowLayer(f.mask)
  }

  /** In every run: two instances share an id exactly when their stack ids and lowest layers are the
      same. When stack ids are distinct, and an instance is on a stack that has one, that is exactly
      when both are on that stack and both count as layer 0, one of them for want of any layer.
      Looking an id up finds the first of those that share it. */
  lemma InstanceIdsInEveryRun<I>(run: seq<Event<I>>, r: Registry<I>, i: nat, j: nat)
    requires Reaches(Empty(), run, r) && i < |r.insts| && j < |r.insts| && i != j
    ensures r.insts[i].id == r.insts[j].id <==> Clash(r.insts[i], r.insts[j])
    ensures OneNameless(r.stacks) && r.insts[i].stack != 0 ==>
              (Clash(r.insts[i], r.insts[j]) <==>
               r.insts[i].stack == r.insts[j].stack && BothLowest(r.insts[i].mask, r.insts[j].mask))
    ensures FindInst(r.insts, r.insts[i].id) == i <==> forall k | 0 <= k < i :: !Clash(r.insts[i], r.insts[k])
  {
    hide Gather, Reaches, Unique, StacksOk, FindInst, BothLowest, OneNameless, LowLayer;
    EmptyInv<I>();
    RunKeeps(Empty(), run, r);
    forall k | 0 <= k < |r.insts| && k != i
      ensures r.insts[i].id == r.insts[k].id <==> Clash(r.insts[i], r.insts[k])
    {
      InstIn(r, i);
      InstIn(r, k);
      EntryIdsEqualIff(r, r.insts[i], r.insts[k]);
    }
    if OneNameless(r.stacks) && r.insts[i].stack != 0 {
      InstIn(r, i);
      InstIn(r, j);
      assert r.insts[i] != r.insts[j];
      EntriesClashIff(r, r.insts[i], r.insts[j]);
    }
  }

  lemma InstIn<I>(r: Registry<I>, i: nat)
    requires InstsOk(r) && i < |r.insts|
    ensures r.insts[i] in Gather(r.stacks, EntriesOf)
  {
    assert r.insts[i] in multiset(r.insts);
  }

  /** Masks within the eight layers never clash on one stack. */
  lemma LayersNeverClash(a: Mask, b: Mask)
    requires 0 < a < 256 && 0 < b < 256
    ensures !BothLowest(a, b)
  {
    OnlyLayers(a);
    OnlyLayers(b);
  }

  // ----- runs that end in a clash -----------------------------------------------------------

  lemma {:induction false} OneMoreEvent<I>(r: Registry<I>, run: seq<Event<I>>, p: Registry<I>, e: Event<I>)
    requires Reaches(r, run, p) && Allowed(p, e)
    ensures Reaches(r, run + [e], Step(p, e))
    decreases |run|
  {
    hide Allowed, Step;
    if run == [] {
      assert [e][1..] == [] && ([] + [e])[0] == e;
      assert run + [e] == [e];
    } else {
      OneMoreEvent(Step(r, run[0]), run[1..], p, e);
      assert (run + [e])[1..] == run[1..] + [e];
    }
  }

  /** The first 126 masters get the ids 1 to 126, the others none. */
  function NthMaster<I>(k: nat): Stack<I> {
    Fresh(if k < 126 then k + 1 else 0)
  }

  function Masters<I>(n: nat): Registry<I> {
    Registry(seq(n, k requires 0 <= k < n => NthMaster(k)), [])
  }

  lemma {:induction false} FreeMasterSkips(ids: seq<nat>, id: nat, next: nat)
    requires 1 <= id <= next <= MASTER_ID_MAX && (forall k | id <= k < next :: k in ids) && next !in ids
    ensures FreeMaster(ids, id) == if next < MASTER_ID_MAX then next else 0
    decreases next - id
  {
    if id < next {
      FreeMasterSkips(ids, id + 1, next);
    }
  }

  lemma NextMasterId<I>(n: nat)
    ensures MasterId(Masters<I>(n).stacks) == if n < 126 then n + 1 else 0
  {
    var stacks := Masters<I>(n).stacks;
    var ids := IdsIn(stacks);
    var next := if n < 126 then n + 1 else 127;
    forall k | 1 <= k < next
      ensures k in ids
    {
      assert ids[k - 1] == k;
    }
    FreeMasterSkips(ids, 1, next);
  }

  lemma MasterAdded<I>(n: nat)
    ensures Step(Masters<I>(n), MasterStack) == Masters<I>(n + 1)
  {
    hide MasterId;
    NextMasterId<I>(n);
    assert NewMaster(Masters<I>(n)).stacks == Masters<I>(n + 1).stacks;
  }

  lemma {:induction false} MastersReached<I>(n: nat) returns (run: seq<Event<I>>)
    ensures Reaches(Empty<I>(), run, Masters(n))
  {
    if n == 0 {
      run := [];
      assert Masters<I>(0).stacks == [];
    } else {
      hide Masters, Step;
      var before := MastersReached<I>(n - 1);
      MasterAdded<I>(n - 1);
      OneMoreEvent(Empty<I>(), before, Masters(n - 1), MasterStack);
      run := before + [MasterStack];
    }
  }

  /** A run of allowed events after which two stacks share an id: with 126 masters in the list, two
      more get none, and their first children get the same one. */
  lemma ClashReached<I>() returns (run: seq<Event<I>>, r: Registry<I>)
    ensures Reaches(Empty<I>(), run, r) && !DistinctIds(r.stacks)
  {
    hide Reaches, Masters, DistinctIds, StacksOk, Unique, InstsOk;
    var run0 := MastersReached<I>(128);
    var r0 := Masters<I>(128);
    r := ChildrenOfNameless<I>();
    OneMoreEvent(Empty<I>(), run0, r0, ChildStack(Top(126)));
    var r1 := Step(r0, ChildStack(Top(126)));
    OneMoreEvent(Empty<I>(), run0 + [ChildStack(Top(126))], r1, ChildStack(Top(127)));
    run := run0 + [ChildStack(Top(126))] + [ChildStack(Top(127))];
    EmptyInv<I>();
    RunKeeps(Empty(), run, r);
    DistinctIff(r.stacks);
  }

  lemma ChildrenOfNameless<I>() returns (r: Registry<I>)
    ensures Allowed(Masters<I>(128), ChildStack(Top(126)))
    ensures Allowed(Step(Masters<I>(128), ChildStack(Top(126))), ChildStack(Top(127)))
    ensures r == Step(Step(Masters<I>(128), ChildStack(Top(126))), ChildStack(Top(127)))
    ensures NamelessParent(r.stacks, 126) && NamelessParent(r.stacks, 127)
  {
    hide ChildId;
    r := Step(Step(Masters<I>(128), ChildStack(Top(126))), ChildStack(Top(127)));
  }

  /** Children of children are not covered: a master, a child, a child of that child and another
      child of the master end with an id that occurs twice. */
  lemma GrandchildClashes<I>()
    ensures var r := NewChild(NewChild(NewChild(NewMaster(Empty<I>()), Top(0)), Under(0, 0)), Top(0));
            && |r.stacks| == 1 && |r.stacks[0].children| == 2 && |r.stacks[0].children[0].children| == 1
            && r.stacks[0].children[0].children[0].id == r.stacks[0].children[1].id == FLG_CHILD + 0x201
  {
    var r0 := NewMaster(Empty<I>());
    assert IdsIn(Empty<I>().stacks) == [];
    assert r0.stacks == [Stack(1, [], [])];
    var r1 := NewChild(r0, Top(0));
    var child := Stack(FLG_CHILD + 0x101, [], []);
    assert IdsIn(r0.stacks[0].children) == [];
    FirstAbove(IdsIn(r0.stacks[0].children), FLG_CHILD + 1, CHILD_ID_MAX);
    assert ChildId(r0.stacks[0]) == FLG_CHILD + 0x101;
    assert r0.stacks[0].children + [child] == [child];
    assert r1.stacks == [Stack(1, [], [child])];
    var r2 := NewChild(r1, Under(0, 0));
    assert IdsIn(child.children) == [];
    FirstAbove(IdsIn(child.children), FLG_CHILD + 0x101, CHILD_ID_MAX);
    assert ChildId(child) == FLG_CHILD + 0x201;
    var older := Stack(FLG_CHILD + 0x101, [], [Stack(FLG_CHILD + 0x201, [], [])]);
    assert child.children + [Fresh(FLG_CHILD + 0x201)] == older.children;
    assert At(r1.stacks, Under(0, 0)) == child && [child][0 := older] == [older];
    assert r2.stacks[0].children == [older];
    assert r2.stacks == [Stack(1, [], [older])];
    var ids := [FLG_CHILD + 0x101];
    assert IdsIn(r2.stacks[0].children) == ids;
    assert FreeAbove(ids, FLG_CHILD + 0x101, CHILD_ID_MAX) == FLG_CHILD + 0x201;
    assert FreeAbove(ids, FLG_CHILD + 1, CHILD_ID_MAX) == FLG_CHILD + 0x201;
  }

  /** Masks beyond the eight layers count as layer 0. */
  lemma HighMaskClashes(stack: nat)
    ensures InstId(stack, 1) == InstId(stack, 256) && !Meets(1, 256) && BothLowest(1, 256)
  {
    assert Bit(1, 0);
    assert LowLayer(1) == 0;
    NoLayerIn256();
    forall n: nat
      ensures Bit(1, n) ==> n == 0
    {
      if n > 0 {
        ZeroHasNoBit(n - 1);
      }
    }
    assert !Bit(256, 0);
  }

  /** A run of allowed events after which two registered instances share an id: a master stack, an
      instance for layer 0 and one whose mask lies beyond the eight layers. */
  lemma HighMaskClashReached<I>(x: I, y: I) returns (run: seq<Event<I>>, r: Registry<I>)
    requires x != y
    ensures Reaches(Empty<I>(), run, r) && |r.insts| == 2
    ensures r.insts[0].owner == x && r.insts[1].owner == y && r.insts[0].id == r.insts[1].id
  {
    hide Reaches, InstId;
    var e1, e2 := RegisterInst(Top(0), x, 1), RegisterInst(Top(0), y, 256);
    var run0 := MastersReached<I>(1);
    var r0 := Masters<I>(1);
    HighMaskClashes(r0.stacks[0].id);
    OneMoreEvent(Empty<I>(), run0, r0, e1);
    var r1 := Step(r0, e1);
    var i := Inst(x, 1, 1, InstId(1, 1));
    assert r1.stacks[0].layers == [Layer(x, 1)] && r1.stacks[0].id == 1;
    assert r1.insts == [i];
    OneMoreEvent(Empty<I>(), run0 + [e1], r1, e2);
    r := Step(r1, e2);
    assert FindOwner(r1.insts, y) == 1;
    assert FindLayer(r1.stacks[0].layers, 256) == 1;
    assert r.insts == [i, Inst(y, 256, 1, InstId(1, 256))];
    run := run0 + [e1] + [e2];
  }
}
