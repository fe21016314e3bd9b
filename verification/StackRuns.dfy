/**
 What every run keeps: ids are distinct, layers tidy, and the instance list is the list of layers.
 */
module StackRuns {
  import opened LayerMask
  import opened StackLayers
  import opened StackRegistry

  // ----- what the stacks hold, gathered -----------------------------------------------------

  function Gather<S, T>(stacks: seq<S>, f: S -> seq<T>): seq<T> {
    if stacks == [] then [] else Gather(stacks[..|stacks| - 1], f) + f(stacks[|stacks| - 1])
  }

  lemma {:induction false} GatherConcat<S, T>(a: seq<S>, b: seq<S>, f: S -> seq<T>)
    ensures Gather(a + b, f) == Gather(a, f) + Gather(b, f)
    decreases |b|
  {
    if b == [] {
      assert a + b == a;
    } else {
      var n := |b| - 1;
      GatherConcat(a, b[..n], f);
      assert (a + b)[..|a + b| - 1] == a + b[..n];
    }
  }

  lemma GatherOne<S, T>(s: S, f: S -> seq<T>)
    ensures Gather([s], f) == f(s)
  {
    assert [s][..0] == [];
  }

  lemma GatherMiddle<S, T>(front: seq<S>, x: S, back: seq<S>, f: S -> seq<T>)
    ensures Gather(front + [x] + back, f) == Gather(front, f) + f(x) + Gather(back, f)
  {
    hide Gather;
    GatherOne(x, f);
    GatherConcat(front, [x], f);
    GatherConcat(front + [x], back, f);
  }

  lemma Around<S>(s: seq<S>, k: nat)
    requires k < |s|
    ensures s == s[..k] + [s[k]] + s[k + 1..]
  {
  }

  /** One element stands between what is before and after it. */
  lemma GatherSplit<S, T>(stacks: seq<S>, k: nat, f: S -> seq<T>)
    requires k < |stacks|
    ensures Gather(stacks, f) == Gather(stacks[..k], f) + f(stacks[k]) + Gather(stacks[k + 1..], f)
  {
    hide Gather;
    Around(stacks, k);
    GatherMiddle(stacks[..k], stacks[k], stacks[k + 1..], f);
  }

  lemma GatherUpdate<S, T>(stacks: seq<S>, k: nat, s: S, f: S -> seq<T>)
    requires k < |stacks|
    ensures multiset(Gather(stacks[k := s], f)) + multiset(f(stacks[k])) == multiset(Gather(stacks, f)) + multiset(f(s))
  {
    hide Gather;
    GatherSplit(stacks, k, f);
    var t := stacks[k := s];
    assert t[..k] == stacks[..k] && t[k + 1..] == stacks[k + 1..];
    GatherSplit(t, k, f);
  }

  lemma GatherDrop<S, T>(stacks: seq<S>, k: nat, f: S -> seq<T>)
    requires k < |stacks|
    ensures multiset(Gather(stacks[..k] + stacks[k + 1..], f)) + multiset(f(stacks[k])) == multiset(Gather(stacks, f))
  {
    hide Gather;
    GatherSplit(stacks, k, f);
    GatherConcat(stacks[..k], stacks[k + 1..], f);
  }

  lemma Cancel<T>(x: multiset<T>, y: multiset<T>, a: multiset<T>)
    requires x + a == y + a
    ensures x == y
  {
    forall e: T
      ensures x[e] == y[e]
    {
      assert (x + a)[e] == (y + a)[e];
    }
  }

  lemma {:induction false} GatherHas<S, T>(stacks: seq<S>, f: S -> seq<T>, x: T) returns (k: nat)
    requires x in Gather(stacks, f)
    ensures k < |stacks| && x in f(stacks[k])
  {
    var n := |stacks| - 1;
    if x in f(stacks[n]) {
      k := n;
    } else {
      k := GatherHas(stacks[..n], f, x);
    }
  }

  lemma GatherKeeps<S, T>(stacks: seq<S>, f: S -> seq<T>, k: nat, x: T)
    requires k < |stacks| && x in f(stacks[k])
    ensures x in Gather(stacks, f)
  {
    GatherSplit(stacks, k, f);
  }

  /** What the instance list says about a layer of a stack. */
  function EntriesIn<I>(id: nat, layers: seq<Layer<I>>): seq<Inst<I>> {
    seq(|layers|, k requires 0 <= k < |layers| => Inst(layers[k].owner, layers[k].mask, id, InstId(id, layers[k].mask)))
  }

  function Own<I>(s: Stack<I>): seq<Inst<I>> {
    EntriesIn(s.id, s.layers)
  }

  function EntriesOf<I>(s: Stack<I>): seq<Inst<I>> {
    Own(s) + Gather(s.children, Own)
  }

  // ----- the invariant ----------------------------------------------------------------------

  predicate IsMaster(id: nat) {
    1 <= id < MASTER_ID_MAX
  }

  predicate IsClone(id: nat) {
    FLG_CLONE <= id < FLG_CLONE + 0x1_0000
  }

  predicate IsChild(id: nat) {
    FLG_CHILD < id < FLG_CHILD + 0x1_0000
  }

  /** An id that a child of this parent may have; a parent without an id counts as 0. */
  predicate IsChildOf(parent: nat, id: nat) {
    (parent == 0 || IsMaster(parent)) && IsChild(id) && id % ID_INC == parent
  }

  predicate ChildOk<I>(parent: nat, c: Stack<I>) {
    c.children == [] && Tidy(c.layers) && (c.id == 0 || IsChildOf(parent, c.id))
  }

  /** No id but 0 occurs twice. */
  ghost predicate Unique(ids: seq<nat>) {
    forall j, k | 0 <= j < k < |ids| && ids[j] == ids[k] :: ids[j] == 0
  }

  /** The first child of a parent without an id always gets the same id. */
  predicate FirstOk<I>(s: Stack<I>) {
    s.id == 0 && s.children != [] ==> s.children[0].id == FLG_CHILD + ID_INC
  }

  ghost predicate TopOk<I>(s: Stack<I>) {
    && (s.id == 0 || IsMaster(s.id) || IsClone(s.id))
    && Tidy(s.layers)
    && Unique(IdsIn(s.children))
    && FirstOk(s)
    && forall c | 0 <= c < |s.children| :: ChildOk(s.id, s.children[c])
  }

  ghost predicate StacksOk<I>(stacks: seq<Stack<I>>) {
    forall k | 0 <= k < |stacks| :: TopOk(stacks[k])
  }

  ghost function Entries<I>(r: Registry<I>): multiset<Inst<I>> {
    multiset(Gather(r.stacks, EntriesOf))
  }

  ghost predicate InstsOk<I>(r: Registry<I>) {
    && multiset(r.insts) == Entries(r)
    && forall i, j | 0 <= i < j < |r.insts| :: r.insts[i].owner != r.insts[j].owner
  }

  ghost predicate Inv<I>(r: Registry<I>) {
    StacksOk(r.stacks) && Unique(IdsIn(r.stacks)) && InstsOk(r)
  }

  // ----- new stacks -------------------------------------------------------------------------

  lemma UniqueAdd(ids: seq<nat>, id: nat)
    requires Unique(ids) && (id == 0 || id !in ids)
    ensures Unique(ids + [id])
  {
    var all := ids + [id];
    forall j, k | 0 <= j < k < |all| && all[j] == all[k]
      ensures all[j] == 0
    {
      assert all[j] == ids[j];
      assert ids[j] in ids;
    }
  }

  /** What a new stack adds: its id, and no entry. */
  lemma FreshAdds<I>(stacks: seq<Stack<I>>, id: nat)
    ensures IdsIn(stacks + [Fresh(id)]) == IdsIn(stacks) + [id]
    ensures Gather(stacks + [Fresh(id)], EntriesOf) == Gather(stacks, EntriesOf)
  {
    var s: Stack<I> := Fresh(id);
    GatherConcat(stacks, [s], EntriesOf);
    GatherOne(s, EntriesOf);
    assert EntriesOf(s) == [];
  }

  /** A stack that does not clash joins the list. */
  lemma AddTop<I>(r: Registry<I>, id: nat)
    requires Inv(r) && (id == 0 || IsMaster(id) || IsClone(id)) && (id == 0 || id !in IdsIn(r.stacks))
    ensures Inv(r.(stacks := r.stacks + [Fresh(id)]))
  {
    hide Unique, Gather;
    FreshAdds(r.stacks, id);
    UniqueAdd(IdsIn(r.stacks), id);
    FreshOk<I>(id);
  }

  lemma FreshOk<I>(id: nat)
    requires id == 0 || IsMaster(id) || IsClone(id)
    ensures TopOk<I>(Fresh(id))
  {
    var s: Stack<I> := Fresh(id);
    assert IdsIn(s.children) == [];
  }

  lemma NewMasterKeeps<I>(r: Registry<I>)
    requires Inv(r)
    ensures Inv(NewMaster(r))
  {
    AddTop(r, MasterId(r.stacks));
  }

  lemma NewCloneKeeps<I>(r: Registry<I>, of: Where)
    requires Inv(r) && Listed(r.stacks, of)
    ensures Inv(NewClone(r, of))
  {
    hide Unique, InstsOk;
    var base := At(r.stacks, of).id;
    ListedRange(r.stacks, of);
    CloneRange(r.stacks, base);
    AddTop(r, CloneId(r.stacks, base));
  }

  lemma ListedRange<I>(stacks: seq<Stack<I>>, w: Where)
    requires StacksOk(stacks) && Listed(stacks, w)
    ensures var id := At(stacks, w).id;
            id == 0 || (if w.Top? then IsMaster(id) || IsClone(id) else IsChildOf(stacks[w.k].id, id))
  {
    hide Tidy, Unique;
    assert TopOk(stacks[w.k]);
  }

  /** A clone id lies in the range of clone ids, whatever stack is cloned. */
  lemma CloneRange<I>(stacks: seq<Stack<I>>, base: nat)
    requires base == 0 || IsMaster(base) || IsClone(base) || IsChild(base)
    ensures var id := CloneId(stacks, base); id == 0 || (IsClone(id) && id !in IdsIn(stacks))
  {
    hide FreeAbove;
    assert FLG_CLONE <= WithFlag(base, FLG_CLONE);
  }

  // ----- new children -----------------------------------------------------------------------

  lemma ChildRange<I>(s: Stack<I>)
    requires s.id == 0 || IsMaster(s.id) || IsClone(s.id)
    ensures var id := ChildId(s); id == 0 || (IsChildOf(s.id, id) && id !in IdsIn(s.children))
    ensures s.id == 0 && s.children == [] ==> ChildId(s) == FLG_CHILD + ID_INC
  {
    hide FreeAbove;
    var base := WithFlag(s.id, FLG_CHILD);
    assert base == s.id + FLG_CHILD;
    if IsClone(s.id) {
      FreeNone(IdsIn(s.children), base, CHILD_ID_MAX);
    } else if s.id == 0 && s.children == [] {
      FirstAbove(IdsIn(s.children), base, CHILD_ID_MAX);
    }
  }

  lemma FreeNone(ids: seq<nat>, id: nat, max: nat)
    requires id >= max
    ensures FreeAbove(ids, id, max) == 0
  {
  }

  lemma FirstAbove(ids: seq<nat>, id: nat, max: nat)
    requires id < max && ids == []
    ensures FreeAbove(ids, id, max) == id + ID_INC
  {
  }

  lemma ChildAdds<I>(s: Stack<I>, id: nat)
    ensures var t := s.(children := s.children + [Fresh(id)]);
            && IdsIn(t.children) == IdsIn(s.children) + [id]
            && EntriesOf(t) == EntriesOf(s)
  {
    var x: Stack<I> := Fresh(id);
    assert IdsIn(s.children + [x]) == IdsIn(s.children) + [id];
    GatherConcat(s.children, [x], Own);
    GatherOne(x, Own);
    assert Gather(s.children, Own) + [] == Gather(s.children, Own);
  }

  lemma ChildKeepsParent<I>(s: Stack<I>)
    requires TopOk(s)
    ensures TopOk(s.(children := s.children + [Fresh(ChildId(s))]))
  {
    hide Unique, ChildId, Tidy;
    var id := ChildId(s);
    ChildRange(s);
    ChildAdds(s, id);
    UniqueAdd(IdsIn(s.children), id);
    var t := s.(children := s.children + [Fresh(id)]);
    assert Tidy<I>([]) by { NoLayersTidy<I>(); }
    forall c | 0 <= c < |t.children|
      ensures ChildOk(t.id, t.children[c])
    {
      if c < |s.children| {
        assert ChildOk(s.id, s.children[c]);
      }
    }
  }

  lemma NoLayersTidy<I>()
    ensures Tidy<I>([])
  {
  }

  lemma NewChildKeeps<I>(r: Registry<I>, k: nat)
    requires Inv(r) && k < |r.stacks|
    ensures Inv(NewChild(r, Top(k)))
  {
    hide Unique, Gather, ChildId, EntriesOf, TopOk;
    var s := r.stacks[k];
    var t := s.(children := s.children + [Fresh(ChildId(s))]);
    var q := NewChild(r, Top(k));
    assert q.stacks == r.stacks[k := t];
    ChildKeepsParent(s);
    ChildAdds(s, ChildId(s));
    assert IdsIn(q.stacks) == IdsIn(r.stacks);
    GatherUpdate(r.stacks, k, t, EntriesOf);
    Cancel(Entries(q), Entries(r), multiset(EntriesOf(s)));
  }

  // ----- releasing --------------------------------------------------------------------------

  lemma UniqueDrop(ids: seq<nat>, k: nat)
    requires Unique(ids) && k < |ids|
    ensures Unique(ids[..k] + ids[k + 1..])
  {
    var r := ids[..k] + ids[k + 1..];
    assert forall j | 0 <= j < |r| :: r[j] == ids[if j < k then j else j + 1];
  }

  lemma {:induction false} NoEntries<I>(children: seq<Stack<I>>)
    requires forall c | 0 <= c < |children| :: children[c].layers == []
    ensures Gather(children, Own) == []
  {
    if children != [] {
      NoEntries(children[..|children| - 1]);
    }
  }

  lemma ReleaseKeeps<I>(r: Registry<I>, k: nat)
    requires Inv(r) && Allowed(r, ReleaseStack(k))
    ensures Inv(Release(r, k))
  {
    hide Unique, Gather, TopOk;
    var q := Release(r, k);
    assert IdsIn(q.stacks) == IdsIn(r.stacks)[..k] + IdsIn(r.stacks)[k + 1..];
    UniqueDrop(IdsIn(r.stacks), k);
    GatherDrop(r.stacks, k, EntriesOf);
    NoEntries(r.stacks[k].children);
    assert EntriesOf(r.stacks[k]) == [];
    assert Entries(q) == Entries(r);
  }

  // ----- registering and unregistering ------------------------------------------------------

  /** Changing the layers of one stack changes no id, and its own entries only. */
  lemma SetAtGathers<I>(stacks: seq<Stack<I>>, w: Where, ls: seq<Layer<I>>)
    requires Listed(stacks, w)
    ensures var s := At(stacks, w);
            var t := s.(layers := ls);
            var q := SetAt(stacks, w, t);
            && IdsIn(q) == IdsIn(stacks)
            && multiset(Gather(q, EntriesOf)) + multiset(Own(s)) == multiset(Gather(stacks, EntriesOf)) + multiset(Own(t))
  {
    hide Gather, Own;
    var k := w.k;
    var was := stacks[k];
    var s := At(stacks, w);
    var t := s.(layers := ls);
    var now := SetAt(stacks, w, t)[k];
    LayersOnly(was, w, ls);
    GatherUpdate(stacks, k, now, EntriesOf);
    assert SetAt(stacks, w, t) == stacks[k := now];
    assert IdsIn(stacks[k := now]) == IdsIn(stacks);
    Exchange(multiset(Gather(stacks[k := now], EntriesOf)), multiset(EntriesOf(was)), multiset(Own(s)),
             multiset(Gather(stacks, EntriesOf)), multiset(EntriesOf(now)), multiset(Own(t)));
  }

  lemma Exchange<T>(q: multiset<T>, a: multiset<T>, s: multiset<T>, p: multiset<T>, b: multiset<T>, t: multiset<T>)
    requires q + a == p + b && b + s == a + t
    ensures q + s == p + t
  {
    forall e: T
      ensures (q + s)[e] == (p + t)[e]
    {
      assert (q + a)[e] == (p + b)[e] && (b + s)[e] == (a + t)[e];
    }
  }

  lemma Beside<T>(o: multiset<T>, q: multiset<T>, s: multiset<T>, p: multiset<T>, t: multiset<T>)
    requires q + s == p + t
    ensures (o + q) + s == (o + p) + t
  {
    forall e: T
      ensures ((o + q) + s)[e] == ((o + p) + t)[e]
    {
      assert (q + s)[e] == (p + t)[e];
    }
  }

  lemma LayersOnly<I>(top: Stack<I>, w: Where, ls: seq<Layer<I>>)
    requires Listed([top], w.(k := 0))
    ensures var s := At([top], w.(k := 0));
            var t := s.(layers := ls);
            var u := SetAt([top], w.(k := 0), t)[0];
            IdsIn(u.children) == IdsIn(top.children) && multiset(EntriesOf(u)) + multiset(Own(s)) == multiset(EntriesOf(top)) + multiset(Own(t))
  {
    hide EntriesIn, Gather;
    var s := At([top], w.(k := 0));
    var t := s.(layers := ls);
    var u := SetAt([top], w.(k := 0), t)[0];
    if w.Under? {
      assert u == top.(children := top.children[w.c := t]);
      assert IdsIn(u.children) == IdsIn(top.children);
      GatherUpdate(top.children, w.c, t, Own);
      assert Own(u) == Own(top);
      assert multiset(EntriesOf(u)) == multiset(Own(u)) + multiset(Gather(u.children, Own));
      assert multiset(EntriesOf(top)) == multiset(Own(top)) + multiset(Gather(top.children, Own));
      Beside(multiset(Own(top)), multiset(Gather(u.children, Own)), multiset(Own(s)),
             multiset(Gather(top.children, Own)), multiset(Own(t)));
    } else {
      assert u == t && s == top;
      assert multiset(EntriesOf(u)) == multiset(Own(t)) + multiset(Gather(top.children, Own));
      assert multiset(EntriesOf(top)) == multiset(Own(s)) + multiset(Gather(top.children, Own));
    }
  }

  lemma SetAtOk<I>(stacks: seq<Stack<I>>, w: Where, ls: seq<Layer<I>>)
    requires StacksOk(stacks) && Listed(stacks, w) && Tidy(ls)
    ensures StacksOk(SetAt(stacks, w, At(stacks, w).(layers := ls)))
  {
    hide Tidy, Unique;
    var q := SetAt(stacks, w, At(stacks, w).(layers := ls));
    forall k | 0 <= k < |q|
      ensures TopOk(q[k])
    {
      assert TopOk(stacks[k]);
      assert IdsIn(q[k].children) == IdsIn(stacks[k].children);
    }
  }

  /** The entry of one layer. */
  function Entry<I>(id: nat, x: Layer<I>): Inst<I> {
    Inst(x.owner, x.mask, id, InstId(id, x.mask))
  }

  lemma EntriesConcat<I>(id: nat, a: seq<Layer<I>>, x: Layer<I>, b: seq<Layer<I>>)
    ensures EntriesIn(id, a + [x] + b) == EntriesIn(id, a) + [Entry(id, x)] + EntriesIn(id, b)
    ensures EntriesIn(id, a + b) == EntriesIn(id, a) + EntriesIn(id, b)
  {
    hide InstId;
  }

  lemma EntriesInsert<I>(id: nat, ls: seq<Layer<I>>, x: Layer<I>)
    ensures multiset(EntriesIn(id, Insert(ls, x))) == multiset(EntriesIn(id, ls)) + multiset{Entry(id, x)}
  {
    hide Place, EntriesIn, InstId;
    var k := Place(ls, x.mask);
    assert ls == ls[..k] + ls[k..];
    EntriesConcat(id, ls[..k], x, ls[k..]);
  }

  lemma EntriesRemove<I>(id: nat, ls: seq<Layer<I>>, k: nat)
    requires k < |ls|
    ensures multiset(EntriesIn(id, ls[..k] + ls[k + 1..])) + multiset{Entry(id, ls[k])} == multiset(EntriesIn(id, ls))
  {
    hide EntriesIn, InstId;
    Around(ls, k);
    EntriesConcat(id, ls[..k], ls[k], ls[k + 1..]);
  }

  lemma ListedTidy<I>(stacks: seq<Stack<I>>, w: Where)
    requires StacksOk(stacks) && Listed(stacks, w)
    ensures Tidy(At(stacks, w).layers)
  {
    hide Tidy, Unique;
    assert TopOk(stacks[w.k]);
  }

  lemma EnterKeeps<I>(r: Registry<I>, w: Where, owner: I, mask: Mask)
    requires Inv(r) && Listed(r.stacks, w) && mask != 0
    ensures var q := Enter(r, w, owner, mask); q.Some? ==> Inv(q.value)
  {
    hide Gather, Unique, Insert, FindOwner, FindLayer, Tidy, InstId, EntriesIn, TopOk, SetAt;
    var s := At(r.stacks, w);
    var x := Layer(owner, mask);
    if Enter(r, w, owner, mask).Some? {
      var q := Enter(r, w, owner, mask).value;
      var ls := Insert(s.layers, x);
      ListedTidy(r.stacks, w);
      InsertTidy(s.layers, x);
      SetAtOk(r.stacks, w, ls);
      SetAtGathers(r.stacks, w, ls);
      EntriesInsert(s.id, s.layers, x);
      Cancel(Entries(q), Entries(r) + multiset{Entry(s.id, x)}, multiset(Own(s)));
    }
  }

  /** The instance list holds exactly one entry for a layer's owner. */
  lemma OwnerAt<I>(r: Registry<I>, w: Where, x: Layer<I>)
    requires InstsOk(r) && Listed(r.stacks, w) && x in At(r.stacks, w).layers
    ensures var k := FindOwner(r.insts, x.owner);
            k < |r.insts| && r.insts[k] == Entry(At(r.stacks, w).id, x)
  {
    hide Gather, FindOwner, InstId;
    var s := At(r.stacks, w);
    var e := Entry(s.id, x);
    var j :| 0 <= j < |s.layers| && s.layers[j] == x;
    assert EntriesIn(s.id, s.layers)[j] == e;
    if w.Under? {
      GatherKeeps(r.stacks[w.k].children, Own, w.c, e);
    }
    assert e in EntriesOf(r.stacks[w.k]);
    GatherKeeps(r.stacks, EntriesOf, w.k, e);
    assert e in multiset(r.insts);
    var i :| 0 <= i < |r.insts| && r.insts[i] == e;
  }

  /** The stacks after an instance has left: its entry is gone and nothing else. */
  lemma LeaveStacks<I>(r: Registry<I>, w: Where, j: nat)
    requires StacksOk(r.stacks) && Listed(r.stacks, w) && j < |At(r.stacks, w).layers|
    ensures var s := At(r.stacks, w);
            var t := SetAt(r.stacks, w, s.(layers := Remove(s.layers, s.layers[j].mask)));
            && StacksOk(t)
            && IdsIn(t) == IdsIn(r.stacks)
            && multiset(Gather(t, EntriesOf)) + multiset{Entry(s.id, s.layers[j])} == Entries(r)
  {
    hide Gather, Remove, Tidy, InstId, EntriesIn;
    var s := At(r.stacks, w);
    assert Tidy(s.layers) by { assert TopOk(r.stacks[w.k]); }
    RemoveOwn(s.layers, j);
    var ls := Remove(s.layers, s.layers[j].mask);
    SetAtOk(r.stacks, w, ls);
    SetAtGathers(r.stacks, w, ls);
    EntriesRemove(s.id, s.layers, j);
    var t := SetAt(r.stacks, w, s.(layers := ls));
    LeaveCounts(multiset(Gather(t, EntriesOf)), Entries(r), multiset(Own(s)), multiset(EntriesIn(s.id, ls)),
                multiset{Entry(s.id, s.layers[j])});
  }

  /** The instance list without the entry of the owner. */
  lemma LeaveInsts<I>(insts: seq<Inst<I>>, k: nat)
    requires k < |insts| && forall i, j | 0 <= i < j < |insts| :: insts[i].owner != insts[j].owner
    ensures var q := insts[..k] + insts[k + 1..];
            && multiset(q) + multiset{insts[k]} == multiset(insts)
            && forall i, j | 0 <= i < j < |q| :: q[i].owner != q[j].owner
  {
    Around(insts, k);
    var q := insts[..k] + insts[k + 1..];
    assert forall i | 0 <= i < |q| :: q[i] == insts[if i < k then i else i + 1];
  }

  lemma LeaveKeeps<I>(r: Registry<I>, w: Where, owner: I, mask: Mask)
    requires Inv(r) && Allowed(r, UnregisterInst(w, owner, mask))
    ensures Inv(Leave(r, w, owner, mask))
  {
    hide Gather, Unique, Remove, FindOwner, StacksOk, InstId, EntriesIn, SetAt;
    var s := At(r.stacks, w);
    var x := Layer(owner, mask);
    var j :| 0 <= j < |s.layers| && s.layers[j] == x;
    var q := Leave(r, w, owner, mask);
    LeaveStacks(r, w, j);
    OwnerAt(r, w, x);
    LeaveInsts(r.insts, FindOwner(r.insts, owner));
    Cancel(multiset(q.insts), Entries(q), multiset{Entry(s.id, x)});
  }

  lemma LeaveCounts<T>(q: multiset<T>, p: multiset<T>, s: multiset<T>, t: multiset<T>, e: multiset<T>)
    requires q + s == p + t && t + e == s
    ensures q + e == p
  {
    forall x: T
      ensures (q + e)[x] == p[x]
    {
      assert (q + s)[x] == (p + t)[x] && (t + e)[x] == s[x];
    }
  }

  // ----- runs -------------------------------------------------------------------------------

  lemma StepKeeps<I>(r: Registry<I>, e: Event<I>)
    requires Inv(r) && Allowed(r, e)
    ensures Inv(Step(r, e))
  {
    hide Inv, NewMaster, NewClone, NewChild, Release, Enter, Leave;
    match e
    case MasterStack => NewMasterKeeps(r);
    case CloneStack(of) => NewCloneKeeps(r, of);
    case ChildStack(under) => NewChildKeeps(r, under.k);
    case ReleaseStack(k) => ReleaseKeeps(r, k);
    case RegisterInst(w, owner, mask) => EnterKeeps(r, w, owner, mask);
    case UnregisterInst(w, owner, mask) => LeaveKeeps(r, w, owner, mask);
  }

  ghost predicate Reaches<I>(r: Registry<I>, run: seq<Event<I>>, q: Registry<I>)
    decreases |run|
  {
    if run == [] then q == r else Allowed(r, run[0]) && Reaches(Step(r, run[0]), run[1..], q)
  }

  function Empty<I>(): Registry<I> {
    Registry([], [])
  }

  lemma {:induction false} RunKeeps<I>(r: Registry<I>, run: seq<Event<I>>, q: Registry<I>)
    requires Inv(r) && Reaches(r, run, q)
    ensures Inv(q)
    decreases |run|
  {
    hide Inv, Step, Allowed;
    if run != [] {
      StepKeeps(r, run[0]);
      RunKeeps(Step(r, run[0]), run[1..], q);
    }
  }
}
