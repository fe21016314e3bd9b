/**
 What registering and unregistering do to the registry as a whole, and that one undoes the other.
 */
module StackEvents {
  import opened Basics
  import opened LayerMask
  import opened StackLayers
  import opened StackRegistry
  import opened StackRuns

  /** Nothing is registered for the owner, and no layer of the stack shares a bit with the mask. */
  ghost predicate Free<I>(r: Registry<I>, w: Where, owner: I, mask: Mask)
    requires Listed(r.stacks, w)
  {
    && (forall k | 0 <= k < |r.insts| :: r.insts[k].owner != owner)
    && forall k | 0 <= k < |At(r.stacks, w).layers| :: !Meets(At(r.stacks, w).layers[k].mask, mask)
  }

  lemma FreeMeans<I>(r: Registry<I>, w: Where, owner: I, mask: Mask)
    requires Listed(r.stacks, w)
    ensures Free(r, w, owner, mask) <==> Enter(r, w, owner, mask).Some?
  {
    hide Meets, Insert;
  }

  /** q is r with other layers on the stack at w, and nothing else changed in the stacks. */
  ghost predicate OnlyLayers<I>(r: Registry<I>, q: Registry<I>, w: Where)
    requires Listed(r.stacks, w)
  {
    Listed(q.stacks, w) && q.stacks == SetAt(r.stacks, w, At(r.stacks, w).(layers := At(q.stacks, w).layers))
  }

  lemma AtSet<I>(stacks: seq<Stack<I>>, w: Where, s: Stack<I>)
    requires Listed(stacks, w)
    ensures Listed(SetAt(stacks, w, s), w) && At(SetAt(stacks, w, s), w) == s
  {
  }

  /** Registering succeeds exactly for an owner that is not registered and a mask none of whose bits is
      taken on the stack. Then the layer is added to that stack and an entry with the stack's id and the
      lowest layer to the end of the list; otherwise nothing changes. */
  lemma RegisterIs<I>(r: Registry<I>, w: Where, owner: I, mask: Mask)
    requires Inv(r) && Allowed(r, RegisterInst(w, owner, mask))
    ensures var q := Step(r, RegisterInst(w, owner, mask));
            if Free(r, w, owner, mask) then
              var s := At(r.stacks, w);
              && OnlyLayers(r, q, w) && Tidy(At(q.stacks, w).layers)
              && multiset(At(q.stacks, w).layers) == multiset(s.layers) + multiset{Layer(owner, mask)}
              && q.insts == r.insts + [Inst(owner, mask, s.id, InstId(s.id, mask))]
            else q == r
  {
    hide Meets, Insert, InstId, Free, SetAt, StacksOk, Unique, InstsOk, FindOwner, Tidy, At;
    FreeMeans(r, w, owner, mask);
    if Free(r, w, owner, mask) {
      var s := At(r.stacks, w);
      ListedTidy(r.stacks, w);
      InsertTidy(s.layers, Layer(owner, mask));
      AtSet(r.stacks, w, s.(layers := Insert(s.layers, Layer(owner, mask))));
    }
  }

  /** The owner has exactly one entry. */
  lemma {:induction false} OwnerLast<I>(insts: seq<Inst<I>>, x: Inst<I>)
    requires forall k | 0 <= k < |insts| :: insts[k].owner != x.owner
    ensures FindOwner(insts + [x], x.owner) == |insts|
    decreases |insts|
  {
    if insts == [] {
      assert insts + [x] == [x];
    } else {
      assert (insts + [x])[1..] == insts[1..] + [x];
      OwnerLast(insts[1..], x);
    }
  }

  lemma InsertedThenRemoved<I>(ls: seq<Layer<I>>, x: Layer<I>)
    requires Tidy(ls) && x.mask != 0 && FindLayer(ls, x.mask) == |ls|
    ensures Remove(Insert(ls, x), x.mask) == ls
  {
    hide Meets, Place, Tidy, FindLayer;
    InsertTidy(ls, x);
    var k := Place(ls, x.mask);
    Spliced(ls, k, x);
    RemoveOwn(Insert(ls, x), k);
  }

  lemma Spliced<I>(ls: seq<Layer<I>>, k: nat, x: Layer<I>)
    requires k <= |ls|
    ensures var all := ls[..k] + [x] + ls[k..]; all[k] == x && all[..k] + all[k + 1..] == ls
  {
    var all := ls[..k] + [x] + ls[k..];
    assert all[..k] == ls[..k] && all[k + 1..] == ls[k..];
  }

  lemma SetBack<I>(stacks: seq<Stack<I>>, w: Where, s: Stack<I>)
    requires Listed(stacks, w)
    ensures Listed(SetAt(stacks, w, s), w) && SetAt(SetAt(stacks, w, s), w, At(stacks, w)) == stacks
  {
    if w.Under? {
      var t := stacks[w.k];
      assert t.children[w.c := s][w.c := t.children[w.c]] == t.children;
    }
  }

  /** Unregistering what has just been registered gives back the registry as it was. */
  lemma UnregisterUndoes<I>(r: Registry<I>, w: Where, owner: I, mask: Mask)
    requires Inv(r) && Allowed(r, RegisterInst(w, owner, mask)) && Free(r, w, owner, mask)
    ensures var q := Step(r, RegisterInst(w, owner, mask));
            && Allowed(q, UnregisterInst(w, owner, mask))
            && Step(q, UnregisterInst(w, owner, mask)) == r
  {
    hide Meets, Insert, InstId, SetAt, StacksOk, Unique, InstsOk, Tidy, At, Remove, FindLayer, FindOwner;
    FreeMeans(r, w, owner, mask);
    var s := At(r.stacks, w);
    var x := Layer(owner, mask);
    var ls := Insert(s.layers, x);
    var q := Step(r, RegisterInst(w, owner, mask));
    ListedTidy(r.stacks, w);
    InsertTidy(s.layers, x);
    assert x in multiset(ls);
    InsertedThenRemoved(s.layers, x);
    AtSet(r.stacks, w, s.(layers := ls));
    SetBack(r.stacks, w, s.(layers := ls));
    var e := Inst(owner, mask, s.id, InstId(s.id, mask));
    OwnerLast(r.insts, e);
    assert (r.insts + [e])[..|r.insts|] + (r.insts + [e])[|r.insts| + 1..] == r.insts;
  }

  /** Unregistering takes away one layer of the stack, the owner's own, and the owner's entry; all other
      layers and entries stay as they are and in their order. */
  lemma UnregisterIs<I>(r: Registry<I>, w: Where, owner: I, mask: Mask)
    requires Inv(r) && Allowed(r, UnregisterInst(w, owner, mask))
    ensures var q := Step(r, UnregisterInst(w, owner, mask));
            && OnlyLayers(r, q, w)
            && multiset(At(q.stacks, w).layers) == multiset(At(r.stacks, w).layers) - multiset{Layer(owner, mask)}
            && exists k | 0 <= k < |r.insts| :: r.insts[k].owner == owner && q.insts == r.insts[..k] + r.insts[k + 1..]
  {
    hide Meets, InstId, SetAt, StacksOk, Unique, Tidy, At, Remove, FindLayer, InstsOk, FindOwner;
    var s := At(r.stacks, w);
    var x := Layer(owner, mask);
    ListedTidy(r.stacks, w);
    var j :| 0 <= j < |s.layers| && s.layers[j] == x;
    RemoveOwn(s.layers, j);
    AtSet(r.stacks, w, s.(layers := Remove(s.layers, mask)));
    OwnerAt(r, w, x);
    var k := FindOwner(r.insts, owner);
    assert r.insts[k].owner == owner;
  }

  /** Releasing a stack takes that one out of the list. */
  lemma ReleaseIs<I>(r: Registry<I>, k: nat, j: nat)
    requires Allowed(r, ReleaseStack(k)) && j < |r.stacks| - 1
    ensures var q := Step(r, ReleaseStack(k));
            |q.stacks| == |r.stacks| - 1 && q.insts == r.insts && q.stacks[j] == r.stacks[if j < k then j else j + 1]
  {
  }

  /** A stack is found under an id exactly when the id is not 0 and some stack or child has it. */
  lemma LookupIff<I>(stacks: seq<Stack<I>>, id: nat)
    ensures Lookup(stacks, id).Some? <==> id != 0 && exists w :: Listed(stacks, w) && At(stacks, w).id == id
    ensures Lookup(stacks, id).Some? ==>
              Listed(stacks, Lookup(stacks, id).value) && At(stacks, Lookup(stacks, id).value).id == id
  {
    hide LookupFrom;
  }
}
