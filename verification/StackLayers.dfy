/**
 The layers of one protocol stack: an ordered list of instances, each with the mask of the layers
 it serves. I is whatever identifies an instance.
 */
module StackLayers {
  import opened Basics
  import opened LayerMask

  datatype Layer<+I> = Layer(owner: I, mask: Mask)

  /** Where the first layer that shares a bit with the mask is; the length if there is none. */
  function FindLayer<I>(ls: seq<Layer<I>>, mask: Mask): (k: nat)
    ensures k <= |ls|
    ensures k < |ls| ==> Meets(ls[k].mask, mask)
    ensures forall j | 0 <= j < k :: !Meets(ls[j].mask, mask)
  {
    if ls == [] || Meets(ls[0].mask, mask) then 0 else 1 + FindLayer(ls[1..], mask)
  }

  /** Where a new layer goes: in front of the first one with a larger mask. */
  function Place<I>(ls: seq<Layer<I>>, mask: Mask): (k: nat)
    ensures k <= |ls|
    ensures k < |ls| ==> mask < ls[k].mask
    ensures forall j | 0 <= j < k :: mask >= ls[j].mask
  {
    if ls == [] || mask < ls[0].mask then 0 else 1 + Place(ls[1..], mask)
  }

  function Insert<I>(ls: seq<Layer<I>>, x: Layer<I>): seq<Layer<I>> {
    var k := Place(ls, x.mask);
    ls[..k] + [x] + ls[k..]
  }

  /** A new layer, unless one of its bits is taken. */
  function Register<I>(ls: seq<Layer<I>>, x: Layer<I>): Option<seq<Layer<I>>> {
    if FindLayer(ls, x.mask) < |ls| then None else Some(Insert(ls, x))
  }

  /** The first layer that shares a bit with the mask goes. */
  function Remove<I>(ls: seq<Layer<I>>, mask: Mask): seq<Layer<I>> {
    var k := FindLayer(ls, mask);
    if k < |ls| then ls[..k] + ls[k + 1..] else ls
  }

  /** Ascending, without common bits, none empty. */
  predicate Tidy<I>(ls: seq<Layer<I>>) {
    && (forall k | 0 <= k < |ls| :: ls[k].mask != 0)
    && (forall j, k | 0 <= j < k < |ls| :: ls[j].mask < ls[k].mask)
    && (forall j, k | 0 <= j < k < |ls| :: !Meets(ls[j].mask, ls[k].mask))
  }

  lemma PlaceSplits<I>(ls: seq<Layer<I>>, mask: Mask)
    requires Tidy(ls) && mask != 0 && FindLayer(ls, mask) == |ls|
    ensures var k := Place(ls, mask);
            && (forall j | 0 <= j < k :: ls[j].mask < mask)
            && (forall j | k <= j < |ls| :: mask < ls[j].mask)
  {
    hide Meets;
    var k := Place(ls, mask);
    forall j | 0 <= j < k
      ensures ls[j].mask < mask
    {
      MeetsItself(mask);
    }
  }

  lemma MeetsBothWays(a: Mask, b: Mask)
    ensures Meets(a, b) == Meets(b, a)
  {
  }

  lemma InsertIs<I>(ls: seq<Layer<I>>, x: Layer<I>, i: nat)
    requires i <= |ls|
    ensures var k := Place(ls, x.mask);
            && |Insert(ls, x)| == |ls| + 1
            && Insert(ls, x)[i] == if i < k then ls[i] else if i == k then x else ls[i - 1]
  {
    hide Place;
  }

  /** Two layers of the longer list, by where they come from. */
  lemma InsertPair<I>(ls: seq<Layer<I>>, x: Layer<I>, i: nat, j: nat)
    requires Tidy(ls) && x.mask != 0 && FindLayer(ls, x.mask) == |ls| && i < j < |Insert(ls, x)| == |ls| + 1
    ensures var r := Insert(ls, x);
            r[i].mask < r[j].mask && !Meets(r[i].mask, r[j].mask)
  {
    hide Meets, Place, FindLayer, Insert;
    PlaceSplits(ls, x.mask);
    InsertIs(ls, x, i);
    InsertIs(ls, x, j);
    if i == Place(ls, x.mask) {
      MeetsBothWays(ls[j - 1].mask, x.mask);
    }
  }

  lemma InsertAdds<I>(ls: seq<Layer<I>>, x: Layer<I>)
    ensures multiset(Insert(ls, x)) == multiset(ls) + multiset{x}
    ensures forall i | 0 <= i < |Insert(ls, x)| :: Insert(ls, x)[i] == x || Insert(ls, x)[i] in ls
  {
    hide Place;
    var k := Place(ls, x.mask);
    assert ls == ls[..k] + ls[k..];
  }

  lemma InsertTidy<I>(ls: seq<Layer<I>>, x: Layer<I>)
    requires Tidy(ls) && x.mask != 0 && FindLayer(ls, x.mask) == |ls|
    ensures Tidy(Insert(ls, x)) && multiset(Insert(ls, x)) == multiset(ls) + multiset{x}
  {
    hide Meets, Insert, FindLayer;
    InsertAdds(ls, x);
    var r := Insert(ls, x);
    assert |r| == |ls| + 1 by { assert |multiset(r)| == |r| && |multiset(ls)| == |ls|; }
    forall i: nat, j: nat | i < j < |r|
      ensures r[i].mask < r[j].mask && !Meets(r[i].mask, r[j].mask)
    {
      InsertPair(ls, x, i, j);
    }
  }

  /** What a stack with tidy layers does on registering: refused exactly when a bit is taken. */
  lemma RegisterKeeps<I>(ls: seq<Layer<I>>, x: Layer<I>)
    requires Tidy(ls) && x.mask != 0
    ensures Register(ls, x).None? <==> exists k :: 0 <= k < |ls| && Meets(ls[k].mask, x.mask)
    ensures Register(ls, x).Some? ==>
              && Tidy(Register(ls, x).value)
              && multiset(Register(ls, x).value) == multiset(ls) + multiset{x}
  {
    hide Meets;
    if FindLayer(ls, x.mask) == |ls| {
      InsertTidy(ls, x);
    } else {
      assert Meets(ls[FindLayer(ls, x.mask)].mask, x.mask);
    }
  }

  /** Unregistering a registered instance takes away its own layer and no other. */
  lemma RemoveOwn<I>(ls: seq<Layer<I>>, k: nat)
    requires Tidy(ls) && k < |ls|
    ensures Remove(ls, ls[k].mask) == ls[..k] + ls[k + 1..]
    ensures Tidy(Remove(ls, ls[k].mask))
    ensures multiset(Remove(ls, ls[k].mask)) == multiset(ls) - multiset{ls[k]}
  {
    hide Meets;
    MeetsItself(ls[k].mask);
    var f := FindLayer(ls, ls[k].mask);
    assert f == k;
    assert ls == ls[..k] + [ls[k]] + ls[k + 1..];
    RemoveTidy(ls, k);
  }

  lemma RemoveTidy<I>(ls: seq<Layer<I>>, k: nat)
    requires Tidy(ls) && k < |ls|
    ensures Tidy(ls[..k] + ls[k + 1..])
  {
    hide Meets;
    var r := ls[..k] + ls[k + 1..];
    assert forall j | 0 <= j < |r| :: r[j] == ls[if j < k then j else j + 1];
  }

  /** An instance that is not registered takes another one's layer away when a bit is shared. */
  lemma RemoveOther<I>(ls: seq<Layer<I>>, x: Layer<I>)
    requires Tidy(ls) && x.mask != 0 && x !in ls
    ensures Remove(ls, x.mask) == ls <==> Register(ls, x).Some?
  {
    var k := FindLayer(ls, x.mask);
    if k < |ls| {
      assert |Remove(ls, x.mask)| == |ls| - 1;
    }
  }

  // ----- connecting the layers --------------------------------------------------------------

  datatype Branch = OwnerBelow | OwnerAbove | SameMask

  /** Which interface of the owner a peer is connected to. */
  function ConnectIF(owner: Mask, peer: Mask): Branch {
    if owner < peer then OwnerBelow else if peer < owner then OwnerAbove else SameMask
  }

  /** Each layer is connected to the next one; the list says which branch each connection took. */
  method ConnectLayers<I>(ls: seq<Layer<I>>) returns (branches: seq<Branch>)
    requires Tidy(ls)
    ensures |branches| == if ls == [] then 0 else |ls| - 1
    ensures forall k | 0 <= k < |branches| :: branches[k] == OwnerBelow
  {
    hide Meets;
    branches := [];
    var k := 0;
    while k + 1 < |ls|
      invariant 0 <= k && (ls == [] ==> k == 0) && (ls != [] ==> k < |ls|)
      invariant |branches| == k
      invariant forall j | 0 <= j < k :: branches[j] == OwnerBelow
    {
      branches := branches + [ConnectIF(ls[k].mask, ls[k + 1].mask)];
      k := k + 1;
    }
  }

  // ----- runs of one stack ------------------------------------------------------------------

  datatype Change<+I> = Enters(layer: Layer<I>) | Leaves(layer: Layer<I>)

  /** Masks are not empty, and only a registered instance unregisters. */
  predicate Permitted<I(==)>(ls: seq<Layer<I>>, c: Change<I>) {
    match c
    case Enters(x) => x.mask != 0
    case Leaves(x) => x in ls
  }

  function Changed<I>(ls: seq<Layer<I>>, c: Change<I>): seq<Layer<I>> {
    match c
    case Enters(x) => (match Register(ls, x) case Some(r) => r case None => ls)
    case Leaves(x) => Remove(ls, x.mask)
  }

  predicate LayersReach<I(==)>(ls: seq<Layer<I>>, run: seq<Change<I>>, end: seq<Layer<I>>)
    decreases |run|
  {
    if run == [] then end == ls
    else Permitted(ls, run[0]) && LayersReach(Changed(ls, run[0]), run[1..], end)
  }

  /** After any registrations and unregistrations the layers are ascending and disjoint, and each
      is connected below the next. */
  lemma {:induction false} LayersInEveryRun<I>(ls: seq<Layer<I>>, run: seq<Change<I>>, end: seq<Layer<I>>)
    requires Tidy(ls) && LayersReach(ls, run, end)
    ensures Tidy(end)
    ensures forall k | 0 <= k < |end| - 1 :: ConnectIF(end[k].mask, end[k + 1].mask) == OwnerBelow
    decreases |run|
  {
    hide Meets, Register, Remove;
    if run != [] {
      match run[0] {
        case Enters(x) => RegisterKeeps(ls, x);
        case Leaves(x) =>
          var k :| 0 <= k < |ls| && ls[k] == x;
          RemoveOwn(ls, k);
      }
      LayersInEveryRun(Changed(ls, run[0]), run[1..], end);
    }
  }
}
