/**
 The registry as an object: stack list and instance list changed in place, with the search loops
 that choose ids and places. Every method computes the operation of StackRegistry.
 */
module RegistryObject {
  import opened Basics
  import opened LayerMask
  import opened StackLayers
  import opened StackRegistry
  import opened StackRuns

  /** The first layer that shares a bit with the mask. */
  method GetLayer<I>(ls: seq<Layer<I>>, mask: Mask) returns (k: nat)
    ensures k == FindLayer(ls, mask)
  {
    hide Meets;
    k := 0;
    while k < |ls|
      invariant k <= |ls|
      invariant forall j | 0 <= j < k :: !Meets(ls[j].mask, mask)
    {
      if Meets(ls[k].mask, mask) {
        return;
      }
      k := k + 1;
    }
  }

  /** The layer goes in front of the first one with a larger mask, or to the end. */
  method InsertLayer<I>(ls: seq<Layer<I>>, x: Layer<I>) returns (r: seq<Layer<I>>)
    ensures r == Insert(ls, x)
  {
    var k := 0;
    while k < |ls|
      invariant k <= |ls|
      invariant forall j | 0 <= j < k :: x.mask >= ls[j].mask
    {
      if x.mask < ls[k].mask {
        return ls[..k] + [x] + ls[k..];
      }
      k := k + 1;
    }
    return ls + [x];
  }

  /** Does one of the stacks have the id? */
  method Taken<I>(stacks: seq<Stack<I>>, id: nat) returns (found: bool)
    ensures found <==> id in IdsIn(stacks)
    ensures found <==> FindId(stacks, id) < |stacks|
  {
    var k := 0;
    found := false;
    while k < |stacks| && !found
      invariant k <= |stacks|
      invariant found ==> id in IdsIn(stacks)
      invariant !found ==> forall j | 0 <= j < k :: stacks[j].id != id
    {
      if stacks[k].id == id {
        assert IdsIn(stacks)[k] == id;
        found := true;
      }
      k := k + 1;
    }
  }

  method FreeMasterId<I>(stacks: seq<Stack<I>>) returns (id: nat)
    ensures id == MasterId(stacks)
  {
    id := 1;
    while id < MASTER_ID_MAX
      invariant id <= MASTER_ID_MAX
      invariant MasterId(stacks) == FreeMaster(IdsIn(stacks), id)
    {
      var found := Taken(stacks, id);
      if !found {
        return;
      }
      id := id + 1;
    }
    return 0;
  }

  /** Upwards in steps of 256 from a base until an id is free. */
  method FreeIdAbove<I>(stacks: seq<Stack<I>>, base: nat, max: nat) returns (id: nat)
    ensures id == FreeAbove(IdsIn(stacks), base, max)
  {
    id := base;
    while id < max
      invariant FreeAbove(IdsIn(stacks), base, max) == FreeAbove(IdsIn(stacks), id, max)
      decreases max - id
    {
      id := id + ID_INC;
      var found := Taken(stacks, id);
      if !found {
        return;
      }
    }
    return 0;
  }

  class StackList<I(==)> {
    var stacks: seq<Stack<I>>
    var insts: seq<Inst<I>>

    ghost function Abs(): Registry<I>
      reads this
    {
      Registry(stacks, insts)
    }

    constructor ()
      ensures Abs() == Empty() && Inv(Abs())
    {
      stacks, insts := [], [];
    }

    /** A new stack: a child of a master, a clone of the stack an instance is on, or a master. */
    method NewStack(master: Option<Where>, of: Option<Where>) returns (id: nat)
      requires master.Some? ==> Listed(stacks, master.value)
      requires of.Some? ==> Listed(stacks, of.value)
      modifies this
      ensures Abs() == if master.Some? then NewChild(old(Abs()), master.value)
                       else if of.Some? then NewClone(old(Abs()), of.value)
                       else NewMaster(old(Abs()))
    {
      if master.Some? {
        var s := At(stacks, master.value);
        id := FreeIdAbove(s.children, WithFlag(s.id, FLG_CHILD), CHILD_ID_MAX);
        stacks := SetAt(stacks, master.value, s.(children := s.children + [Fresh(id)]));
      } else {
        if of.Some? {
          id := FreeIdAbove(stacks, WithFlag(At(stacks, of.value).id, FLG_CLONE), CLONE_ID_MAX);
        } else {
          id := FreeMasterId(stacks);
        }
        stacks := stacks + [Fresh(id)];
      }
    }

    method ReleaseStack(k: nat)
      requires k < |stacks|
      modifies this`stacks
      ensures Abs() == Release(old(Abs()), k)
    {
      stacks := stacks[..k] + stacks[k + 1..];
    }

    /** The stack with an id: each stack of the list, then its children. */
    method GetStack(id: nat) returns (w: Option<Where>)
      ensures w == Lookup(stacks, id)
    {
      if id == 0 {
        return None;
      }
      var k := 0;
      while k < |stacks|
        invariant k <= |stacks| && LookupFrom(stacks, id, 0) == LookupFrom(stacks, id, k)
      {
        if stacks[k].id == id {
          return Some(Top(k));
        }
        var children := stacks[k].children;
        var c := 0;
        while c < |children|
          invariant c <= |children| && forall j | 0 <= j < c :: children[j].id != id
        {
          if children[c].id == id {
            assert FindId(children, id) == c;
            return Some(Under(k, c));
          }
          c := c + 1;
        }
        k := k + 1;
      }
      return None;
    }

    method GetInstance(id: nat) returns (k: nat)
      ensures k == FindInst(insts, id)
    {
      k := 0;
      while k < |insts|
        invariant k <= |insts| && forall j | 0 <= j < k :: insts[j].id != id
      {
        if insts[k].id == id {
          return;
        }
        k := k + 1;
      }
    }

    method GetOwner(owner: I) returns (k: nat)
      ensures k == FindOwner(insts, owner)
    {
      k := 0;
      while k < |insts|
        invariant k <= |insts| && forall j | 0 <= j < k :: insts[j].owner != owner
      {
        if insts[k].owner == owner {
          return;
        }
        k := k + 1;
      }
    }

    /** An instance takes its layers on a stack; refused when it has some, or they are taken. */
    method RegisterLayer(w: Where, owner: I, mask: Mask) returns (ok: bool)
      requires Listed(stacks, w)
      modifies this
      ensures ok == Enter(old(Abs()), w, owner, mask).Some?
      ensures Abs() == if ok then Enter(old(Abs()), w, owner, mask).value else old(Abs())
    {
      hide FindLayer, FindOwner, Insert, LowLayer;
      var i := GetOwner(owner);
      if i < |insts| {
        return false;
      }
      var s := At(stacks, w);
      var k := GetLayer(s.layers, mask);
      if k < |s.layers| {
        return false;
      }
      var ls := InsertLayer(s.layers, Layer(owner, mask));
      var low := GetLowLayer(mask);
      stacks := SetAt(stacks, w, s.(layers := ls));
      insts := insts + [Inst(owner, mask, s.id, low * 0x10_0000 + FLG_INSTANCE + s.id)];
      return true;
    }

    /** The first layer on the stack that shares a bit with the instance's mask goes. */
    method UnregisterInstance(w: Where, owner: I, mask: Mask)
      requires Listed(stacks, w)
      modifies this
      ensures Abs() == Leave(old(Abs()), w, owner, mask)
    {
      hide FindLayer, FindOwner;
      var s := At(stacks, w);
      var k := GetLayer(s.layers, mask);
      var ls := if k < |s.layers| then s.layers[..k] + s.layers[k + 1..] else s.layers;
      stacks := SetAt(stacks, w, s.(layers := ls));
      var i := GetOwner(owner);
      if i < |insts| {
        insts := insts[..i] + insts[i + 1..];
      }
    }

    /** One event of a run. */
    method Handle(e: Event<I>)
      requires Inv(Abs()) && Allowed(Abs(), e)
      modifies this
      ensures Abs() == Step(old(Abs()), e) && Inv(Abs())
    {
      hide Inv, StackRegistry.NewMaster, NewClone, NewChild, Release, Enter, Leave;
      StepKeeps(Abs(), e);
      match e
      case MasterStack => var _ := NewStack(None, None);
      case CloneStack(of) => var _ := NewStack(None, Some(of));
      case ChildStack(under) => var _ := NewStack(Some(under), None);
      case ReleaseStack(k) => ReleaseStack(k);
      case RegisterInst(w, owner, mask) => var _ := RegisterLayer(w, owner, mask);
      case UnregisterInst(w, owner, mask) => UnregisterInstance(w, owner, mask);
    }
  }
}
