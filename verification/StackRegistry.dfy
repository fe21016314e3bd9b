/**
 All protocol stacks: the list of master and clone stacks, the children of each, the ids they get,
 and the list of registered instances with the ids derived from their stack and layer.
 */
module StackRegistry {
  import opened Basics
  import opened LayerMask
  import opened StackLayers

  const FLG_CHILD: nat := 0x1000_0000
  const FLG_CLONE: nat := 0x2000_0000
  const FLG_INSTANCE: nat := 0x4000_0000
  const ID_INC: nat := 0x100
  const CHILD_ID_MAX: nat := 0x1000_FF00
  const CLONE_ID_MAX: nat := 0x2000_FF00
  const MASTER_ID_MAX: nat := 127

  datatype Stack<+I> = Stack(id: nat, layers: seq<Layer<I>>, children: seq<Stack<I>>)

  /** A registered instance: what it serves, on the stack with which id, under which id. */
  datatype Inst<+I> = Inst(owner: I, mask: Mask, stack: nat, id: nat)

  datatype Registry<+I> = Registry(stacks: seq<Stack<I>>, insts: seq<Inst<I>>)

  /** A stack is in the list or among the children of one that is. */
  datatype Where = Top(k: nat) | Under(k: nat, c: nat)

  predicate Listed<I>(stacks: seq<Stack<I>>, w: Where) {
    w.k < |stacks| && (w.Under? ==> w.c < |stacks[w.k].children|)
  }

  function At<I>(stacks: seq<Stack<I>>, w: Where): Stack<I>
    requires Listed(stacks, w)
  {
    match w
    case Top(k) => stacks[k]
    case Under(k, c) => stacks[k].children[c]
  }

  function SetAt<I>(stacks: seq<Stack<I>>, w: Where, s: Stack<I>): seq<Stack<I>>
    requires Listed(stacks, w)
  {
    match w
    case Top(k) => stacks[k := s]
    case Under(k, c) => stacks[k := stacks[k].(children := stacks[k].children[c := s])]
  }

  // ----- stack ids --------------------------------------------------------------------------

  /** The flag, a single bit, set in an id. */
  function WithFlag(id: nat, flag: nat): nat
    requires flag > 0
  {
    if (id / flag) % 2 == 1 then id else id + flag
  }

  function IdsIn<I>(stacks: seq<Stack<I>>): seq<nat> {
    seq(|stacks|, k requires 0 <= k < |stacks| => stacks[k].id)
  }

  /** The first id from here on that is free, below 127; otherwise 0. */
  function FreeMaster(ids: seq<nat>, id: nat): (r: nat)
    ensures r == 0 || (id <= r < MASTER_ID_MAX && r !in ids)
    decreases MASTER_ID_MAX - id
  {
    if id >= MASTER_ID_MAX then 0 else if id in ids then FreeMaster(ids, id + 1) else id
  }

  /** The first free id in steps of 256 above id; 0 when the maximum has been passed. */
  function FreeAbove(ids: seq<nat>, id: nat, max: nat): (r: nat)
    ensures r == 0 || (id < r < max + ID_INC && r % ID_INC == id % ID_INC && r !in ids)
    decreases max - id
  {
    if id >= max then 0
    else
      var next := id + ID_INC;
      if next in ids then FreeAbove(ids, next, max) else next
  }

  function MasterId<I>(stacks: seq<Stack<I>>): nat {
    FreeMaster(IdsIn(stacks), 1)
  }

  function CloneId<I>(stacks: seq<Stack<I>>, of: nat): nat {
    FreeAbove(IdsIn(stacks), WithFlag(of, FLG_CLONE), CLONE_ID_MAX)
  }

  function ChildId<I>(parent: Stack<I>): nat {
    FreeAbove(IdsIn(parent.children), WithFlag(parent.id, FLG_CHILD), CHILD_ID_MAX)
  }

  /** Lowest layer, instance flag and stack id side by side. */
  function InstId(stack: nat, mask: Mask): nat {
    LowLayer(mask) * 0x10_0000 + FLG_INSTANCE + stack
  }

  // ----- the operations ---------------------------------------------------------------------

  function Fresh<I>(id: nat): Stack<I> {
    Stack(id, [], [])
  }

  function NewMaster<I>(r: Registry<I>): Registry<I> {
    r.(stacks := r.stacks + [Fresh(MasterId(r.stacks))])
  }

  function NewClone<I>(r: Registry<I>, of: Where): Registry<I>
    requires Listed(r.stacks, of)
  {
    r.(stacks := r.stacks + [Fresh(CloneId(r.stacks, At(r.stacks, of).id))])
  }

  function NewChild<I>(r: Registry<I>, under: Where): Registry<I>
    requires Listed(r.stacks, under)
  {
    var s := At(r.stacks, under);
    r.(stacks := SetAt(r.stacks, under, s.(children := s.children + [Fresh(ChildId(s))])))
  }

  function Release<I>(r: Registry<I>, k: nat): Registry<I>
    requires k < |r.stacks|
  {
    r.(stacks := r.stacks[..k] + r.stacks[k + 1..])
  }

  /** Where the instance is in the list; the length if it is not. */
  function FindOwner<I(==)>(insts: seq<Inst<I>>, owner: I): (k: nat)
    ensures k <= |insts|
    ensures k < |insts| ==> insts[k].owner == owner
    ensures forall j | 0 <= j < k :: insts[j].owner != owner
  {
    if insts == [] || insts[0].owner == owner then 0 else 1 + FindOwner(insts[1..], owner)
  }

  /** Refused for an instance that is registered and for a layer that is taken. */
  function Enter<I(==)>(r: Registry<I>, w: Where, owner: I, mask: Mask): Option<Registry<I>>
    requires Listed(r.stacks, w)
  {
    if FindOwner(r.insts, owner) < |r.insts| then None
    else
      var s := At(r.stacks, w);
      match Register(s.layers, Layer(owner, mask))
      case None => None
      case Some(ls) => Some(Registry(SetAt(r.stacks, w, s.(layers := ls)),
                                     r.insts + [Inst(owner, mask, s.id, InstId(s.id, mask))]))
  }

  function Leave<I(==)>(r: Registry<I>, w: Where, owner: I, mask: Mask): Registry<I>
    requires Listed(r.stacks, w)
  {
    var s := At(r.stacks, w);
    var k := FindOwner(r.insts, owner);
    Registry(SetAt(r.stacks, w, s.(layers := Remove(s.layers, mask))),
             if k < |r.insts| then r.insts[..k] + r.insts[k + 1..] else r.insts)
  }

  // ----- lookups ----------------------------------------------------------------------------

  /** Position of the first stack with the id; the length if there is none. */
  function FindId<I>(stacks: seq<Stack<I>>, id: nat): (k: nat)
    ensures k <= |stacks|
    ensures k < |stacks| ==> stacks[k].id == id
    ensures forall j | 0 <= j < k :: stacks[j].id != id
  {
    if stacks == [] || stacks[0].id == id then 0 else 1 + FindId(stacks[1..], id)
  }

  /** List order, each stack before its children, from position k on. */
  function LookupFrom<I>(stacks: seq<Stack<I>>, id: nat, k: nat): (w: Option<Where>)
    requires k <= |stacks|
    ensures w.Some? ==> Listed(stacks, w.value) && At(stacks, w.value).id == id
    ensures w.None? ==> forall v | Listed(stacks, v) && v.k >= k :: At(stacks, v).id != id
    decreases |stacks| - k
  {
    if k == |stacks| then None
    else if stacks[k].id == id then Some(Top(k))
    else
      var c := FindId(stacks[k].children, id);
      if c < |stacks[k].children| then Some(Under(k, c)) else LookupFrom(stacks, id, k + 1)
  }

  /** The stack with an id; 0 is not an id. */
  function Lookup<I>(stacks: seq<Stack<I>>, id: nat): Option<Where> {
    if id == 0 then None else LookupFrom(stacks, id, 0)
  }

  /** Position of the first instance with the id; the length if there is none. */
  function FindInst<I>(insts: seq<Inst<I>>, id: nat): (k: nat)
    ensures k <= |insts|
    ensures k < |insts| ==> insts[k].id == id
    ensures forall j | 0 <= j < k :: insts[j].id != id
  {
    if insts == [] || insts[0].id == id then 0 else 1 + FindInst(insts[1..], id)
  }

  // ----- events -----------------------------------------------------------------------------

  datatype Event<+I> =
    | MasterStack
    | CloneStack(of: Where)
    | ChildStack(under: Where)
    | ReleaseStack(k: nat)
    | RegisterInst(w: Where, owner: I, mask: Mask)
    | UnregisterInst(w: Where, owner: I, mask: Mask)

  /** Children only under stacks of the list; a stack is released when its instances are gone; masks
      are not empty; only a registered instance unregisters. */
  predicate Allowed<I(==)>(r: Registry<I>, e: Event<I>) {
    match e
    case MasterStack => true
    case CloneStack(of) => Listed(r.stacks, of)
    case ChildStack(under) => Listed(r.stacks, under) && under.Top?
    case ReleaseStack(k) =>
      k < |r.stacks| && r.stacks[k].layers == []
      && forall c | 0 <= c < |r.stacks[k].children| :: r.stacks[k].children[c].layers == []
    case RegisterInst(w, owner, mask) => Listed(r.stacks, w) && mask != 0
    case UnregisterInst(w, owner, mask) => Listed(r.stacks, w) && Layer(owner, mask) in At(r.stacks, w).layers
  }

  function Step<I(==)>(r: Registry<I>, e: Event<I>): Registry<I>
    requires Allowed(r, e)
  {
    match e
    case MasterStack => NewMaster(r)
    case CloneStack(of) => NewClone(r, of)
    case ChildStack(under) => NewChild(r, under)
    case ReleaseStack(k) => Release(r, k)
    case RegisterInst(w, owner, mask) => (match Enter(r, w, owner, mask) case Some(q) => q case None => r)
    case UnregisterInst(w, owner, mask) => Leave(r, w, owner, mask)
  }
}
