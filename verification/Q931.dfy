/**
 Building a Q.931 message: information elements are appended to the body, and an index of offsets
 says where each of them starts.
 */
module Q931 {
  import opened Basics

  const NONE: int := -1

  /** Entry of the index for an element below 0x80, or -1. */
  function Ie2Pos(c: byte): int {
    match c
    case 0x04 => 0 case 0x08 => 1 case 0x10 => 2 case 0x14 => 3 case 0x18 => 4 case 0x1c => 5
    case 0x1e => 6 case 0x20 => 7 case 0x27 => 8 case 0x28 => 9 case 0x29 => 10 case 0x2c => 11
    case 0x34 => 12 case 0x40 => 13 case 0x42 => 14 case 0x43 => 15 case 0x44 => 16 case 0x45 => 17
    case 0x46 => 18 case 0x47 => 19 case 0x4c => 20 case 0x4d => 21 case 0x6c => 22 case 0x6d => 23
    case 0x70 => 24 case 0x71 => 25 case 0x74 => 26 case 0x78 => 27 case 0x79 => 28 case 0x7c => 29
    case 0x7d => 30 case 0x7e => 31
    case _ => NONE
  }

  /** The element an entry of the index is for. */
  function Pos2Ie(p: nat): byte {
    match p
    case 0 => 0x04 case 1 => 0x08 case 2 => 0x10 case 3 => 0x14 case 4 => 0x18 case 5 => 0x1c
    case 6 => 0x1e case 7 => 0x20 case 8 => 0x27 case 9 => 0x28 case 10 => 0x29 case 11 => 0x2c
    case 12 => 0x34 case 13 => 0x40 case 14 => 0x42 case 15 => 0x43 case 16 => 0x44 case 17 => 0x45
    case 18 => 0x46 case 19 => 0x47 case 20 => 0x4c case 21 => 0x4d case 22 => 0x6c case 23 => 0x6d
    case 24 => 0x70 case 25 => 0x71 case 26 => 0x74 case 27 => 0x78 case 28 => 0x79 case 29 => 0x7c
    case 30 => 0x7d
    case _ => 0x7e
  }

  const IE_MORE_DATA: byte := 0xa0
  const IE_COMPLETE: byte := 0xa1
  const IE_CONGESTION: byte := 0xb0

  const MORE_DATA: nat := 32
  const SENDING_COMPLETE: nat := 33
  const CONGESTION_LEVEL: nat := 34
  const SLOTS: nat := 35

  /** The two tables are each other's inverse. */
  lemma TablesInverse(p: nat, c: byte)
    ensures p < 32 ==> Ie2Pos(Pos2Ie(p)) == p
    ensures Ie2Pos(c) != NONE ==> 0 <= Ie2Pos(c) < 32 && Pos2Ie(Ie2Pos(c)) == c
  {
  }

  /** Which entry of the index an element uses; none for an element that is not known. */
  function SlotOf(ie: byte): (s: Option<nat>)
    ensures s.Some? ==> s.value < SLOTS
  {
    if ie >= 0x80 then
      if ie == IE_MORE_DATA then Some(MORE_DATA)
      else if ie == IE_COMPLETE then Some(SENDING_COMPLETE)
      else if ie / 16 * 16 == IE_CONGESTION then Some(CONGESTION_LEVEL)
      else None
    else if Ie2Pos(ie) < 0 then None
    else
      TablesInverse(0, ie);
      Some(Ie2Pos(ie))
  }

  /** An entry of the index belongs to one element, but for the congestion levels. */
  lemma SlotOwner(a: byte, b: byte)
    requires SlotOf(a).Some? && SlotOf(a) == SlotOf(b) && SlotOf(a) != Some(CONGESTION_LEVEL)
    ensures a == b
  {
    if a < 128 {
      TablesInverse(0, a);
    }
    if b < 128 {
      TablesInverse(0, b);
    }
  }

  /** The index, and the body with the one octet that is put there first. */
  datatype Message = Message(kind: byte, index: seq<nat>, body: seq<byte>)

  predicate Valid(m: Message) {
    |m.index| == SLOTS
  }

  function NewMessage(kind: byte, first: byte): (m: Message)
    ensures Valid(m)
  {
    Message(kind, seq(SLOTS, _ => 0), [first])
  }

  /** An element is appended and its entry set; offsets have 16 bits. */
  function Put(m: Message, slot: nat, octets: seq<byte>): (r: Message)
    requires Valid(m) && slot < SLOTS
    ensures Valid(r)
  {
    m.(index := m.index[slot := |m.body| % 0x1_0000], body := m.body + octets)
  }

  // ----- additions --------------------------------------------------------------------------

  /** An element complete with type and length, or its type and its length with contents. */
  datatype Addition =
    | Whole(ie: seq<byte>)
    | Parts(kind: byte, contents: Option<seq<byte>>)

  /** The octets that are read are there. */
  predicate Readable(a: Addition) {
    match a
    case Whole(ie) => ie != [] && (ie[0] < 0x80 ==> |ie| >= 2 && |ie| >= ie[1] as int + 2)
    case Parts(_, Some(c)) => c != [] && |c| >= c[0] as int + 1
    case Parts(_, None) => true
  }

  /** Entry and octets of an addition; none when nothing is added. */
  function Effect(a: Addition): (e: Option<(nat, seq<byte>)>)
    requires Readable(a)
    ensures e.Some? ==> e.value.0 < SLOTS && e.value.1 != []
  {
    match a
    case Whole(ie) =>
      (match SlotOf(ie[0])
       case None => None
       case Some(s) => Some((s, if ie[0] >= 0x80 then [ie[0]] else ie[..ie[1] as int + 2])))
    case Parts(kind, contents) =>
      if kind >= 0x80 then
        (match SlotOf(kind) case None => None case Some(s) => Some((s, [kind])))
      else if contents.None? || contents.value[0] == 0 then None
      else
        match SlotOf(kind)
        case None => None
        case Some(s) => Some((s, [kind] + contents.value[..contents.value[0] as int + 1]))
  }

  function Add(m: Message, a: Addition): (r: Message)
    requires Valid(m) && Readable(a)
    ensures Valid(r)
  {
    match Effect(a)
    case None => m
    case Some((slot, octets)) => Put(m, slot, octets)
  }

  predicate AllReadable(adds: seq<Addition>) {
    forall k | 0 <= k < |adds| :: Readable(adds[k])
  }

  function AddAll(m: Message, adds: seq<Addition>): (r: Message)
    requires Valid(m) && AllReadable(adds)
    ensures Valid(r)
  {
    if adds == [] then m else Add(AddAll(m, adds[..|adds| - 1]), adds[|adds| - 1])
  }

  /** The octets last added for an entry, if any were. */
  function Last(adds: seq<Addition>, slot: nat): Option<seq<byte>>
    requires AllReadable(adds)
  {
    if adds == [] then None
    else
      match Effect(adds[|adds| - 1])
      case Some((s, octets)) => if s == slot then Some(octets) else Last(adds[..|adds| - 1], slot)
      case None => Last(adds[..|adds| - 1], slot)
  }

  /** The octets stand in the body at an offset. */
  predicate StandsAt(body: seq<byte>, at: nat, octets: seq<byte>) {
    at + |octets| <= |body| && body[at..at + |octets|] == octets
  }

  /** What the index says about an entry: nothing was added, or where the last one is. */
  predicate EntryOk(m: Message, slot: nat, last: Option<seq<byte>>)
    requires Valid(m) && slot < SLOTS
  {
    match last
    case None => m.index[slot] == 0
    case Some(octets) => m.index[slot] > 0 && StandsAt(m.body, m.index[slot], octets)
  }

  lemma StandsLonger(body: seq<byte>, at: nat, octets: seq<byte>, more: seq<byte>)
    requires StandsAt(body, at, octets)
    ensures StandsAt(body + more, at, octets)
  {
    assert (body + more)[at..at + |octets|] == body[at..at + |octets|];
  }

  lemma PutKeeps(m: Message, slot: nat, octets: seq<byte>, other: nat, last: Option<seq<byte>>)
    requires Valid(m) && slot < SLOTS && other < SLOTS && 0 < |m.body| < 0x1_0000
    requires EntryOk(m, other, last)
    ensures EntryOk(Put(m, slot, octets), other, if other == slot then Some(octets) else last)
  {
    if other == slot {
      assert (m.body + octets)[|m.body|..|m.body| + |octets|] == octets;
    } else if last.Some? {
      StandsLonger(m.body, m.index[other], last.value, octets);
    }
  }

  /** After any additions to a new message that stays within 64K, an entry is zero exactly when
      nothing was added for it, and otherwise says where the last addition for it stands, octet for
      octet. */
  lemma {:induction false} IndexLocatesLast(kind: byte, first: byte, adds: seq<Addition>, slot: nat)
    requires AllReadable(adds) && slot < SLOTS && |AddAll(NewMessage(kind, first), adds).body| <= 0x1_0000
    ensures var m := AddAll(NewMessage(kind, first), adds);
            && m.body != []
            && EntryOk(m, slot, Last(adds, slot))
            && (m.index[slot] == 0 <==> Last(adds, slot).None?)
    decreases |adds|
  {
    hide Effect, EntryOk;
    if adds == [] {
      assert EntryOk(NewMessage(kind, first), slot, None) by { NewEntry(kind, first, slot); }
    } else {
      var rest := adds[..|adds| - 1];
      var a := adds[|adds| - 1];
      var m := AddAll(NewMessage(kind, first), rest);
      IndexLocatesLast(kind, first, rest, slot);
      match Effect(a) {
        case None =>
        case Some((s, octets)) =>
          PutKeeps(m, s, octets, slot, Last(rest, slot));
      }
    }
    ZeroIff(AddAll(NewMessage(kind, first), adds), slot, Last(adds, slot));
  }

  lemma NewEntry(kind: byte, first: byte, slot: nat)
    requires slot < SLOTS
    ensures EntryOk(NewMessage(kind, first), slot, None)
  {
  }

  lemma ZeroIff(m: Message, slot: nat, last: Option<seq<byte>>)
    requires Valid(m) && slot < SLOTS && EntryOk(m, slot, last)
    ensures m.index[slot] == 0 <==> last.None?
  {
  }

  /** After an addition its entry locates it always below 64K, never at a multiple of 64K, and
      beyond that only if the same octets happen to stand where the cut offset points. */
  lemma LocatedIff(m: Message, slot: nat, octets: seq<byte>)
    requires Valid(m) && slot < SLOTS && m.body != []
    ensures var cut := |m.body| % 0x1_0000;
            EntryOk(Put(m, slot, octets), slot, Some(octets)) <==>
              || |m.body| < 0x1_0000
              || (cut != 0 && StandsAt(m.body + octets, cut, octets))
  {
    if |m.body| < 0x1_0000 {
      assert (m.body + octets)[|m.body|..|m.body| + |octets|] == octets;
    }
  }

  /** What is located for one of the 32 elements has that element's type and its length. */
  lemma {:induction false} LastHasType(adds: seq<Addition>, slot: nat)
    requires AllReadable(adds) && slot < 32 && Last(adds, slot).Some?
    ensures var octets := Last(adds, slot).value;
            |octets| >= 2 && octets[0] == Pos2Ie(slot) && |octets| == octets[1] as int + 2
    decreases |adds|
  {
    var rest := adds[..|adds| - 1];
    var a := adds[|adds| - 1];
    if Effect(a).Some? && Effect(a).value.0 == slot {
      EffectHasType(a, slot);
    } else {
      LastHasType(rest, slot);
    }
  }

  lemma EffectHasType(a: Addition, slot: nat)
    requires Readable(a) && Effect(a).Some? && Effect(a).value.0 == slot && slot < 32
    ensures var octets := Effect(a).value.1;
            |octets| >= 2 && octets[0] == Pos2Ie(slot) && |octets| == octets[1] as int + 2
  {
    match a
    case Whole(ie) =>
      if ie[0] < 128 {
        TablesInverse(0, ie[0]);
      }
    case Parts(kind, _) =>
      if kind < 128 {
        TablesInverse(0, kind);
      }
  }

  // ----- the caller's own octets ------------------------------------------------------------

  function TypeOf(a: Addition): byte
    requires Readable(a)
  {
    match a case Whole(ie) => ie[0] case Parts(kind, _) => kind
  }

  /** The entry of the index that is for elements of a type. */
  predicate EntryFor(slot: nat, t: byte) {
    || (slot < 32 && t == Pos2Ie(slot))
    || (slot == MORE_DATA && t == IE_MORE_DATA)
    || (slot == SENDING_COMPLETE && t == IE_COMPLETE)
    || (slot == CONGESTION_LEVEL && 0xb0 <= t <= 0xbf)
  }

  /** An element given by type that is longer than an octet, without contents. */
  predicate Hollow(a: Addition)
    requires Readable(a)
  {
    a.Parts? && a.kind < 0x80 && (a.contents.None? || a.contents.value[0] == 0)
  }

  /** The addition is for the entry. */
  predicate Uses(a: Addition, slot: nat)
    requires Readable(a)
  {
    EntryFor(slot, TypeOf(a)) && !Hollow(a)
  }

  /** The octets of the addition, as the caller gave them, stand in the body at an offset. */
  predicate Carries(body: seq<byte>, at: nat, a: Addition)
    requires Readable(a)
  {
    match a
    case Whole(ie) =>
      var l := if ie[0] >= 0x80 then 1 else ie[1] as int + 2;
      at + l <= |body| && forall n | 0 <= n < l :: body[at + n] == ie[n]
    case Parts(kind, contents) =>
      && at < |body| && body[at] == kind
      && (kind < 0x80 && contents.Some? ==>
            && at + 1 + contents.value[0] as int < |body|
            && forall n | 0 <= n <= contents.value[0] as int :: body[at + 1 + n] == contents.value[n])
  }

  lemma PosKinds(p: nat)
    ensures Pos2Ie(p) < 0x80
  {
  }

  lemma SlotIsEntry(t: byte, slot: nat)
    ensures SlotOf(t) == Some(slot) <==> EntryFor(slot, t)
  {
    TablesInverse(slot, t);
    PosKinds(slot);
  }

  lemma UsesIsEffect(a: Addition, slot: nat)
    requires Readable(a)
    ensures Uses(a, slot) <==> Effect(a).Some? && Effect(a).value.0 == slot
  {
    hide SlotOf, EntryFor;
    SlotIsEntry(TypeOf(a), slot);
  }

  lemma EffectCarries(a: Addition, body: seq<byte>, at: nat)
    requires Readable(a) && Effect(a).Some? && StandsAt(body, at, Effect(a).value.1)
    ensures Carries(body, at, a)
  {
    hide SlotOf;
    var octets := Effect(a).value.1;
    assert forall n | 0 <= n < |octets| :: octets[n] == body[at + n];
  }

  /** k is the last of the additions for the entry. */
  predicate IsLast(adds: seq<Addition>, k: nat, slot: nat)
    requires AllReadable(adds)
  {
    k < |adds| && Uses(adds[k], slot) && forall n | k < n < |adds| :: !Uses(adds[n], slot)
  }

  lemma {:induction false} LastIs(adds: seq<Addition>, k: nat, slot: nat)
    requires AllReadable(adds) && IsLast(adds, k, slot)
    ensures Effect(adds[k]).Some? && Last(adds, slot) == Some(Effect(adds[k]).value.1)
    decreases |adds|
  {
    hide Effect, Uses;
    var n := |adds| - 1;
    UsesIsEffect(adds[n], slot);
    if k < n {
      LastIs(adds[..n], k, slot);
    }
  }

  lemma {:induction false} NoneLast(adds: seq<Addition>, slot: nat)
    requires AllReadable(adds) && forall k | 0 <= k < |adds| :: !Uses(adds[k], slot)
    ensures Last(adds, slot).None?
    decreases |adds|
  {
    hide Effect, Uses;
    if adds != [] {
      var n := |adds| - 1;
      UsesIsEffect(adds[n], slot);
      NoneLast(adds[..n], slot);
    }
  }

  /** After any additions to a new message that stays within 64K: where the last addition for an entry
      is known, the entry says where its octets stand as the caller gave them, and an entry for which
      there was none is zero. */
  lemma AdditionsStand(kind: byte, first: byte, adds: seq<Addition>, slot: nat)
    requires AllReadable(adds) && slot < SLOTS && |AddAll(NewMessage(kind, first), adds).body| <= 0x1_0000
    ensures var m := AddAll(NewMessage(kind, first), adds);
            && (forall k: nat | IsLast(adds, k, slot) :: m.index[slot] > 0 && Carries(m.body, m.index[slot], adds[k]))
            && ((forall k | 0 <= k < |adds| :: !Uses(adds[k], slot)) ==> m.index[slot] == 0)
  {
    hide Effect, Uses, Last, Carries, AddAll, NewMessage;
    var m := AddAll(NewMessage(kind, first), adds);
    IndexLocatesLast(kind, first, adds, slot);
    forall k: nat | IsLast(adds, k, slot)
      ensures m.index[slot] > 0 && Carries(m.body, m.index[slot], adds[k])
    {
      LastIs(adds, k, slot);
      EffectCarries(adds[k], m.body, m.index[slot]);
    }
    if forall k | 0 <= k < |adds| :: !Uses(adds[k], slot) {
      NoneLast(adds, slot);
    }
  }

  /** How many octets an addition takes in the message. */
  function LengthOf(a: Addition): nat
    requires Readable(a)
  {
    if TypeOf(a) >= 0x80 then 1
    else if a.Whole? then a.ie[1] as int + 2
    else if a.contents.None? then 0
    else a.contents.value[0] as int + 2
  }

  /** One addition: dropped exactly when its type has no entry or it is hollow, and otherwise appended as
      the caller gave it, with nothing before it changed and nothing added after it. */
  lemma AdditionIs(m: Message, a: Addition)
    requires Valid(m) && Readable(a)
    ensures var r := Add(m, a);
            if (forall slot | 0 <= slot < SLOTS :: !EntryFor(slot, TypeOf(a))) || Hollow(a) then r == m
            else |r.body| == |m.body| + LengthOf(a) && m.body <= r.body && Carries(r.body, |m.body|, a)
  {
    hide SlotOf, EntryFor;
    var r := Add(m, a);
    var t := TypeOf(a);
    forall slot: nat
      ensures SlotOf(t) == Some(slot) <==> EntryFor(slot, t)
    {
      SlotIsEntry(t, slot);
    }
    if Effect(a).Some? {
      var octets := Effect(a).value.1;
      assert EntryFor(Effect(a).value.0, t);
      assert (m.body + octets)[|m.body|..|m.body| + |octets|] == octets;
      EffectCarries(a, r.body, |m.body|);
    } else if !Hollow(a) {
      assert SlotOf(t).None?;
    }
  }

  // ----- the message as an object -----------------------------------------------------------

  class L3Message {
    const kind: byte
    const index: array<nat>
    var body: seq<byte>

    ghost predicate Ok() {
      index.Length == SLOTS
    }

    ghost function Abs(): (m: Message)
      requires Ok()
      reads this, index
      ensures Valid(m)
    {
      Message(kind, index[..], body)
    }

    constructor (kind: byte, first: byte)
      ensures Ok() && fresh(index) && Abs() == NewMessage(kind, first)
    {
      this.kind := kind;
      index := new nat[SLOTS](_ => 0);
      body := [first];
      new;
      assert index[..] == seq(SLOTS, _ => 0);
    }

    method PutOctets(slot: nat, octets: seq<byte>)
      requires Ok() && slot < SLOTS
      modifies this`body, index
      ensures Abs() == Put(old(Abs()), slot, octets)
    {
      var at := |body|;
      body := body + octets;
      index[slot] := at % 0x1_0000;
    }

    /** Adds an element that comes with its type and length. */
    method AddVarIE(ie: seq<byte>)
      requires Ok() && Readable(Whole(ie))
      modifies this`body, index
      ensures Abs() == Add(old(Abs()), Whole(ie))
    {
      hide SlotOf, Put;
      var slot := SlotOf(ie[0]);
      if slot.None? {
        return;
      }
      var l := if ie[0] >= 0x80 then 1 else ie[1] as int + 2;
      assert ie[..1] == [ie[0]];
      PutOctets(slot.value, ie[..l]);
    }

    /** Adds an element by type, with its length and contents if it has any. */
    method AddIE(kind: byte, contents: Option<seq<byte>>)
      requires Ok() && Readable(Parts(kind, contents))
      modifies this`body, index
      ensures Abs() == Add(old(Abs()), Parts(kind, contents))
    {
      hide SlotOf, Put;
      if kind < 0x80 && (contents.None? || contents.value[0] == 0) {
        return;
      }
      var slot := SlotOf(kind);
      if slot.None? {
        return;
      }
      var rest := if kind >= 0x80 then [] else contents.value[..contents.value[0] as int + 1];
      assert [kind] + [] == [kind];
      PutOctets(slot.value, [kind] + rest);
    }
  }
}
