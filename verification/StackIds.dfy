/**
 Which id a new stack gets: the first one of its kind that is free.
 */
module StackIds {
  import opened StackRegistry

  predicate AllTaken(ids: seq<nat>, from: nat, to: nat) {
    forall k: nat | from <= k < to :: k in ids
  }

  /** A master gets the smallest id below 127 that is free, and none exactly when all are taken. */
  lemma {:induction false} FreeMasterIs(ids: seq<nat>, id: nat)
    requires 1 <= id
    ensures FreeMaster(ids, id) == 0 <==> AllTaken(ids, id, MASTER_ID_MAX)
    ensures var r := FreeMaster(ids, id);
            r != 0 ==> id <= r < MASTER_ID_MAX && r !in ids && AllTaken(ids, id, r)
    decreases MASTER_ID_MAX - id
  {
    if id < MASTER_ID_MAX && id in ids {
      FreeMasterIs(ids, id + 1);
    }
  }

  /** The n-th id of a series. */
  function Nth(base: nat, n: nat): nat {
    base + ID_INC * n
  }

  /** The ids of the series after position n and before position m are taken. */
  predicate SeriesTaken(ids: seq<nat>, base: nat, n: nat, m: nat) {
    forall k: nat | n < k < m :: Nth(base, k) in ids
  }

  /** The series of 255 ids that a flag and the lowest octet of an id stand for. */
  predicate Series(base: nat, max: nat) {
    Nth(base, 254) < max <= Nth(base, 255)
  }

  /** The first free id of the series after position n, or 0 exactly when all of them are taken. */
  lemma {:induction false} FreeAboveIs(ids: seq<nat>, base: nat, n: nat, max: nat)
    requires Series(base, max) && n <= 255
    ensures FreeAbove(ids, Nth(base, n), max) == 0 <==> SeriesTaken(ids, base, n, 256)
    ensures var r := FreeAbove(ids, Nth(base, n), max);
            r != 0 ==> r !in ids && exists k: nat | n < k < 256 :: r == Nth(base, k) && SeriesTaken(ids, base, n, k)
    decreases 255 - n
  {
    var r := FreeAbove(ids, Nth(base, n), max);
    var next := Nth(base, n + 1);
    assert next == Nth(base, n) + ID_INC;
    if n < 255 {
      if next in ids {
        FreeAboveIs(ids, base, n + 1, max);
        if r != 0 {
          var k: nat :| n + 1 < k < 256 && r == Nth(base, k) && SeriesTaken(ids, base, n + 1, k);
          assert SeriesTaken(ids, base, n, k);
        }
      } else {
        assert r == Nth(base, n + 1) && SeriesTaken(ids, base, n, n + 1);
      }
    }
  }

  /** The ids of a new stack: the first of its series that is free, none exactly when all 255 are taken. */
  predicate FirstFree(ids: seq<nat>, base: nat, id: nat) {
    && (id == 0 <==> SeriesTaken(ids, base, 0, 256))
    && (id != 0 ==> id !in ids && exists k: nat | 0 < k < 256 :: id == Nth(base, k) && SeriesTaken(ids, base, 0, k))
  }

  /** A clone of a master is added with the first free clone id that ends in the master's id, whatever
      that id is; nothing else changes. */
  lemma CloneIs<I>(r: Registry<I>, of: Where)
    requires Listed(r.stacks, of) && At(r.stacks, of).id < ID_INC
    ensures var q := NewClone(r, of);
            && |q.stacks| == |r.stacks| + 1 && q.stacks[..|r.stacks|] == r.stacks && q.insts == r.insts
            && var s := q.stacks[|r.stacks|];
               s.layers == [] && s.children == [] && FirstFree(IdsIn(r.stacks), FLG_CLONE + At(r.stacks, of).id, s.id)
  {
    var base := FLG_CLONE + At(r.stacks, of).id;
    assert Nth(base, 0) == base;
    FreeAboveIs(IdsIn(r.stacks), base, 0, CLONE_ID_MAX);
  }

  /** A child of a master is added under it with the first child id that ends in the master's id and is
      free among its siblings. */
  lemma ChildIs<I>(r: Registry<I>, k: nat)
    requires k < |r.stacks| && r.stacks[k].id < ID_INC
    ensures var q := NewChild(r, Top(k));
            var s, t := r.stacks[k], q.stacks[k];
            && q == r.(stacks := r.stacks[k := t]) && t == s.(children := t.children)
            && |t.children| == |s.children| + 1 && t.children[..|s.children|] == s.children
            && var c := t.children[|s.children|];
               c.layers == [] && c.children == [] && FirstFree(IdsIn(s.children), FLG_CHILD + s.id, c.id)
  {
    var base := FLG_CHILD + r.stacks[k].id;
    assert Nth(base, 0) == base;
    FreeAboveIs(IdsIn(r.stacks[k].children), base, 0, CHILD_ID_MAX);
  }

  /** A master is added with the smallest id below 127 that is free. */
  lemma MasterIs<I>(r: Registry<I>)
    ensures var q := NewMaster(r);
            var ids := IdsIn(r.stacks);
            && |q.stacks| == |r.stacks| + 1 && q.stacks[..|r.stacks|] == r.stacks && q.insts == r.insts
            && var s := q.stacks[|r.stacks|];
               && s.layers == [] && s.children == []
               && (s.id == 0 <==> AllTaken(ids, 1, MASTER_ID_MAX))
               && (s.id != 0 ==> 1 <= s.id < MASTER_ID_MAX && s.id !in ids && AllTaken(ids, 1, s.id))
  {
    FreeMasterIs(IdsIn(r.stacks), 1);
  }
}
