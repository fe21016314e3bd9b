/**
 Table-driven state machines: a jump matrix filled from a list of nodes, and dispatch through it.
 */
module Fsm {
  import opened Basics

  datatype Node<+S, +E, +R> = Node(state: S, event: E, routine: R)

  /** What the list says about a state and an event: a later node overrides an earlier one. */
  function LastRoutine<S(==), E(==), R>(nodes: seq<Node<S, E, R>>, s: S, e: E): Option<R> {
    if nodes == [] then None
    else
      var n := nodes[|nodes| - 1];
      if n.state == s && n.event == e then Some(n.routine) else LastRoutine(nodes[..|nodes| - 1], s, e)
  }

  /** A function that agrees with every node, and is defined only where a node is, is the list. */
  lemma {:induction false} ListIsFunction<S, E, R(!new)>(nodes: seq<Node<S, E, R>>, s: S, e: E, r: Option<R>)
    requires forall k | 0 <= k < |nodes| && nodes[k].state == s && nodes[k].event == e :: r == Some(nodes[k].routine)
    requires r.Some? ==> exists k :: 0 <= k < |nodes| && nodes[k].state == s && nodes[k].event == e
    ensures LastRoutine(nodes, s, e) == r
  {
    if nodes != [] {
      var last := |nodes| - 1;
      if !(nodes[last].state == s && nodes[last].event == e) {
        var rest := nodes[..last];
        if r.Some? {
          var k :| 0 <= k < |nodes| && nodes[k].state == s && nodes[k].event == e;
          assert rest[k].state == s && rest[k].event == e;
        }
        ListIsFunction(rest, s, e, r);
      }
    }
  }

  /** Position of a cell in the matrix. */
  function Cell(states: nat, s: nat, e: nat): int {
    states * e + s
  }

  /** Cells of the matrix do not overlap, and each lies within it. */
  lemma CellsDistinct(states: nat, events: nat, s: nat, e: nat, t: nat, f: nat)
    requires s < states && t < states && e < events && f < events
    ensures 0 <= Cell(states, s, e) < states * events
    ensures Cell(states, s, e) == Cell(states, t, f) <==> s == t && e == f
  {
    ProductGrows(e + 1, events, states);
    if e < f {
      ProductGrows(e + 1, f, states);
    } else if f < e {
      ProductGrows(f + 1, e, states);
    }
  }

  /** Every cell of the matrix holds what the list says. */
  ghost predicate Filled<R>(m: seq<Option<R>>, states: nat, events: nat, nodes: seq<Node<nat, nat, R>>) {
    && |m| == states * events
    && forall s: nat, e: nat | s < states && e < events ::
         0 <= Cell(states, s, e) < |m| && m[Cell(states, s, e)] == LastRoutine(nodes, s, e)
  }

  lemma EmptyFilled<R>(m: seq<Option<R>>, states: nat, events: nat)
    requires |m| == states * events && forall k | 0 <= k < |m| :: m[k] == None
    ensures Filled(m, states, events, [])
  {
    forall s: nat, e: nat | s < states && e < events
      ensures 0 <= Cell(states, s, e) < |m| && m[Cell(states, s, e)] == None
    {
      CellsDistinct(states, events, s, e, s, e);
    }
  }

  /** Writing one more node into its cell, or skipping one that lies outside. */
  lemma NodeFilled<R>(m: seq<Option<R>>, states: nat, events: nat, nodes: seq<Node<nat, nat, R>>,
                      n: Node<nat, nat, R>, next: seq<Option<R>>)
    requires Filled(m, states, events, nodes)
    requires n.state < states && n.event < events ==>
               0 <= Cell(states, n.state, n.event) < |m|
               && next == m[Cell(states, n.state, n.event) := Some(n.routine)]
    requires !(n.state < states && n.event < events) ==> next == m
    ensures Filled(next, states, events, nodes + [n])
  {
    assert (nodes + [n])[..|nodes|] == nodes;
    forall s: nat, e: nat | s < states && e < events
      ensures 0 <= Cell(states, s, e) < |next|
      ensures next[Cell(states, s, e)] == LastRoutine(nodes + [n], s, e)
    {
      if n.state < states && n.event < events {
        CellsDistinct(states, events, s, e, n.state, n.event);
      }
    }
  }

  class JumpTable<R(0)> {
    const stateCount: nat
    const eventCount: nat
    const jumpmatrix: array<Option<R>>
    ghost const nodes: seq<Node<nat, nat, R>>

    ghost predicate Valid()
      reads jumpmatrix
    {
      Filled(jumpmatrix[..], stateCount, eventCount, nodes)
    }

    constructor (states: nat, events: nat, nodes: seq<Node<nat, nat, R>>)
      ensures stateCount == states && eventCount == events && this.nodes == nodes
      ensures fresh(jumpmatrix) && Valid()
    {
      stateCount, eventCount, this.nodes := states, events, nodes;
      ProductGrows(0, events, states);
      jumpmatrix := new Option<R>[states * events](_ => None);
      new;
      EmptyFilled(jumpmatrix[..], states, events);
      assert nodes[..0] == [];
      for i := 0 to |nodes|
        invariant Filled(jumpmatrix[..], states, events, nodes[..i])
      {
        var n := nodes[i];
        ghost var before := jumpmatrix[..];
        if n.state < states && n.event < events {
          CellsDistinct(states, events, n.state, n.event, n.state, n.event);
          jumpmatrix[Cell(states, n.state, n.event)] := Some(n.routine);
        }
        NodeFilled(before, states, events, nodes[..i], n, jumpmatrix[..]);
        assert nodes[..i + 1] == nodes[..i] + [n];
      }
      assert nodes[..|nodes|] == nodes;
    }

    /** Which routine an event runs; none for a state or event outside the matrix. */
    method Dispatch(state: nat, event: nat) returns (r: Option<R>)
      requires Valid()
      ensures r == if state < stateCount && event < eventCount then LastRoutine(nodes, state, event) else None
    {
      if state >= stateCount || event >= eventCount {
        return None;
      }
      assert 0 <= Cell(stateCount, state, event) < |jumpmatrix[..]|;
      r := jumpmatrix[Cell(stateCount, state, event)];
    }
  }
}
