/**
 The flow relation: symmetric (positive state, negative state) edges, each one
 stored twice, once in the flow set of either endpoint, inside an automaton's
 state store.
 */
module Flow {
  import opened Polarities

  /** Opaque handle of a state within one automaton. */
  type StateId = nat

  /** A flow edge: values of state `pos` flow into state `neg`. */
  datatype Pair = Pair(neg: StateId, pos: StateId)

  /** The states of opposite polarity that a state flows to or from. */
  datatype FlowSet = FlowSet(ids: set<StateId>)
  {
    /**
     `iter`: a snapshot of the set, as the sequence of its elements in an
     arbitrary order, each listed once. Later changes to the set do not
     affect a snapshot already taken.
     */
    method Iter() returns (elems: seq<StateId>)
      ensures forall x :: x in elems <==> x in ids
      ensures forall i, j :: 0 <= i < j < |elems| ==> elems[i] != elems[j]
    {
      elems := [];
      var rest := ids;
      while rest != {}
        invariant rest <= ids
        invariant forall x :: x in elems <==> x in ids && x !in rest
        invariant forall i, j :: 0 <= i < j < |elems| ==> elems[i] != elems[j]
        decreases rest
      {
        var x :| x in rest;
        elems := elems + [x];
        rest := rest - {x};
      }
    }
  }

  /** The part of an automaton state that the flow relation uses. */
  datatype State = State(pol: Polarity, flow: FlowSet)

  type States = map<StateId, State>

  /** Every flow partner is a state of the store. */
  ghost predicate Closed(s: States) {
    forall a, b :: a in s && b in s[a].flow.ids ==> b in s
  }

  /** `b` is in the flow set of `a` exactly when `a` is in the flow set of `b`. */
  ghost predicate Symmetric(s: States) {
    forall a, b :: a in s && b in s ==> (b in s[a].flow.ids <==> a in s[b].flow.ids)
  }

  /** Flow partners have opposite polarities. */
  ghost predicate Partnered(s: States) {
    forall a, b :: a in s && b in s && b in s[a].flow.ids ==> s[b].pol == Negate(s[a].pol)
  }

  ghost predicate WellFormed(s: States) {
    Closed(s) && Symmetric(s) && Partnered(s)
  }

  /** Both endpoints of `pair` are states with the polarities their roles demand. */
  ghost predicate Polarized(s: States, pair: Pair) {
    pair.pos in s && pair.neg in s && s[pair.pos].pol == Pos && s[pair.neg].pol == Neg
  }

  /** The store after `add_flow(pair)`: each endpoint gains the other. */
  function Linked(s: States, pair: Pair): (r: States)
    requires pair.pos in s && pair.neg in s
    ensures r.Keys == s.Keys
    ensures forall id :: id in s ==> r[id].pol == s[id].pol
    ensures pair.neg in r[pair.pos].flow.ids && pair.pos in r[pair.neg].flow.ids
    ensures forall id :: id in s && id != pair.pos && id != pair.neg ==> r[id] == s[id]
  {
    var p := s[pair.pos];
    var s1 := s[pair.pos := p.(flow := FlowSet(p.flow.ids + {pair.neg}))];
    var n := s1[pair.neg];
    s1[pair.neg := n.(flow := FlowSet(n.flow.ids + {pair.pos}))]
  }

  /** The store after `remove_flow(pair)`: each endpoint loses the other. */
  function Unlinked(s: States, pair: Pair): (r: States)
    requires pair.pos in s && pair.neg in s
    ensures r.Keys == s.Keys
    ensures forall id :: id in s ==> r[id].pol == s[id].pol
    ensures pair.neg !in r[pair.pos].flow.ids && pair.pos !in r[pair.neg].flow.ids
    ensures forall id :: id in s && id != pair.pos && id != pair.neg ==> r[id] == s[id]
  {
    var p := s[pair.pos];
    var s1 := s[pair.pos := p.(flow := FlowSet(p.flow.ids - {pair.neg}))];
    var n := s1[pair.neg];
    s1[pair.neg := n.(flow := FlowSet(n.flow.ids - {pair.pos}))]
  }

  /** Adding a polarized edge keeps the store well formed. */
  lemma LinkedWellFormed(s: States, pair: Pair)
    requires WellFormed(s) && Polarized(s, pair)
    ensures WellFormed(Linked(s, pair))
  {
  }

  /** Removing an edge keeps the store well formed. */
  lemma UnlinkedWellFormed(s: States, pair: Pair)
    requires WellFormed(s) && Polarized(s, pair)
    ensures WellFormed(Unlinked(s, pair))
  {
  }

  /** A second `add_flow` of the same edge changes nothing. */
  lemma LinkedIdempotent(s: States, pair: Pair)
    requires Polarized(s, pair)
    ensures Linked(Linked(s, pair), pair) == Linked(s, pair)
  {
  }

  /** Removing an edge that was absent before it was added restores the store. */
  lemma UnlinkedUndoesLinked(s: States, pair: Pair)
    requires Symmetric(s) && Polarized(s, pair)
    requires pair.neg !in s[pair.pos].flow.ids
    ensures Unlinked(Linked(s, pair), pair) == s
  {
  }

  /**
   The store after state `target` has inherited the flow partners `partners`:
   `target` flows to or from each of them, and each of them to or from
   `target`.
   */
  function Absorbed(s: States, target: StateId, partners: set<StateId>): (r: States)
    requires target in s && partners <= s.Keys && target !in partners
    ensures r.Keys == s.Keys
    ensures forall id :: id in s ==> r[id].pol == s[id].pol && s[id].flow.ids <= r[id].flow.ids
    ensures partners <= r[target].flow.ids
    ensures forall id :: id in partners ==> target in r[id].flow.ids
  {
    map id | id in s ::
      if id == target then s[id].(flow := FlowSet(s[id].flow.ids + partners))
      else if id in partners then s[id].(flow := FlowSet(s[id].flow.ids + {target}))
      else s[id]
  }

  /** Absorbing no partners changes nothing. */
  lemma AbsorbedNone(s: States, target: StateId)
    requires target in s
    ensures Absorbed(s, target, {}) == s
  {
    var r := Absorbed(s, target, {});
    assert r[target].flow.ids == s[target].flow.ids;
    assert r[target] == s[target];
  }

  /** Adding the edge between `target` and one more partner `n` extends an absorption by `n`. */
  lemma LinkedExtendsAbsorbed(s: States, target: StateId, partners: set<StateId>, n: StateId, pair: Pair)
    requires target in s && n in s && partners <= s.Keys && target !in partners && n != target
    requires (pair.pos == target && pair.neg == n) || (pair.pos == n && pair.neg == target)
    ensures Linked(Absorbed(s, target, partners), pair) == Absorbed(s, target, partners + {n})
  {
    var a := Absorbed(s, target, partners);
    var l := Linked(a, pair);
    var b := Absorbed(s, target, partners + {n});
    assert l[target].flow.ids == b[target].flow.ids;
    assert l[n].flow.ids == b[n].flow.ids;
    forall id | id in s ensures l[id] == b[id] {
      if id != target && id != n {
        assert l[id] == a[id];
      }
    }
  }

  /**
   Absorbing a state's own flow partners into it changes nothing: this is the
   case `merge_flow_pos(p, p)`.
   */
  lemma AbsorbedOwnPartners(s: States, target: StateId)
    requires WellFormed(s) && target in s
    ensures Absorbed(s, target, s[target].flow.ids) == s
  {
    var r := Absorbed(s, target, s[target].flow.ids);
    forall id | id in s ensures r[id] == s[id] {
      if id == target {
        assert r[id].flow.ids == s[id].flow.ids;
      } else if id in s[target].flow.ids {
        assert target in s[id].flow.ids;
        assert r[id].flow.ids == s[id].flow.ids;
      }
    }
  }

  /** Absorbing partners of the opposite polarity keeps the store well formed. */
  lemma AbsorbedWellFormed(s: States, target: StateId, partners: set<StateId>)
    requires WellFormed(s) && target in s && partners <= s.Keys && target !in partners
    requires forall id :: id in partners ==> s[id].pol == Negate(s[target].pol)
    ensures WellFormed(Absorbed(s, target, partners))
  {
  }

  /** A flow partner of `source` is a state of the opposite polarity. */
  lemma PartnerPolarized(s: States, source: StateId, partner: StateId)
    requires WellFormed(s) && source in s && partner in s[source].flow.ids
    ensures partner in s && partner != source && s[partner].pol == Negate(s[source].pol)
  {
  }

  /** The state store of an automaton, as far as the flow relation needs it. */
  class Automaton {
    var states: States

    ghost predicate Valid()
      reads this
    {
      WellFormed(states)
    }

    /**
     `index`: the state with the given id, which must exist. In a well-formed
     store each of its partners exists, has the opposite polarity and holds
     it in turn.
     */
    function Index(id: StateId): (s: State)
      reads this
      requires id in states
      ensures s == states[id]
      ensures Valid() ==> forall x :: x in s.flow.ids ==>
                x in states && states[x].pol == Negate(s.pol) && id in states[x].flow.ids
    {
      states[id]
    }

    /**
     Record that `pair.pos` flows into `pair.neg`. The last requires is the
     agreement of the two lookups that the symmetry invariant guarantees.
     */
    method AddFlow(pair: Pair)
      requires Polarized(states, pair)
      requires (pair.neg in states[pair.pos].flow.ids) == (pair.pos in states[pair.neg].flow.ids)
      modifies this
      ensures states == Linked(old(states), pair)
      ensures old(Valid()) ==> Valid()
    {
      var p := Index(pair.pos);
      var hadP := pair.neg in p.flow.ids;
      states := states[pair.pos := p.(flow := FlowSet(p.flow.ids + {pair.neg}))];
      var n := Index(pair.neg);
      var hadN := pair.pos in n.flow.ids;
      states := states[pair.neg := n.(flow := FlowSet(n.flow.ids + {pair.pos}))];
      assert hadP == hadN;
      if old(Valid()) {
        LinkedWellFormed(old(states), pair);
      }
    }

    /** Forget the edge between `pair.pos` and `pair.neg`, in both directions. */
    method RemoveFlow(pair: Pair)
      requires Polarized(states, pair)
      requires (pair.neg in states[pair.pos].flow.ids) == (pair.pos in states[pair.neg].flow.ids)
      modifies this
      ensures states == Unlinked(old(states), pair)
      ensures old(Valid()) ==> Valid()
    {
      var p := Index(pair.pos);
      var hadP := pair.neg in p.flow.ids;
      states := states[pair.pos := p.(flow := FlowSet(p.flow.ids - {pair.neg}))];
      var n := Index(pair.neg);
      var hadN := pair.pos in n.flow.ids;
      states := states[pair.neg := n.(flow := FlowSet(n.flow.ids - {pair.pos}))];
      assert hadP == hadN;
      if old(Valid()) {
        UnlinkedWellFormed(old(states), pair);
      }
    }

    /** The positive state `pos` inherits every flow edge of the positive state `source`. */
    method MergeFlowPos(pos: StateId, source: StateId)
      requires Valid()
      requires pos in states && source in states
      requires states[pos].pol == Pos && states[source].pol == Pos
      modifies this
      ensures Valid()
      ensures states == Absorbed(old(states), pos, old(states)[source].flow.ids)
    {
      ghost var s0 := states;
      var snapshot := Index(source).flow.Iter();
      ghost var done: set<StateId> := {};
      AbsorbedNone(s0, pos);
      for i := 0 to |snapshot|
        invariant done <= s0[source].flow.ids
        invariant forall j :: 0 <= j < i ==> snapshot[j] in done
        invariant forall j :: i <= j < |snapshot| ==> snapshot[j] !in done
        invariant states == Absorbed(s0, pos, done)
        invariant Valid()
      {
        var neg := snapshot[i];
        PartnerPolarized(s0, source, neg);
        AddFlow(Pair(neg, pos));
        LinkedExtendsAbsorbed(s0, pos, done, neg, Pair(neg, pos));
        done := done + {neg};
      }
      assert done == s0[source].flow.ids by {
        forall x | x in s0[source].flow.ids ensures x in done {
          var j :| 0 <= j < |snapshot| && snapshot[j] == x;
        }
      }
    }

    /** The negative state `neg` inherits every flow edge of the negative state `source`. */
    method MergeFlowNeg(neg: StateId, source: StateId)
      requires Valid()
      requires neg in states && source in states
      requires states[neg].pol == Neg && states[source].pol == Neg
      modifies this
      ensures Valid()
      ensures states == Absorbed(old(states), neg, old(states)[source].flow.ids)
    {
      ghost var s0 := states;
      var snapshot := Index(source).flow.Iter();
      ghost var done: set<StateId> := {};
      AbsorbedNone(s0, neg);
      for i := 0 to |snapshot|
        invariant done <= s0[source].flow.ids
        invariant forall j :: 0 <= j < i ==> snapshot[j] in done
        invariant forall j :: i <= j < |snapshot| ==> snapshot[j] !in done
        invariant states == Absorbed(s0, neg, done)
        invariant Valid()
      {
        var pos := snapshot[i];
        PartnerPolarized(s0, source, pos);
        AddFlow(Pair(neg, pos));
        LinkedExtendsAbsorbed(s0, neg, done, pos, Pair(neg, pos));
        done := done + {pos};
      }
      assert done == s0[source].flow.ids by {
        forall x | x in s0[source].flow.ids ensures x in done {
          var j :| 0 <= j < |snapshot| && snapshot[j] == x;
        }
      }
    }
  }
}
