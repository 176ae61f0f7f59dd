/**
 The constructor lattice: a per-state map from a constructor's structural key
 to the one constructor stored under that key. Positive facts are merged in
 with the host's lattice join, negative facts with its meet.
 */
module Cons {

  /**
   The host's `Constructor` capability: the structural key of a constructor,
   and the join and meet that update a stored constructor with another one
   (`a.join(b)` leaves `join(a, b)` in `a`). The engine keeps them
   uninterpreted.
   */
  datatype Lattice<K, !C(!new)> = Lattice(key: C -> K, join: (C, C) -> C, meet: (C, C) -> C)
  {
    /** Host join and meet of two same-key constructors keep that key. */
    ghost predicate Lawful() {
      KeepsKey(key, join) && KeepsKey(key, meet)
    }
  }

  ghost predicate KeepsKey<K, C(!new)>(key: C -> K, combine: (C, C) -> C) {
    forall a, b :: key(a) == key(b) ==> key(combine(a, b)) == key(a)
  }

  /** Every entry is stored under its own key. */
  ghost predicate Keyed<K, C>(m: map<K, C>, key: C -> K) {
    forall k :: k in m ==> key(m[k]) == k
  }

  /** `ks` lists every key of `keys` exactly once. */
  ghost predicate IsEnumeration<K>(ks: seq<K>, keys: set<K>) {
    && (forall i :: 0 <= i < |ks| ==> ks[i] in keys)
    && (forall k :: k in keys ==> k in ks)
    && (forall i, j :: 0 <= i < j < |ks| ==> ks[i] != ks[j])
  }

  /**
   `r` holds the key-wise merge of `m` and `o`: every key of either, entries of
   one side only kept as they are, shared keys combined.
   */
  ghost predicate IsMerge<K, C>(r: map<K, C>, m: map<K, C>, o: map<K, C>, combine: (C, C) -> C) {
    && r.Keys == m.Keys + o.Keys
    && (forall k :: k in m && k !in o ==> r[k] == m[k])
    && (forall k :: k in o && k !in m ==> r[k] == o[k])
    && (forall k :: k in m && k in o ==> r[k] == combine(m[k], o[k]))
  }

  /**
   The entry update of `add_pos` (combine = join) and `add_neg`
   (combine = meet): the entry under `key(con)` is combined with `con` when
   present and set to `con` otherwise; nothing else changes.
   */
  function Insert<K, C>(m: map<K, C>, key: C -> K, combine: (C, C) -> C, con: C): (r: map<K, C>)
    ensures r.Keys == m.Keys + {key(con)}
    ensures forall k :: k in m && k != key(con) ==> r[k] == m[k]
    ensures key(con) in m ==> r[key(con)] == combine(m[key(con)], con)
    ensures key(con) !in m ==> r[key(con)] == con
  {
    var k := key(con);
    if k in m then m[k := combine(m[k], con)] else m[k := con]
  }

  /** The entry update keeps every entry under its own key. */
  lemma InsertKeepsKeyed<K, C(!new)>(m: map<K, C>, key: C -> K, combine: (C, C) -> C, con: C)
    requires Keyed(m, key) && KeepsKey(key, combine)
    ensures Keyed(Insert(m, key, combine, con), key)
  {
  }

  /**
   The entries of `o` listed by `ks`, folded into `m` in that order: the loop
   of bulk `join`/`meet`. No key of `m` is lost and the key of every folded
   constructor is present afterwards.
   */
  function FoldKeys<K, C>(m: map<K, C>, o: map<K, C>, ks: seq<K>, key: C -> K, combine: (C, C) -> C): (r: map<K, C>)
    requires forall i :: 0 <= i < |ks| ==> ks[i] in o
    ensures m.Keys <= r.Keys
    ensures forall i :: 0 <= i < |ks| ==> key(o[ks[i]]) in r
    decreases |ks|
  {
    if ks == [] then m
    else Insert(FoldKeys(m, o, ks[..|ks| - 1], key, combine), key, combine, o[ks[|ks| - 1]])
  }

  /** The keys of the constructors that `ks` picks out of `o`. */
  ghost function KeyImage<K, C>(o: map<K, C>, ks: seq<K>, key: C -> K): set<K>
    requires forall i :: 0 <= i < |ks| ==> ks[i] in o
  {
    set i | 0 <= i < |ks| :: key(o[ks[i]])
  }

  /** The entries of `o` whose keys `ks` lists. */
  ghost function Restrict<K, C>(o: map<K, C>, ks: seq<K>): map<K, C> {
    map k | k in o && k in ks :: o[k]
  }

  /**
   Whatever the host does, folding never removes a key: the keys afterwards
   are the old ones plus the keys of the folded constructors, and an old entry
   whose key no folded constructor has is untouched.
   */
  lemma {:induction false} FoldKeysShape<K, C>(m: map<K, C>, o: map<K, C>, ks: seq<K>, key: C -> K, combine: (C, C) -> C)
    requires forall i :: 0 <= i < |ks| ==> ks[i] in o
    ensures FoldKeys(m, o, ks, key, combine).Keys == m.Keys + KeyImage(o, ks, key)
    ensures forall k :: k in m && k !in KeyImage(o, ks, key) ==> FoldKeys(m, o, ks, key, combine)[k] == m[k]
    decreases |ks|
  {
    if ks != [] {
      var init := ks[..|ks| - 1];
      FoldKeysShape(m, o, init, key, combine);
      var last := key(o[ks[|ks| - 1]]);
      assert KeyImage(o, ks, key) == KeyImage(o, init, key) + {last} by {
        forall x | x in KeyImage(o, ks, key) ensures x in KeyImage(o, init, key) + {last} {
          var i :| 0 <= i < |ks| && x == key(o[ks[i]]);
          if i < |ks| - 1 { assert init[i] == ks[i]; }
        }
        forall x | x in KeyImage(o, init, key) ensures x in KeyImage(o, ks, key) {
          var i :| 0 <= i < |init| && x == key(o[init[i]]);
          assert ks[i] == init[i];
        }
      }
    }
  }

  /**
   For any host, folding distinct keys of a map whose entries sit under their
   own keys merges exactly those entries key by key.
   */
  lemma {:induction false} FoldKeysMerge<K, C>(m: map<K, C>, o: map<K, C>, ks: seq<K>, key: C -> K, combine: (C, C) -> C)
    requires Keyed(o, key)
    requires forall i :: 0 <= i < |ks| ==> ks[i] in o
    requires forall i, j :: 0 <= i < j < |ks| ==> ks[i] != ks[j]
    ensures IsMerge(FoldKeys(m, o, ks, key, combine), m, Restrict(o, ks), combine)
    decreases |ks|
  {
    if ks != [] {
      var init := ks[..|ks| - 1];
      var k := ks[|ks| - 1];
      FoldKeysMerge(m, o, init, key, combine);
      assert k !in init by {
        forall i | 0 <= i < |init| ensures init[i] != k { assert init[i] == ks[i]; }
      }
      assert Restrict(o, ks) == Restrict(o, init)[k := o[k]] by {
        forall x | x in o ensures x in ks <==> x in init || x == k {
          if x in ks {
            var i :| 0 <= i < |ks| && ks[i] == x;
            if i < |ks| - 1 { assert init[i] == x; }
          }
        }
      }
    }
  }

  /** Folding with a key-preserving host keeps every entry under its own key. */
  lemma {:induction false} FoldKeysKeyed<K, C(!new)>(m: map<K, C>, o: map<K, C>, ks: seq<K>, key: C -> K, combine: (C, C) -> C)
    requires Keyed(m, key) && KeepsKey(key, combine)
    requires forall i :: 0 <= i < |ks| ==> ks[i] in o
    ensures Keyed(FoldKeys(m, o, ks, key, combine), key)
    decreases |ks|
  {
    if ks != [] {
      var init := ks[..|ks| - 1];
      FoldKeysKeyed(m, o, init, key, combine);
      InsertKeepsKeyed(FoldKeys(m, o, init, key, combine), key, combine, o[ks[|ks| - 1]]);
    }
  }

  /** Enumerating all of `o` merges the whole of `o`, whatever the host does. */
  lemma FoldAllMerge<K, C>(m: map<K, C>, o: map<K, C>, ks: seq<K>, key: C -> K, combine: (C, C) -> C)
    requires Keyed(o, key)
    requires IsEnumeration(ks, o.Keys)
    ensures IsMerge(FoldKeys(m, o, ks, key, combine), m, o, combine)
  {
    FoldKeysMerge(m, o, ks, key, combine);
    assert Restrict(o, ks) == o;
  }

  /** The merge of two maps is determined by them. */
  lemma MergeUnique<K, C>(r1: map<K, C>, r2: map<K, C>, m: map<K, C>, o: map<K, C>, combine: (C, C) -> C)
    requires IsMerge(r1, m, o, combine) && IsMerge(r2, m, o, combine)
    ensures r1 == r2
  {
  }

  /**
   When the entries of `o` sit under their own keys, the result of folding all
   of `o` into `m` does not depend on the order in which they are visited.
   */
  lemma FoldOrderIndependent<K, C>(m: map<K, C>, o: map<K, C>, ks1: seq<K>, ks2: seq<K>, key: C -> K, combine: (C, C) -> C)
    requires Keyed(o, key)
    requires IsEnumeration(ks1, o.Keys) && IsEnumeration(ks2, o.Keys)
    ensures FoldKeys(m, o, ks1, key, combine) == FoldKeys(m, o, ks2, key, combine)
  {
    FoldAllMerge(m, o, ks1, key, combine);
    FoldAllMerge(m, o, ks2, key, combine);
    MergeUnique(FoldKeys(m, o, ks1, key, combine), FoldKeys(m, o, ks2, key, combine), m, o, combine);
  }

  /** A state's constructor set: at most one constructor per key. */
  class ConstructorSet<K(==), C(!new)> {
    const host: Lattice<K, C>
    var entries: map<K, C>

    /** Every entry is stored under its own key. */
    ghost predicate Valid()
      reads this
    {
      Keyed(entries, host.key)
    }

    /** `Default`: the empty set. */
    constructor (host: Lattice<K, C>)
      ensures this.host == host && entries == map[]
      ensures Valid()
    {
      this.host := host;
      entries := map[];
    }

    /** Insert `con` or join it into the entry with the same key. */
    method AddPos(con: C)
      modifies this
      ensures entries == Insert(old(entries), host.key, host.join, con)
      ensures old(Valid()) && host.Lawful() ==> Valid()
    {
      var k := host.key(con);
      if k in entries {
        entries := entries[k := host.join(entries[k], con)];
      } else {
        entries := entries[k := con];
      }
      if old(Valid()) && host.Lawful() {
        InsertKeepsKeyed(old(entries), host.key, host.join, con);
      }
    }

    /** Insert `con` or meet it into the entry with the same key. */
    method AddNeg(con: C)
      modifies this
      ensures entries == Insert(old(entries), host.key, host.meet, con)
      ensures old(Valid()) && host.Lawful() ==> Valid()
    {
      var k := host.key(con);
      if k in entries {
        entries := entries[k := host.meet(entries[k], con)];
      } else {
        entries := entries[k := con];
      }
      if old(Valid()) && host.Lawful() {
        InsertKeepsKeyed(old(entries), host.key, host.meet, con);
      }
    }

    /**
     Fold every entry of `other` in with `AddPos`, in an arbitrary order that
     visits each entry once; `order` records that order.
     */
    method Join(other: ConstructorSet<K, C>) returns (ghost order: seq<K>)
      requires other != this && other.host == host
      modifies this
      ensures IsEnumeration(order, other.entries.Keys)
      ensures entries == FoldKeys(old(entries), other.entries, order, host.key, host.join)
      ensures entries.Keys == old(entries).Keys + KeyImage(other.entries, order, host.key)
      ensures forall k :: k in old(entries) && k !in KeyImage(other.entries, order, host.key) ==> entries[k] == old(entries)[k]
      ensures other.Valid() ==>
                entries.Keys == old(entries).Keys + other.entries.Keys && IsMerge(entries, old(entries), other.entries, host.join)
      ensures old(Valid()) && host.Lawful() ==> Valid()
    {
      order := [];
      var todo := other.entries.Keys;
      while todo != {}
        invariant todo <= other.entries.Keys
        invariant forall i :: 0 <= i < |order| ==> order[i] in other.entries && order[i] !in todo
        invariant forall k :: k in other.entries && k !in todo ==> k in order
        invariant forall i, j :: 0 <= i < j < |order| ==> order[i] != order[j]
        invariant entries == FoldKeys(old(entries), other.entries, order, host.key, host.join)
        decreases todo
      {
        var k :| k in todo;
        AddPos(other.entries[k]);
        assert (order + [k])[..|order|] == order;
        order := order + [k];
        todo := todo - {k};
      }
      FoldKeysShape(old(entries), other.entries, order, host.key, host.join);
      if other.Valid() {
        FoldAllMerge(old(entries), other.entries, order, host.key, host.join);
      }
      if old(Valid()) && host.Lawful() {
        FoldKeysKeyed(old(entries), other.entries, order, host.key, host.join);
      }
    }

    /**
     Fold every entry of `other` in with `AddNeg`, in an arbitrary order that
     visits each entry once; `order` records that order.
     */
    method Meet(other: ConstructorSet<K, C>) returns (ghost order: seq<K>)
      requires other != this && other.host == host
      modifies this
      ensures IsEnumeration(order, other.entries.Keys)
      ensures entries == FoldKeys(old(entries), other.entries, order, host.key, host.meet)
      ensures entries.Keys == old(entries).Keys + KeyImage(other.entries, order, host.key)
      ensures forall k :: k in old(entries) && k !in KeyImage(other.entries, order, host.key) ==> entries[k] == old(entries)[k]
      ensures other.Valid() ==>
                entries.Keys == old(entries).Keys + other.entries.Keys && IsMerge(entries, old(entries), other.entries, host.meet)
      ensures old(Valid()) && host.Lawful() ==> Valid()
    {
      order := [];
      var todo := other.entries.Keys;
      while todo != {}
        invariant todo <= other.entries.Keys
        invariant forall i :: 0 <= i < |order| ==> order[i] in other.entries && order[i] !in todo
        invariant forall k :: k in other.entries && k !in todo ==> k in order
        invariant forall i, j :: 0 <= i < j < |order| ==> order[i] != order[j]
        invariant entries == FoldKeys(old(entries), other.entries, order, host.key, host.meet)
        decreases todo
      {
        var k :| k in todo;
        AddNeg(other.entries[k]);
        assert (order + [k])[..|order|] == order;
        order := order + [k];
        todo := todo - {k};
      }
      FoldKeysShape(old(entries), other.entries, order, host.key, host.meet);
      if other.Valid() {
        FoldAllMerge(old(entries), other.entries, order, host.key, host.meet);
      }
      if old(Valid()) && host.Lawful() {
        FoldKeysKeyed(old(entries), other.entries, order, host.key, host.meet);
      }
    }

    /**
     Iteration over the stored constructors: one element per entry, in an
     arbitrary order `ks` of the keys; under `Valid()` no constructor is
     listed twice.
     */
    method Values() returns (vs: seq<C>, ghost ks: seq<K>)
      ensures IsEnumeration(ks, entries.Keys)
      ensures |vs| == |ks| == |entries|
      ensures forall i :: 0 <= i < |vs| ==> vs[i] == entries[ks[i]]
      ensures Valid() ==> forall i, j :: 0 <= i < j < |vs| ==> vs[i] != vs[j]
    {
      vs, ks := [], [];
      ghost var done: set<K> := {};
      var todo := entries.Keys;
      while todo != {}
        invariant todo <= entries.Keys && done == entries.Keys - todo
        invariant |vs| == |ks| == |done|
        invariant forall i :: 0 <= i < |ks| ==> ks[i] in done && vs[i] == entries[ks[i]]
        invariant forall k :: k in done ==> k in ks
        invariant forall i, j :: 0 <= i < j < |ks| ==> ks[i] != ks[j]
        decreases todo
      {
        var k :| k in todo;
        vs := vs + [entries[k]];
        ks := ks + [k];
        done := done + {k};
        todo := todo - {k};
      }
      assert done == entries.Keys;
    }
  }
}
