# mlsub-rs core in Dafny

A model of three pieces of a biunification-based subtyping engine, in which
types are a graph of polarized automaton states joined by flow edges:

- **Polarity algebra** (`polarity.dfy`, module `Polarities`): the sign
  `Neg = -1` / `Pos = 1` with negation and multiplication, as pure functions,
  and their algebraic laws.
- **Constructor lattice set** (`cons.dfy`, module `Cons`): the class
  `ConstructorSet` holds a map from a constructor's structural key to the one
  constructor stored under it. `AddPos`/`AddNeg` insert a constructor or
  join/meet it into the entry with the same key, in place; `Join`/`Meet` fold
  every entry of another set in. The host's `Constructor` trait is a value of
  the datatype `Lattice` holding three uninterpreted total functions (`key`,
  `join`, `meet`). `a.join(b)` is modelled as `join(a, b)` replacing `a`.
  The only host law assumed, and only where a contract says so
  (`Lattice.Lawful`), is that join and meet of two same-key constructors keep
  that key.
- **Flow relation** (`flow.dfy`, module `Flow`): the class `Automaton` holds a
  state store `map<StateId, State>`, where a `State` carries its polarity and
  its `FlowSet`. `AddFlow`/`RemoveFlow` make two sequential updates, one per
  endpoint. `MergeFlowPos`/`MergeFlowNeg` take a snapshot of the source's flow
  set and loop over it, calling `AddFlow` on each element. The well-formedness
  invariant `WellFormed` has three parts: `Closed` (partners exist),
  `Symmetric` (`n ∈ flow(p) ⇔ p ∈ flow(n)`) and `Partnered` (partners have
  opposite polarities).

Each state-changing method is stated against a pure function of the old
state. For `AddPos` and `AddNeg` this is `Insert`. For `Join` and `Meet` it
is `FoldKeys` over the visit order, which the method returns as a ghost
result. For `AddFlow`, `RemoveFlow` and the merges it is `Linked`, `Unlinked`
and `Absorbed`. The lemmas about those functions prove the promised
properties.

Modelling decisions:

- Debug assertions (`debug_assert_eq!`) are preconditions. `AddFlow` and
  `RemoveFlow` require the polarities of the pair (`Polarized`). They also
  require the two membership lookups to agree, because the source asserts
  `had_p == had_n`. The merges assert only the polarities of the target and
  the source. Their loops call `add_flow`, so they need more: each partner of
  the source must exist, have the opposite polarity, and agree with the
  target on membership. The model gets this from an added store invariant.
  The merges require the whole automaton to be well formed (`WellFormed`).
  That is enough for every `AddFlow` call in their loops, as
  `PartnerPolarized` shows, but it asks for more than the loops need.
- `index`/`index_mut` require the id to be present in the store.
- `add_flow` returns nothing, and neither does `AddFlow`.
- Hash-map iteration order is arbitrary. It is modelled by picking the next
  key with `:|`, so the contracts hold for every order.
- `Join`/`Meet` require `other != this`, because Rust's `&mut self` and
  `&Self` cannot alias. They also require `other.host == host`, because both
  sets have the same constructor type.

## Model

| member | source | states |
|---|---|---|
| `Polarities.Discriminant` | src/lib.rs:16-19 | The discriminant of a polarity is -1 or 1. |
| `Polarities.Negate` | src/lib.rs:21-29 | Negation always changes the polarity and negates its discriminant. |
| `Polarities.Mul` | src/lib.rs:32-40 | The discriminant of a product is the product of the discriminants. A product is `Pos` exactly when both factors are equal. |
| `Polarities.DiscriminantInjective` | src/lib.rs:16-19 | Two polarities are equal exactly when their discriminants are. |
| `Polarities.NegateInvolution` | src/lib.rs:24-29 | `-(-p) == p`. |
| `Polarities.PosLeftIdentity` | src/lib.rs:38 | `Pos * q == q`. |
| `Polarities.NegLeftNegates` | src/lib.rs:37 | `Neg * q == -q`. |
| `Polarities.MulSelf` | src/lib.rs:35-40 | `p * p == Pos`. |
| `Polarities.MulCommutative` | src/lib.rs:35-40 | `p * q == q * p`. |
| `Polarities.MulAssociative` | src/lib.rs:35-40 | `(p * q) * r == p * (q * r)`. |
| `Polarities.NegateMul` | src/lib.rs:35-40 | `-(p * q) == (-p) * q == p * (-q)`. |
| `Cons.Insert` | src/cons.rs:22-38 | The entry update of `add_pos`/`add_neg`. The keys afterwards are the old keys plus `key(con)`, and every other entry is unchanged. A present entry becomes `combine(old, con)`; an absent one becomes `con`. |
| `Cons.InsertKeepsKeyed` | src/cons.rs:18-38 | If every entry is stored under its own key and the host keeps keys, the entry update preserves that. |
| `Cons.FoldKeys` | src/cons.rs:42-44 | The loop of bulk `join`/`meet` as a left fold of the entry update over the visited keys. Every visited key must be a key of `other`. No key of `self` is lost, and the key of each visited constructor is present afterwards. |
| `Cons.FoldKeysShape` | src/cons.rs:40-52 | For any host, folding entries in never removes a key. The keys afterwards are the old keys plus the keys of the folded constructors. An old entry that no folded constructor's key hits is unchanged. |
| `Cons.FoldKeysMerge` | src/cons.rs:40-52 | For any host, suppose `other`'s entries sit under their own keys and the visited keys are distinct. Then folding merges exactly the visited entries key by key. |
| `Cons.FoldAllMerge` | src/cons.rs:40-52 | Suppose `other`'s entries sit under their own keys and each key of `other` is visited once. Then, for any host, the keys become the union. Keys only in `self` keep their entry. Keys only in `other` get `other`'s constructor. Shared keys are combined. |
| `Cons.FoldKeysKeyed` | src/cons.rs:18-52 | If `self`'s entries sit under their own keys and the host keeps keys, folding any visited entries keeps that invariant. |
| `Cons.FoldOrderIndependent` | src/cons.rs:42-44 | When `other`'s entries sit under their own keys, two visit orders of `other` give the same result, for any host. |
| `Cons.ConstructorSet.constructor` | src/cons.rs:55-60 | The default set is empty, so each entry trivially sits under its own key. |
| `Cons.ConstructorSet.AddPos` | src/cons.rs:22-29 | The new map is `Insert` with join applied to the old map, and the key invariant is preserved under a lawful host. |
| `Cons.ConstructorSet.AddNeg` | src/cons.rs:31-38 | The new map is `Insert` with meet applied to the old map, and the key invariant is preserved under a lawful host. |
| `Cons.ConstructorSet.Join` | src/cons.rs:40-45 | Every key of `other` is visited once, and the result is the fold of `AddPos` in that order. Keys only grow by the folded constructors' keys, and untouched entries are unchanged. When `other`'s entries sit under their own keys, the keys are the union and the result is the key-wise join, for any host. A key-preserving host keeps `self`'s entries under their own keys. |
| `Cons.ConstructorSet.Meet` | src/cons.rs:47-52 | The same as `Join`, using `AddNeg` and the host meet. |
| `Cons.ConstructorSet.Values` | src/cons.rs:63-70 | Iteration yields one stored constructor per entry, following an order that lists every key once. Under the key invariant, no constructor appears twice. |
| `Flow.FlowSet.Iter` | src/flow.rs:17-21 | The snapshot lists exactly the elements of the set, each once. |
| `Flow.Linked` | src/flow.rs:30-31 | After adding an edge, both directions are present. Ids and polarities are unchanged, and every state other than the two endpoints is unchanged. |
| `Flow.Unlinked` | src/flow.rs:41-52 | After removing an edge, neither direction is present. Ids and polarities are unchanged, and every state other than the two endpoints is unchanged. |
| `Flow.LinkedWellFormed` | src/flow.rs:24-33 | Adding a correctly polarized edge preserves the closed, symmetric and opposite-polarity invariants. |
| `Flow.UnlinkedWellFormed` | src/flow.rs:35-54 | Removing an edge preserves the closed, symmetric and opposite-polarity invariants. |
| `Flow.LinkedIdempotent` | src/flow.rs:30-31 | A second `add_flow` of the same pair leaves the store unchanged. |
| `Flow.UnlinkedUndoesLinked` | src/flow.rs:41-52 | If an edge was absent, removing it after adding it restores the store exactly. |
| `Flow.Absorbed` | src/flow.rs:56-76 | After a merge, no flow edge is lost and polarities are unchanged. The target's flow set contains all the inherited partners, and each partner contains the target. |
| `Flow.LinkedExtendsAbsorbed` | src/flow.rs:62-64 | One more `add_flow` inside the merge loop extends the absorbed partner set by that one element. |
| `Flow.AbsorbedOwnPartners` | src/flow.rs:62-64 | In a well-formed store, merging a state with itself changes nothing, because the loop walks a snapshot. |
| `Flow.AbsorbedWellFormed` | src/flow.rs:56-76 | Inheriting partners of the opposite polarity keeps the store well formed. |
| `Flow.PartnerPolarized` | src/flow.rs:62-63 | In a well-formed store, every flow partner of `source` exists, differs from it and has the opposite polarity. This is why each loop step meets `add_flow`'s requirements. |
| `Flow.Automaton.Index` | src/flow.rs:26-28 | `index` requires the id to be present and returns the stored state. In a well-formed store, each of its partners exists, has the opposite polarity and holds it in turn. |
| `Flow.Automaton.AddFlow` | src/flow.rs:24-33 | The new store is `Linked(old, pair)`, and well-formedness is preserved. |
| `Flow.Automaton.RemoveFlow` | src/flow.rs:35-54 | The new store is `Unlinked(old, pair)`, and well-formedness is preserved. |
| `Flow.Automaton.MergeFlowPos` | src/flow.rs:56-65 | `pos` inherits exactly the old partners of `source`: the new store is `Absorbed(old, pos, old flow(source))`, and it stays well formed. |
| `Flow.Automaton.MergeFlowNeg` | src/flow.rs:67-76 | `neg` inherits exactly the old partners of `source`: the new store is `Absorbed(old, neg, old flow(source))`, and it stays well formed. |

## Left out

- The biunification driver (`mod biunify`) and the transition relation (`trans::Symbol`) are not part of this model.
- Of `src/auto.rs`, which is not part of this model, only a minimal state store is modelled: ids mapped to polarity and flow set. Constructor sets and transitions on states, and state creation, are not modelled.
- The SeaHasher and `reserve` calls only affect performance.
- The `Cow` borrowed/owned distinction is a Rust ownership detail; a constructor is passed as a value.
- `im::HashSet` structural sharing and the cost of `clone` are not modelled. A flow set is a mathematical set, and `iter` returns a snapshot sequence.
- Panics from failing debug assertions are not modelled; callers must meet the preconditions that replace them.
- The `PartialOrd` bound on `Constructor` is unused by the code and is not modelled.
- Lattice laws of the host `join`/`meet` are not modelled: associativity, commutativity and idempotence. Commutativity of merging two same-key constructors into an empty set, and idempotence of repeating `add_pos`, therefore depend on the host and are not proved.
- The `TypeSystem` trait is replaced by type parameters: the key type `K` and the constructor type `C`.
