# bimap storage core in Dafny

This project models the storage layer of the `bimap-rs` crate. A bidirectional
map keeps each key and each value in one heap allocation, shared by two
backend maps: one keyed on keys and one keyed on values. Each backend holds
one *half* (`Semi`) of each allocation. Two files make up the model.

- `mem.dfy` (module `Mem`) models `src/mem.rs`.
  - `Wrapped` is the transparent marker type and `Wrap` gives the wrapped
    view of a value.
  - A `Semi` half points to an `Allocation`. The payload of an allocation
    is fixed. A ghost flag records whether the allocation is still live.
  - `Share` makes one allocation and hands out two halves of it. `Deref`
    reads the payload.
  - `Reunite` frees the allocation when both halves point to it. When they
    point to different allocations it fails, even if the payloads are equal.
  - Comparisons on halves and on wrapped values delegate to the payload's
    own comparisons. These comparisons are passed in as function parameters.
  - The `Borrow<Wrapped<Q>>` adapter lets a map keyed on halves be probed
    with a borrowed form of the key.
- `btree.dfy` (module `BTree`) models `src/maps/btree.rs`, the ordered-tree
  backend, with `int` keys.
  - `InnerBTreeMap` is a class. Its field `entries` maps each key payload to
    the stored (key half, value half) pair.
  - Its operations are `new`, `contains`, `get`, `insert`, `len`,
    `is_empty` and `remove`. They follow the documented behaviour of the
    standard `BTreeMap`.
  - On a key that is already present, the standard `insert` keeps the
    stored key and replaces only the value. The halves this discards are
    recorded in ghost sequences.
  - `IterOwned` is the owned, double-ended iterator. It yields the entries
    in ascending key order from the front and in descending key order from
    the back. Its size hint is exact. Once it
    is exhausted, every further call returns `None` and changes nothing.
  - `Replay` runs any sequence of inserts and removals over the entry map.
    Lemmas about `Replay` prove two things. A lookup finds the latest
    insert of a key unless a removal came after it. The keys present are
    exactly the keys whose latest call was an insert, together with the
    starting keys that no call touched.
  - A worked scenario shows the leak on a duplicate insert. The displaced
    value half is never reunited, so its allocation stays live.

## Model

| member | source | states |
|---|---|---|
| Mem.Wrap | src/mem.rs:17-22 | the wrapped view holds exactly the original value |
| Mem.WrappedEq | src/mem.rs:9-11 | derived `PartialEq` on `Wrapped`: compares the wrapped values, so a wrapped value equals itself exactly when its value does; the full agreement is in `WrapIsTransparent` |
| Mem.WrappedCmp | src/mem.rs:9-11 | derived `Ord` on `Wrapped`: the order of the wrapped values; `WrappedTotalOrder` proves it is total exactly when `T`'s order is |
| Mem.WrappedPartialCmp | src/mem.rs:9-11 | derived `PartialOrd` on `Wrapped`: the partial order of the wrapped values, as `WrapIsTransparent` states for wrapped views |
| Mem.WrapIsTransparent | src/mem.rs:9-11 | wrapping is injective, and equality and both orderings on wrapped values agree with those on the values |
| Mem.WrappedTotalOrder | src/mem.rs:9-11 | the derived order on `Wrapped<T>` is a total order exactly when `T`'s order is (both directions) |
| Mem.Share | src/mem.rs:29-32 | one fresh live allocation holds the value; both halves point to that same allocation |
| Mem.Deref | src/mem.rs:40-46 | reading a live half gives its allocation's payload |
| Mem.Reunite | src/mem.rs:34-37 | same allocation: the payload is returned and the allocation is freed; different allocations: a panic, and nothing is freed |
| Mem.ShareReadReunite | src/mem.rs:29-45 | share, then read through both halves, then reunite: both reads and the result are the original value |
| Mem.ReuniteStrangers | src/mem.rs:34-36 | halves from two `share` calls with equal payloads still panic on reunite, and neither allocation is freed |
| Mem.SemiEq | src/mem.rs:74-78 | `PartialEq for Semi`: equality of the payloads, never of the allocations; `HalvesCompareByPayload` shows that halves of distinct allocations with equal payloads are equal |
| Mem.SemiCmp | src/mem.rs:68-72 | `Ord for Semi`: the payloads' order, whatever the allocations; `SemiOrderIsTotal` proves it keeps `T`'s `Ord` laws |
| Mem.SemiPartialCmp | src/mem.rs:80-84 | `PartialOrd for Semi`: the payloads' partial order, whatever the allocations; see `HalvesCompareByPayload` |
| Mem.SemiEqIsEquivalence | src/mem.rs:66 | on live halves, the delegated equality is reflexive, symmetric and transitive whenever `T`'s equality is, as `Eq` promises |
| Mem.HalvesCompareByPayload | src/mem.rs:66-84 | halves of different allocations with equal payloads are `==`, compare `Equal`, and `partial_cmp` gives `Some(Equal)` |
| Mem.SemiOrderIsTotal | src/mem.rs:66-72 | on live halves, the delegated `cmp` is reflexive, antisymmetric in its `Less`/`Greater` answers, and transitive whenever `T`'s is |
| Mem.BorrowWrapped | src/mem.rs:48-52 | the borrowed view of a half is the wrapped borrowed form of its payload |
| Mem.ProbeComparesAsBorrowed | src/mem.rs:48-52 | probing with `Wrap(q)` compares as the stored key's borrowed form does; when `borrow` preserves the order, probing with `borrow(k)` compares as `k`, and borrowed forms of two halves compare as the halves do |
| BTree.IntCmp | src/maps/btree.rs:56-59 | the key order: `Less`, `Equal`, `Greater` exactly when `a < b`, `a == b`, `a > b` |
| BTree.IntCmpIsTotalOrder | src/maps/btree.rs:56-59 | the key order meets the `Ord` laws |
| BTree.KeysAscendingIsSemiOrder | src/maps/btree.rs:18-20 | on live key halves, the payloads ascend exactly when each key half is `Less` than every later one under `Ord for Semi` with `IntCmp`, so filing entries by payload follows the tree's own order |
| BTree.SortedKeys | src/maps/btree.rs:86-95 | the in-order key walk lists every key once, strictly increasing |
| BTree.SortedKeysUnique | src/maps/btree.rs:86-95 | any strictly increasing list of exactly these keys is that walk |
| BTree.SortedEntries | src/maps/btree.rs:86-95 | the drained entries are the map's entries in key order, one per key |
| BTree.SortedEntriesAscending | src/maps/btree.rs:86-95 | in a key-filed map, the drained entries' key payloads ascend strictly |
| BTree.PutEntry | src/maps/btree.rs:60-62 | after insert the key is present with the new value half; a duplicate key keeps the stored key half and a new key stores the given one; no other key is affected; entries stay filed under their key |
| BTree.ReplayLookup | src/maps/btree.rs:51-82 | after any inserts and removals, a lookup finds the value half of the latest insert of that key, unless a removal followed it |
| BTree.ReplayFiled | src/maps/btree.rs:60-82 | after any inserts and removals, every entry stays filed under its key half's payload |
| BTree.UntouchedExpectedAbsent | src/maps/btree.rs:51-82 | a key that was not present at the start and that no call names is expected to be absent |
| BTree.ReplayKeys | src/maps/btree.rs:60-82 | after any inserts and removals, the keys present are exactly those, among the starting keys and the keys some call names, whose latest call was an insert (or, for a starting key, that no call touched); the entry count is the number of those keys |
| BTree.InnerBTreeMap.constructor | src/maps/btree.rs:29-33 | a new map is empty, has length 0 and `is_empty` |
| BTree.InnerBTreeMap.Contains | src/maps/btree.rs:41-43 | true exactly when an entry is filed under the probe, that is, exactly when `get` finds one |
| BTree.InnerBTreeMap.Get | src/maps/btree.rs:51-53 | finds something exactly when an entry is filed under the probe; the result is that entry's value half, paired in a valid map with a key half carrying the probe; `Insert` and `ReplayLookup` state what it finds after updates |
| BTree.InnerBTreeMap.Len | src/maps/btree.rs:65-67 | the number of stored entries; how it changes is stated by `Insert` (one more only for a new key) and `Remove` (one fewer only when an entry was removed) |
| BTree.InnerBTreeMap.IsEmpty | src/maps/btree.rs:69-71 | true exactly when the length is 0, that is, exactly when no probe is contained |
| BTree.InnerBTreeMap.Insert | src/maps/btree.rs:60-62 | the entries become `PutEntry` of the old ones; the key is found with the new value; other lookups are unchanged; the length grows by one only for a new key; on a duplicate key the new key half and the old value half are dropped |
| BTree.InnerBTreeMap.Remove | src/maps/btree.rs:80-82 | the entry under the probe is removed and returned as a pair whose key matches the probe, or `None` with no change; the probe is then absent and the length drops by one only when an entry was removed |
| BTree.IterOwned.FromMap | src/maps/btree.rs:85-88 | the iterator's remaining items are the map's entries in key order, as many as the map's length |
| BTree.IterOwned.Next | src/maps/btree.rs:93-110 | pops the front entry, whose key is below every key left; when nothing is left, `None` and no change (fused) |
| BTree.IterOwned.NextBack | src/maps/btree.rs:102-110 | pops the back entry, whose key is above every key left; when nothing is left, `None` and no change |
| BTree.IterOwned.SizeHint | src/maps/btree.rs:97-108 | both bounds equal the number of entries left |
| BTree.ThreeKeysSorted | src/maps/btree.rs:86-95 | the in-order walk of {1, 2, 3} is [1, 2, 3] |
| BTree.ThreeKeysInOrder | src/maps/btree.rs:86-95 | a map with keys {1, 2, 3} drains as the entries under 1, 2 and 3 |
| BTree.ExampleInserts | src/maps/btree.rs:60-62 | inserting keys 3, 1, 2 into an empty map gives three entries, drained in key order |
| BTree.ExampleRemoval | src/maps/btree.rs:80-82 | removing key 2 afterwards leaves two entries whose lookups of keys 1 and 3 are unaffected |
| BTree.ExampleRemoveEntry | src/maps/btree.rs:80-82 | removing key 2 from {1: "a", 2: "b", 3: "c"} returns the pair (2, "b") and leaves the keys 1 and 3 |
| BTree.DuplicateInsertLeaks | src/maps/btree.rs:60-62 | inserting a second pair under key 5 keeps one entry and finds the new value 20; the displaced value half is recorded as dropped, stays live and holds 10, and its sibling half still reads 10, because only `reunite` frees |
| BTree.ExampleWalk | src/maps/btree.rs:93-95 | walking {1: "a", 2: "b", 3: "c"} from the front yields (1,"a"), (2,"b"), (3,"c") |

## Left out

- Raw pointers, `Box::into_raw`/`from_raw` and `#[repr(transparent)]` casts are modelled as object references and a datatype wrapper. Memory layout is not modelled.
- The `Debug` and `Hash` impls on `Semi` (src/mem.rs:54-64) and the derived `Debug`, `Hash`, `Clone`, `Copy` and `Default` on `Wrapped` are left out. They only format or hash the payload.
- The `assert!` in `reunite` panics. Here the panic is the `Panicked` result, and unwinding is not modelled.
- Halves are Rust values that are moved into `reunite`, `insert` and `remove`, so they cannot be used again after the call. Here they are Dafny values that can be copied, and moves are not enforced. `ReuniteStrangers` reads both halves after the failed call only to show that the panicking path frees no allocation.
- `KeyRef` and `ValueRef` are imported from `mem`, but their definitions are not in `src/mem.rs`. They are modelled as `Semi<int>` and `Semi<V>`.
- `BTreeKind`, `MapKind` and the crate's trait definitions (`MapBase`, `Contains`, `Get`, ...) are not part of this model. Each impl becomes a member of `InnerBTreeMap`.
- The standard `BTreeMap`'s node structure and balancing are left out. Only its documented behaviour as an ordered finite map is modelled.
- BTree.InnerBTreeMap: keys are `int`, not a generic `K: Ord`. Probing by a generic borrowed `Q` is modelled in `Mem.BorrowWrapped` and `Mem.ProbeComparesAsBorrowed`, not in the map.
- `usize` bounds on `len` and `size_hint` are not modelled. Counts are unbounded naturals.
- The map does not track whether the halves it stores are live. Only `Insert` demands a live key half, because it reads the payload.
- BTree.IterOwned.FromMap: the `into_iter` that creates the iterator is taken as a snapshot of the map's entries. The consumption of the map is not modelled.
- Thread-safety markers and the bimap type built on these backends are not part of this model.
