/** The ordered-tree backend: a map from key halves to value halves in the
    key type's natural order, and the owned double-ended iterator that
    drains it.

    The standard library's `BTreeMap` is seen only through its documented
    behaviour: a finite map from keys to entries, ordered by key.  Keys are
    `int` with their natural order.  An entry is the key half and the value
    half the map owns; the map is indexed by the key half's payload, which is
    what the tree's comparisons (`Ord for Semi`, delegating to the payload)
    look at. */
module BTree {
  import opened Mem

  /** `Ord for i64` and friends: the natural order of integer keys. */
  function IntCmp(a: int, b: int): (o: Ordering)
    ensures o == Less <==> a < b
    ensures o == Equal <==> a == b
    ensures o == Greater <==> b < a
  {
    if a < b then Less else if a == b then Equal else Greater
  }

  lemma IntCmpIsTotalOrder()
    ensures IsTotalOrder(IntCmp)
  {
  }

  /** A stored (key half, value half) pair. */
  datatype Entry<V> = Entry(key: Semi<int>, value: Semi<V>)

  /** Every entry is filed under its own key half's payload. */
  ghost predicate FiledByKey<V>(m: map<int, Entry<V>>) {
    forall k | k in m :: m[k].key.ptr.value == k
  }

  // ---------------------------------------------------------------------
  // Key order
  // ---------------------------------------------------------------------

  ghost predicate Increasing(s: seq<int>) {
    forall i, j :: 0 <= i < j < |s| ==> s[i] < s[j]
  }

  lemma NonEmptyHasMember(s: set<int>)
    requires s != {}
    ensures exists x :: x in s
  {
    if forall x :: x !in s {
      assert false;
    }
  }

  lemma {:induction false} MinExists(s: set<int>)
    requires s != {}
    ensures exists k :: k in s && forall x | x in s :: k <= x
  {
    NonEmptyHasMember(s);
    var y :| y in s;
    var rest := s - {y};
    if rest != {} {
      MinExists(rest);
      var m :| m in rest && forall x | x in rest :: m <= x;
      var k := if y < m then y else m;
      forall x | x in s ensures k <= x {
        if x != y {
          assert x in rest;
        }
      }
      assert k in s;
    } else {
      assert s == {y};
    }
  }

  /** The least key of a non-empty key set. */
  function Min(s: set<int>): (k: int)
    requires s != {}
    ensures k in s && forall x | x in s :: k <= x
  {
    MinExists(s);
    var k :| k in s && forall x | x in s :: k <= x;
    k
  }

  /** The keys of a set in ascending order: the order of an in-order walk of
      the tree. */
  function SortedKeys(s: set<int>): (r: seq<int>)
    ensures |r| == |s|
    ensures forall x :: x in r <==> x in s
    ensures Increasing(r)
    decreases |s|
  {
    if s == {} then []
    else
      var k := Min(s);
      var rest := SortedKeys(s - {k});
      assert Increasing([k] + rest) by {
        forall i, j | 0 <= i < j < |[k] + rest| ensures ([k] + rest)[i] < ([k] + rest)[j] {
          if i == 0 {
            assert ([k] + rest)[j] == rest[j - 1] && rest[j - 1] in s - {k};
          } else {
            assert ([k] + rest)[i] == rest[i - 1] && ([k] + rest)[j] == rest[j - 1];
          }
        }
      }
      [k] + rest
  }

  lemma SortedKeysUnfold(s: set<int>)
    requires s != {}
    ensures SortedKeys(s) == [Min(s)] + SortedKeys(s - {Min(s)})
  {
  }

  /** The head of a strictly increasing listing of `s` is the least key. */
  lemma HeadIsMin(s: set<int>, r: seq<int>)
    requires Increasing(r) && r != []
    requires forall x :: x in r <==> x in s
    ensures s != {} && r[0] == Min(s)
  {
    assert r[0] in r;
    forall x | x in s ensures r[0] <= x {
      assert x in r;
      var j :| 0 <= j < |r| && r[j] == x;
      assert j == 0 || r[0] < r[j];
    }
  }

  /** The tail of a strictly increasing listing of `s` lists `s` minus its head. */
  lemma TailListsRest(s: set<int>, r: seq<int>)
    requires Increasing(r) && r != []
    requires forall x :: x in r <==> x in s
    ensures Increasing(r[1..])
    ensures forall x :: x in r[1..] <==> x in s - {r[0]}
  {
    var rest := r[1..];
    forall x ensures x in rest <==> x in s - {r[0]} {
      if x in rest {
        var j :| 0 <= j < |rest| && rest[j] == x;
        assert r[j + 1] == x && r[0] < r[j + 1];
      }
      if x in s - {r[0]} {
        assert x in r;
        var j :| 0 <= j < |r| && r[j] == x;
        assert j != 0;
        assert rest[j - 1] == x;
      }
    }
  }

  /** Ascending order is unique: any strictly increasing listing of a key
      set is the one `SortedKeys` gives. */
  lemma {:induction false} SortedKeysUnique(s: set<int>, r: seq<int>)
    requires Increasing(r)
    requires forall x :: x in r <==> x in s
    ensures r == SortedKeys(s)
    decreases |r|
  {
    if r == [] {
      assert s == {} by {
        forall x ensures x !in s {
          assert x !in r;
        }
      }
    } else {
      var h, rest := r[0], r[1..];
      assert h == Min(s) by {
        HeadIsMin(s, r);
      }
      assert rest == SortedKeys(s - {h}) by {
        TailListsRest(s, r);
        SortedKeysUnique(s - {h}, rest);
      }
      SortedKeysUnfold(s);
      assert r == [h] + rest;
    }
  }

  /** The entries of a map in ascending key order: what the owned iterator
      drains. */
  function SortedEntries<V>(m: map<int, Entry<V>>): (es: seq<Entry<V>>)
    ensures |es| == |m|
    ensures forall i | 0 <= i < |es| :: SortedKeys(m.Keys)[i] in m && es[i] == m[SortedKeys(m.Keys)[i]]
  {
    var ks := SortedKeys(m.Keys);
    assert forall i | 0 <= i < |ks| :: ks[i] in m by {
      forall i | 0 <= i < |ks| ensures ks[i] in m {
        assert ks[i] in ks;
      }
    }
    seq(|ks|, i requires 0 <= i < |ks| => m[ks[i]])
  }

  /** Entries whose key payloads strictly increase along the sequence. */
  ghost predicate KeysAscending<V>(es: seq<Entry<V>>) {
    forall i, j :: 0 <= i < j < |es| ==> es[i].key.ptr.value < es[j].key.ptr.value
  }

  lemma SortedEntriesAscending<V>(m: map<int, Entry<V>>)
    requires FiledByKey(m)
    ensures KeysAscending(SortedEntries(m))
  {
    var ks, es := SortedKeys(m.Keys), SortedEntries(m);
    forall i, j | 0 <= i < j < |es| ensures es[i].key.ptr.value < es[j].key.ptr.value {
      assert es[i].key.ptr.value == ks[i];
      assert es[j].key.ptr.value == ks[j];
    }
  }

  /** The tree orders its entries with `Ord for Semi`, which compares the
      key payloads by `IntCmp`; so ascending payloads are ascending in the
      tree's own order, and filing entries by payload is faithful to it. */
  lemma KeysAscendingIsSemiOrder<V>(es: seq<Entry<V>>)
    requires forall i | 0 <= i < |es| :: es[i].key.ptr.live
    ensures KeysAscending(es) <==>
              forall i, j | 0 <= i < j < |es| :: SemiCmp(IntCmp, es[i].key, es[j].key) == Less
  {
    if KeysAscending(es) {
      forall i, j | 0 <= i < j < |es| ensures SemiCmp(IntCmp, es[i].key, es[j].key) == Less {
        assert es[i].key.ptr.value < es[j].key.ptr.value;
      }
    }
    if forall i, j | 0 <= i < j < |es| :: SemiCmp(IntCmp, es[i].key, es[j].key) == Less {
      forall i, j | 0 <= i < j < |es| ensures es[i].key.ptr.value < es[j].key.ptr.value {
        assert SemiCmp(IntCmp, es[i].key, es[j].key) == Less;
      }
    }
  }

  // ---------------------------------------------------------------------
  // Effect of insert and remove on the stored entries
  // ---------------------------------------------------------------------

  /** `BTreeMap::insert` on an entry map.  On a key equal to a stored one the
      stored key half is kept and only the value half is replaced; otherwise
      the new pair is added. */
  function PutEntry<V>(m: map<int, Entry<V>>, key: Semi<int>, value: Semi<V>): (r: map<int, Entry<V>>)
    ensures FiledByKey(m) ==> FiledByKey(r)
    ensures forall q :: q in r <==> q in m || q == key.ptr.value
    ensures r[key.ptr.value].value == value
    ensures forall q | q in m && q != key.ptr.value :: r[q] == m[q]
    ensures key.ptr.value in m ==> r[key.ptr.value].key == m[key.ptr.value].key
    ensures key.ptr.value !in m ==> r[key.ptr.value].key == key
  {
    var k := key.ptr.value;
    if k in m then m[k := Entry(m[k].key, value)] else m[k := Entry(key, value)]
  }

  /** One call on the map: `insert(key, value)` or `remove(probe)`. */
  datatype MapOp<V> = Put(key: Semi<int>, value: Semi<V>) | Take(probe: int)

  function Target<V>(op: MapOp<V>): int {
    match op
    case Put(key, _) => key.ptr.value
    case Take(q) => q
  }

  function Apply<V>(m: map<int, Entry<V>>, op: MapOp<V>): map<int, Entry<V>> {
    match op
    case Put(key, value) => PutEntry(m, key, value)
    case Take(q) => m - {q}
  }

  /** The entries after a sequence of calls, performed first to last. */
  function Replay<V>(m: map<int, Entry<V>>, ops: seq<MapOp<V>>): map<int, Entry<V>>
    decreases |ops|
  {
    if ops == [] then m else Apply(Replay(m, ops[..|ops| - 1]), ops[|ops| - 1])
  }

  /** What a lookup of `q` should find after `ops`, read off the calls alone:
      the value half of the latest call on `q` if that was an insert, nothing
      if it was a removal, and the original entry if no call touched `q`. */
  function Expected<V>(m: map<int, Entry<V>>, ops: seq<MapOp<V>>, q: int): Option<Semi<V>>
    decreases |ops|
  {
    if ops == [] then
      (if q in m then Some(m[q].value) else None)
    else
      var last := ops[|ops| - 1];
      if Target(last) != q then Expected(m, ops[..|ops| - 1], q)
      else if last.Put? then Some(last.value)
      else None
  }

  function Lookup<V>(m: map<int, Entry<V>>, q: int): Option<Semi<V>> {
    if q in m then Some(m[q].value) else None
  }

  /** Presence and lookup fidelity over any sequence of inserts and removals:
      a key is present exactly when its latest insert has not been followed
      by a removal, and it then maps to the value half of that insert. */
  lemma {:induction false} ReplayLookup<V>(m: map<int, Entry<V>>, ops: seq<MapOp<V>>, q: int)
    ensures Lookup(Replay(m, ops), q) == Expected(m, ops, q)
    decreases |ops|
  {
    if ops != [] {
      ReplayLookup(m, ops[..|ops| - 1], q);
    }
  }

  /** Over any sequence of calls, the key half filed under each key carries
      that key. */
  lemma {:induction false} ReplayFiled<V>(m: map<int, Entry<V>>, ops: seq<MapOp<V>>)
    requires FiledByKey(m)
    ensures FiledByKey(Replay(m, ops))
    decreases |ops|
  {
    if ops != [] {
      ReplayFiled(m, ops[..|ops| - 1]);
    }
  }

  /** The keys some call in `ops` names. */
  function Touched<V>(ops: seq<MapOp<V>>): (t: set<int>)
    ensures forall i | 0 <= i < |ops| :: Target(ops[i]) in t
    ensures forall q | q in t :: exists i | 0 <= i < |ops| :: Target(ops[i]) == q
  {
    set i | 0 <= i < |ops| :: Target(ops[i])
  }

  /** A key neither present at the start nor named by any call is expected
      to be absent. */
  lemma {:induction false} UntouchedExpectedAbsent<V>(m: map<int, Entry<V>>, ops: seq<MapOp<V>>, q: int)
    requires q !in m && q !in Touched(ops)
    ensures Expected(m, ops, q) == None
    decreases |ops|
  {
    if ops != [] {
      var init := ops[..|ops| - 1];
      forall i | 0 <= i < |init| ensures Target(init[i]) != q {
        assert init[i] == ops[i];
      }
      UntouchedExpectedAbsent(m, init, q);
    }
  }

  /** Size consistency over any sequence of calls: the keys present are
      exactly those, among the starting keys and the keys the calls name,
      whose latest call was an insert (or that no call touched), so the
      entry count is the number of such keys. */
  lemma ReplayKeys<V>(m: map<int, Entry<V>>, ops: seq<MapOp<V>>)
    ensures Replay(m, ops).Keys == set q | q in m.Keys + Touched(ops) && Expected(m, ops, q).Some?
    ensures |Replay(m, ops)| == |set q | q in m.Keys + Touched(ops) && Expected(m, ops, q).Some?|
  {
    var r := Replay(m, ops);
    var live := set q | q in m.Keys + Touched(ops) && Expected(m, ops, q).Some?;
    forall q ensures q in r.Keys <==> q in live {
      ReplayLookup(m, ops, q);
      if q !in m.Keys + Touched(ops) {
        UntouchedExpectedAbsent(m, ops, q);
      }
    }
    assert r.Keys == live;
  }

  // ---------------------------------------------------------------------
  // InnerBTreeMap
  // ---------------------------------------------------------------------

  /** `InnerBTreeMap<K, V>` with `K = int`: one backend map of a bimap. */
  class InnerBTreeMap<V> {
    /** The tree's contents, indexed by key payload. */
    var entries: map<int, Entry<V>>
    /** Halves that a replacing `Insert` dropped without reuniting them:
        each one's allocation stays live for good. */
    ghost var droppedKeys: seq<Semi<int>>
    ghost var droppedValues: seq<Semi<V>>

    ghost predicate Valid()
      reads this
    {
      FiledByKey(entries)
    }

    /** `MapBase::new`. */
    constructor ()
      ensures Valid()
      ensures entries == map[] && droppedKeys == [] && droppedValues == []
      ensures Len() == 0 && IsEmpty()
    {
      entries := map[];
      droppedKeys, droppedValues := [], [];
    }

    /** `Contains::contains`. */
    function Contains(q: int): (b: bool)
      reads this
      ensures b <==> q in entries
      ensures b <==> Get(q).Some?
    {
      q in entries
    }

    /** `Get::get`: the stored value half filed under `q`, if any; in a
        valid map it is paired with a key half carrying `q`. */
    function Get(q: int): (r: Option<Semi<V>>)
      reads this
      ensures r.Some? <==> q in entries
      ensures r.Some? ==> r.value == entries[q].value
      ensures r.Some? && Valid() ==> entries[q].key.ptr.value == q
    {
      Lookup(entries, q)
    }

    /** `Length::len`. */
    function Len(): (n: nat)
      reads this
      ensures n == |entries.Keys|
    {
      |entries|
    }

    /** `Length::is_empty`. */
    function IsEmpty(): (b: bool)
      reads this
      ensures b <==> Len() == 0
      ensures b <==> forall q :: !Contains(q)
    {
      if |entries| == 0 then true
      else
        NonEmptyHasMember(entries.Keys);
        var k :| k in entries;
        assert Contains(k);
        false
    }

    /** `Insert::insert`.  The payload of `key` is read to place it, so the
        half must be live.  On a key already present the stored key half stays,
        the value half is replaced, and the new key half and the old value half
        are dropped: they are not returned. */
    method Insert(key: Semi<int>, value: Semi<V>)
      requires Valid()
      requires key.ptr.live
      modifies this
      ensures Valid()
      ensures entries == PutEntry(old(entries), key, value)
      ensures Contains(key.ptr.value) && Get(key.ptr.value) == Some(value)
      ensures forall q | q != key.ptr.value :: Lookup(entries, q) == Lookup(old(entries), q)
      ensures Len() == if old(Contains(key.ptr.value)) then old(Len()) else old(Len()) + 1
      ensures old(Contains(key.ptr.value)) ==>
                && droppedKeys == old(droppedKeys) + [key]
                && droppedValues == old(droppedValues) + [old(entries)[key.ptr.value].value]
      ensures !old(Contains(key.ptr.value)) ==>
                droppedKeys == old(droppedKeys) && droppedValues == old(droppedValues)
    {
      var k := Deref(key);
      if k in entries {
        droppedKeys := droppedKeys + [key];
        droppedValues := droppedValues + [entries[k].value];
      }
      entries := PutEntry(entries, key, value);
    }

    /** `Remove::remove` (`BTreeMap::remove_entry`): take out and return the
        stored pair filed under `q`, or report its absence and change nothing. */
    method Remove(q: int) returns (r: Option<Entry<V>>)
      requires Valid()
      modifies this
      ensures Valid()
      ensures entries == old(entries) - {q}
      ensures r == if q in old(entries) then Some(old(entries)[q]) else None
      ensures r.Some? ==> r.value.key.ptr.value == q
      ensures !Contains(q)
      ensures Len() == if r.Some? then old(Len()) - 1 else old(Len())
      ensures droppedKeys == old(droppedKeys) && droppedValues == old(droppedValues)
    {
      if q in entries {
        r := Some(entries[q]);
        entries := entries - {q};
      } else {
        r := None;
      }
    }
  }

  // ---------------------------------------------------------------------
  // IterOwned
  // ---------------------------------------------------------------------

  /** `IterOwned<K, V>`: the drained entries in ascending key order, consumed
      from the front by `Next` and from the back by `NextBack`.  What is left
      is `items[front..back]`; the cursors never cross. */
  class IterOwned<V> {
    const items: seq<Entry<V>>
    var front: nat
    var back: nat

    ghost predicate Valid()
      reads this
    {
      front <= back <= |items| && KeysAscending(items)
    }

    /** The entries not yet yielded from either end. */
    ghost function Remaining(): seq<Entry<V>>
      reads this
      requires Valid()
    {
      items[front..back]
    }

    /** Drain `m`: every entry once, in ascending key order. */
    constructor FromMap(m: InnerBTreeMap<V>)
      requires m.Valid()
      ensures Valid()
      ensures Remaining() == SortedEntries(m.entries)
      ensures |Remaining()| == m.Len()
    {
      SortedEntriesAscending(m.entries);
      items := SortedEntries(m.entries);
      front, back := 0, |m.entries|;
    }

    /** `Iterator::next`: the entry with the least remaining key; once
        nothing is left, `None` and no change, on every later call too. */
    method Next() returns (r: Option<Entry<V>>)
      requires Valid()
      modifies this
      ensures Valid()
      ensures old(Remaining()) != [] ==>
                r == Some(old(Remaining())[0]) && Remaining() == old(Remaining())[1..]
      ensures old(Remaining()) == [] ==> r == None && front == old(front) && back == old(back)
      ensures r.Some? ==> forall i | 0 <= i < |Remaining()| ::
                r.value.key.ptr.value < Remaining()[i].key.ptr.value
    {
      if front < back {
        r := Some(items[front]);
        front := front + 1;
      } else {
        r := None;
      }
    }

    /** `DoubleEndedIterator::next_back`: the entry with the greatest remaining
        key; fused in the same way as `Next`. */
    method NextBack() returns (r: Option<Entry<V>>)
      requires Valid()
      modifies this
      ensures Valid()
      ensures old(Remaining()) != [] ==>
                r == Some(old(Remaining())[|old(Remaining())| - 1])
                && Remaining() == old(Remaining())[..|old(Remaining())| - 1]
      ensures old(Remaining()) == [] ==> r == None && front == old(front) && back == old(back)
      ensures r.Some? ==> forall i | 0 <= i < |Remaining()| ::
                Remaining()[i].key.ptr.value < r.value.key.ptr.value
    {
      if front < back {
        back := back - 1;
        r := Some(items[back]);
      } else {
        r := None;
      }
    }

    /** `Iterator::size_hint`, exact as `ExactSizeIterator` promises: both
        bounds are the number of entries left. */
    function SizeHint(): (h: (nat, Option<nat>))
      reads this
      requires Valid()
      ensures h.0 == |Remaining()|
      ensures h.1 == Some(h.0)
    {
      (back - front, Some(back - front))
    }
  }

  // ---------------------------------------------------------------------
  // A worked example
  // ---------------------------------------------------------------------

  /** The in-order walk of the keys 1, 2, 3. */
  lemma ThreeKeysSorted()
    ensures SortedKeys({1, 2, 3}) == [1, 2, 3]
  {
    var r := [1, 2, 3];
    assert Increasing(r);
    forall x ensures x in r <==> x in {1, 2, 3} {
    }
    SortedKeysUnique({1, 2, 3}, r);
  }

  lemma ThreeKeysInOrder<V>(m: map<int, Entry<V>>)
    requires m.Keys == {1, 2, 3}
    ensures SortedEntries(m) == [m[1], m[2], m[3]]
  {
    ThreeKeysSorted();
    var es := SortedEntries(m);
    assert es[0] == m[1] && es[1] == m[2] && es[2] == m[3];
  }

  /** Inserting keys 3, 1, 2 with values "c", "a", "b" into an empty map
      leaves three entries, drained in key order. */
  lemma ExampleInserts<V>(k1: Semi<int>, k2: Semi<int>, k3: Semi<int>, va: Semi<V>, vb: Semi<V>, vc: Semi<V>)
    requires k1.ptr.value == 1 && k2.ptr.value == 2 && k3.ptr.value == 3
    ensures Replay(map[], [Put(k3, vc), Put(k1, va), Put(k2, vb)])
            == map[3 := Entry(k3, vc)][1 := Entry(k1, va)][2 := Entry(k2, vb)]
    ensures var m := Replay(map[], [Put(k3, vc), Put(k1, va), Put(k2, vb)]);
            |m| == 3 && SortedEntries(m) == [Entry(k1, va), Entry(k2, vb), Entry(k3, vc)]
  {
    var ops := [Put(k3, vc), Put(k1, va), Put(k2, vb)];
    var m1 := map[3 := Entry(k3, vc)];
    var m2 := m1[1 := Entry(k1, va)];
    var m3 := m2[2 := Entry(k2, vb)];
    assert Replay(map[], ops[..1]) == m1 by {
      assert ops[..1][..0] == [];
    }
    assert Replay(map[], ops[..2]) == m2 by {
      assert ops[..2][..1] == ops[..1];
    }
    assert Replay(map[], ops) == m3 by {
      assert ops[..2] == ops[..|ops| - 1];
    }
    assert m3.Keys == {1, 2, 3};
    ThreeKeysInOrder(m3);
  }

  /** Removing key 2 afterwards leaves keys 1 and 3 with their pairs. */
  lemma ExampleRemoval<V>(k1: Semi<int>, k2: Semi<int>, k3: Semi<int>, va: Semi<V>, vb: Semi<V>, vc: Semi<V>)
    requires k1.ptr.value == 1 && k2.ptr.value == 2 && k3.ptr.value == 3
    ensures var m := Replay(map[], [Put(k3, vc), Put(k1, va), Put(k2, vb), Take(2)]);
            && 2 !in m && |m| == 2
            && Lookup(m, 1) == Some(va) && Lookup(m, 3) == Some(vc)
  {
    var ops4 := [Put(k3, vc), Put(k1, va), Put(k2, vb), Take(2)];
    var ops := ops4[..3];
    var m3 := map[3 := Entry(k3, vc)][1 := Entry(k1, va)][2 := Entry(k2, vb)];
    assert Replay(map[], ops) == m3 by {
      assert ops == [Put(k3, vc), Put(k1, va), Put(k2, vb)];
      ExampleInserts(k1, k2, k3, va, vb, vc);
    }
    var m := Replay(map[], ops4);
    assert m == m3 - {2};
    assert m.Keys == {1, 3};
  }

  /** Removing key 2 from the map {1: "a", 2: "b", 3: "c"} returns the pair
      (2, "b") and leaves keys 1 and 3. */
  method ExampleRemoveEntry(m: InnerBTreeMap<string>, k1: Semi<int>, k2: Semi<int>, k3: Semi<int>,
                            va: Semi<string>, vb: Semi<string>, vc: Semi<string>) returns (removed: Option<(int, string)>)
    requires m.Valid()
    requires m.entries == map[1 := Entry(k1, va), 2 := Entry(k2, vb), 3 := Entry(k3, vc)]
    requires k2.ptr.live && vb.ptr.live
    requires vb.ptr.value == "b"
    modifies m
    ensures removed == Some((2, "b"))
    ensures m.entries.Keys == {1, 3} && m.Len() == 2
  {
    var r := m.Remove(2);
    removed := Some((Deref(r.value.key), Deref(r.value.value)));
    assert m.entries == map[1 := Entry(k1, va), 3 := Entry(k3, vc)];
  }

  /** Inserting a second pair under an already stored key leaks: the
      displaced value half is dropped without `reunite`, so its allocation
      stays live and its sibling half still reads the old value, while the
      map now finds the new value half. */
  method DuplicateInsertLeaks() returns (m: InnerBTreeMap<int>, displaced: Semi<int>,
                                         siblingRead: int, current: Option<Semi<int>>)
    ensures m.Valid() && m.Len() == 1
    ensures displaced.ptr.live && displaced.ptr.value == 10
    ensures siblingRead == 10
    ensures m.droppedValues == [displaced]
    ensures |m.droppedKeys| == 1 && m.droppedKeys[0].ptr.live && m.droppedKeys[0].ptr.value == 5
    ensures current.Some? && current.value.ptr.live && current.value.ptr.value == 20
  {
    var k1, _ := Share(5);
    var v1, v2 := Share(10);
    var k2, _ := Share(5);
    var w1, _ := Share(20);
    m := new InnerBTreeMap();
    m.Insert(k1, v1);
    m.Insert(k2, w1);
    displaced := v1;
    siblingRead := Deref(v2);
    current := m.Get(5);
  }

  /** Walking the iterator over the map {1: "a", 2: "b", 3: "c"} from the
      front gives the pairs in key order. */
  method ExampleWalk(m: InnerBTreeMap<string>, k1: Semi<int>, k2: Semi<int>, k3: Semi<int>,
                     va: Semi<string>, vb: Semi<string>, vc: Semi<string>) returns (walk: seq<(int, string)>)
    requires m.Valid()
    requires m.entries == map[1 := Entry(k1, va), 2 := Entry(k2, vb), 3 := Entry(k3, vc)]
    requires k1.ptr.live && k2.ptr.live && k3.ptr.live && va.ptr.live && vb.ptr.live && vc.ptr.live
    requires va.ptr.value == "a" && vb.ptr.value == "b" && vc.ptr.value == "c"
    ensures walk == [(1, "a"), (2, "b"), (3, "c")]
  {
    ThreeKeysInOrder(m.entries);
    var it := new IterOwned.FromMap(m);
    var e1 := it.Next();
    var e2 := it.Next();
    var e3 := it.Next();
    walk := [(Deref(e1.value.key), Deref(e1.value.value)),
             (Deref(e2.value.key), Deref(e2.value.value)),
             (Deref(e3.value.key), Deref(e3.value.value))];
  }
}
