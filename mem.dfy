/** Split ownership of one heap value (`Semi`) and the type-identity wrapper
    (`Wrapped`) used to probe maps keyed on halves with a borrowed form.

    A heap allocation is an `Allocation` object.  Its payload never changes
    while the allocation exists, so it is a `const`; whether the allocation
    is still live (not yet freed by `Reunite`) is a ghost flag.  A `Semi`
    half is a reference to an allocation, and comparing the `ptr` of two
    halves is Dafny's reference equality, standing for the `ptr::eq` test
    in `Semi::reunite`.

    Comparison on `T` is whatever `T`'s own `PartialEq`, `Ord` and
    `PartialOrd` say; since those are chosen by the element type, they are
    parameters here (`eq`, `cmp`, `partialCmp`). */
module Mem {

  datatype Option<T> = None | Some(value: T)

  /** `core::cmp::Ordering`. */
  datatype Ordering = Less | Equal | Greater

  /** What `Ord` asks of `cmp`: a total order, with `Equal` for equivalent
      elements and `Greater` exactly when the swapped call says `Less`. */
  ghost predicate IsTotalOrder<T(!new)>(cmp: (T, T) -> Ordering) {
    && (forall a :: cmp(a, a) == Equal)
    && (forall a, b :: cmp(a, b) == Less <==> cmp(b, a) == Greater)
    && (forall a, b, c :: cmp(a, b) != Greater && cmp(b, c) != Greater ==> cmp(a, c) != Greater)
  }

  // ---------------------------------------------------------------------
  // Wrapped<T> and Wrap
  // ---------------------------------------------------------------------

  /** A single-field marker over `T`.  It exists only so that generic code can
      pick a different implementation for it; it never transforms its value. */
  datatype Wrapped<T> = Wrapped(inner: T)

  /** `Wrap::wrap`: view a value as `Wrapped` without changing it. */
  function Wrap<T>(x: T): (w: Wrapped<T>)
    ensures w.inner == x
  {
    Wrapped(x)
  }

  /** The derived `PartialEq`, `Ord` and `PartialOrd` of a one-field struct:
      wrapped values compare as the values they wrap. */
  function WrappedEq<T>(eq: (T, T) -> bool, a: Wrapped<T>, b: Wrapped<T>): (r: bool)
    ensures r == eq(a.inner, b.inner)
  {
    eq(a.inner, b.inner)
  }

  function WrappedCmp<T>(cmp: (T, T) -> Ordering, a: Wrapped<T>, b: Wrapped<T>): (r: Ordering)
    ensures r == cmp(a.inner, b.inner)
  {
    cmp(a.inner, b.inner)
  }

  function WrappedPartialCmp<T>(partialCmp: (T, T) -> Option<Ordering>, a: Wrapped<T>, b: Wrapped<T>): (r: Option<Ordering>)
    ensures r == partialCmp(a.inner, b.inner)
  {
    partialCmp(a.inner, b.inner)
  }

  /** Wrapping loses nothing: two values are equal exactly when their
      wrapped forms are, and every comparison on wrapped forms is the
      comparison on the values. */
  lemma WrapIsTransparent<T>(eq: (T, T) -> bool, cmp: (T, T) -> Ordering,
                             partialCmp: (T, T) -> Option<Ordering>, x: T, y: T)
    ensures Wrap(x) == Wrap(y) <==> x == y
    ensures WrappedEq(eq, Wrap(x), Wrap(y)) == eq(x, y)
    ensures WrappedCmp(cmp, Wrap(x), Wrap(y)) == cmp(x, y)
    ensures WrappedPartialCmp(partialCmp, Wrap(x), Wrap(y)) == partialCmp(x, y)
  {
  }

  /** The derived order on `Wrapped<T>` is a total order exactly when
      `T`'s is. */
  lemma WrappedTotalOrder<T(!new)>(cmp: (T, T) -> Ordering)
    ensures IsTotalOrder(cmp) <==> IsTotalOrder((a: Wrapped<T>, b: Wrapped<T>) => WrappedCmp(cmp, a, b))
  {
    var wcmp := (a: Wrapped<T>, b: Wrapped<T>) => WrappedCmp(cmp, a, b);
    if IsTotalOrder(wcmp) {
      forall a: T ensures cmp(a, a) == Equal {
        assert wcmp(Wrap(a), Wrap(a)) == Equal;
      }
      forall a: T, b: T ensures cmp(a, b) == Less <==> cmp(b, a) == Greater {
        assert wcmp(Wrap(a), Wrap(b)) == Less <==> wcmp(Wrap(b), Wrap(a)) == Greater;
      }
      forall a: T, b: T, c: T | cmp(a, b) != Greater && cmp(b, c) != Greater
        ensures cmp(a, c) != Greater
      {
        assert wcmp(Wrap(a), Wrap(b)) != Greater && wcmp(Wrap(b), Wrap(c)) != Greater;
      }
    }
  }

  // ---------------------------------------------------------------------
  // Semi<T>: one half of a shared allocation
  // ---------------------------------------------------------------------

  /** One heap allocation made by `Share` (`Box::into_raw`). */
  class Allocation<T> {
    const value: T
    /** False once `Reunite` has reclaimed the allocation. */
    ghost var live: bool

    constructor (value: T)
      ensures this.value == value && live
    {
      this.value := value;
      live := true;
    }
  }

  /** A half: a pointer to an allocation shared with exactly one sibling. */
  datatype Semi<T> = Semi(ptr: Allocation<T>)

  /** `Semi::share`: move `value` into one fresh allocation and hand out two
      halves that both point to it. */
  method Share<T>(value: T) returns (a: Semi<T>, b: Semi<T>)
    ensures fresh(a.ptr)
    ensures a.ptr == b.ptr
    ensures a.ptr.live && a.ptr.value == value
  {
    var alloc := new Allocation(value);
    a, b := Semi(alloc), Semi(alloc);
  }

  /** `Deref for Semi`: read the shared value; only defined while the
      allocation is live. */
  function Deref<T>(h: Semi<T>): (r: T)
    reads h.ptr
    requires h.ptr.live
    ensures r == h.ptr.value
  {
    h.ptr.value
  }

  /** The outcome of `Semi::reunite`: the value moved out of the allocation,
      or the panic of the failed `assert!` on mismatched halves. */
  datatype Reunion<T> = Reunited(value: T) | Panicked

  /** `Semi::reunite`: if the two halves point to the same allocation, free it
      and return its value; otherwise panic, whatever the payloads. */
  method Reunite<T>(a: Semi<T>, b: Semi<T>) returns (r: Reunion<T>)
    requires a.ptr == b.ptr ==> a.ptr.live
    modifies a.ptr
    ensures a.ptr == b.ptr ==> r == Reunited(a.ptr.value) && !a.ptr.live
    ensures a.ptr != b.ptr ==> r == Panicked && unchanged(a.ptr)
  {
    if a.ptr == b.ptr {
      r := Reunited(a.ptr.value);
      a.ptr.live := false;
    } else {
      r := Panicked;
    }
  }

  /** Sharing a value, reading it through both halves and reuniting the two
      gives the value back unchanged, and leaves the allocation freed. */
  method ShareReadReunite<T>(v: T) returns (viaA: T, viaB: T, r: Reunion<T>)
    ensures viaA == v && viaB == v
    ensures r == Reunited(v)
  {
    var a, b := Share(v);
    viaA, viaB := Deref(a), Deref(b);
    r := Reunite(a, b);
    assert !a.ptr.live && !b.ptr.live;
  }

  /** Reuniting halves of two different `Share` calls panics even though both
      payloads are the same value, and frees neither allocation: the reads
      afterwards witness that both are still live. */
  method ReuniteStrangers<T>(v: T) returns (r: Reunion<T>, afterA: T, afterD: T)
    ensures r == Panicked
    ensures afterA == v && afterD == v
  {
    var a, _ := Share(v);
    var _, d := Share(v);
    assert Deref(a) == Deref(d);
    r := Reunite(a, d);
    afterA, afterD := Deref(a), Deref(d);
  }

  /** Delegated comparisons on halves: each one compares the two payloads
      and never the allocations. */
  function SemiEq<T>(eq: (T, T) -> bool, a: Semi<T>, b: Semi<T>): (r: bool)
    reads a.ptr, b.ptr
    requires a.ptr.live && b.ptr.live
    ensures r == eq(a.ptr.value, b.ptr.value)
  {
    eq(Deref(a), Deref(b))
  }

  function SemiCmp<T>(cmp: (T, T) -> Ordering, a: Semi<T>, b: Semi<T>): (r: Ordering)
    reads a.ptr, b.ptr
    requires a.ptr.live && b.ptr.live
    ensures r == cmp(a.ptr.value, b.ptr.value)
  {
    cmp(Deref(a), Deref(b))
  }

  function SemiPartialCmp<T>(partialCmp: (T, T) -> Option<Ordering>, a: Semi<T>, b: Semi<T>): (r: Option<Ordering>)
    reads a.ptr, b.ptr
    requires a.ptr.live && b.ptr.live
    ensures r == partialCmp(a.ptr.value, b.ptr.value)
  {
    partialCmp(Deref(a), Deref(b))
  }

  /** Comparison never looks at identity: halves of distinct allocations with
      equal payloads are equal and compare `Equal` when `T`'s own operations
      are reflexive, as `Eq` and `Ord` demand. */
  lemma HalvesCompareByPayload<T>(eq: (T, T) -> bool, cmp: (T, T) -> Ordering,
                                  partialCmp: (T, T) -> Option<Ordering>, a: Semi<T>, b: Semi<T>)
    requires a.ptr.live && b.ptr.live
    requires a.ptr.value == b.ptr.value
    requires eq(a.ptr.value, a.ptr.value)
    requires cmp(a.ptr.value, a.ptr.value) == Equal
    requires partialCmp(a.ptr.value, a.ptr.value) == Some(Equal)
    ensures SemiEq(eq, a, b)
    ensures SemiCmp(cmp, a, b) == Equal
    ensures SemiPartialCmp(partialCmp, a, b) == Some(Equal)
  {
  }

  /** What `Eq` asks of `eq`: an equivalence relation. */
  ghost predicate IsEquivalence<T(!new)>(eq: (T, T) -> bool) {
    && (forall a :: eq(a, a))
    && (forall a, b :: eq(a, b) ==> eq(b, a))
    && (forall a, b, c :: eq(a, b) && eq(b, c) ==> eq(a, c))
  }

  /** `Eq for Semi<T>` only asserts that the delegated equality is an
      equivalence: on live halves it is one whenever `eq` is. */
  lemma SemiEqIsEquivalence<T(!new)>(eq: (T, T) -> bool, a: Semi<T>, b: Semi<T>, c: Semi<T>)
    requires IsEquivalence(eq)
    requires a.ptr.live && b.ptr.live && c.ptr.live
    ensures SemiEq(eq, a, a)
    ensures SemiEq(eq, a, b) ==> SemiEq(eq, b, a)
    ensures SemiEq(eq, a, b) && SemiEq(eq, b, c) ==> SemiEq(eq, a, c)
  {
    assert eq(Deref(a), Deref(a));
    if eq(Deref(a), Deref(b)) {
      assert eq(Deref(b), Deref(a));
      if eq(Deref(b), Deref(c)) {
        assert eq(Deref(a), Deref(c));
      }
    }
  }

  /** `Eq` and `Ord for Semi<T>` only assert that the delegated order keeps
      `T`'s laws: on live halves it is a total order whenever `cmp` is. */
  lemma SemiOrderIsTotal<T(!new)>(cmp: (T, T) -> Ordering, a: Semi<T>, b: Semi<T>, c: Semi<T>)
    requires IsTotalOrder(cmp)
    requires a.ptr.live && b.ptr.live && c.ptr.live
    ensures SemiCmp(cmp, a, a) == Equal
    ensures SemiCmp(cmp, a, b) == Less <==> SemiCmp(cmp, b, a) == Greater
    ensures SemiCmp(cmp, a, b) != Greater && SemiCmp(cmp, b, c) != Greater ==> SemiCmp(cmp, a, c) != Greater
  {
    assert cmp(Deref(a), Deref(a)) == Equal;
    assert cmp(Deref(a), Deref(b)) == Less <==> cmp(Deref(b), Deref(a)) == Greater;
    if cmp(Deref(a), Deref(b)) != Greater && cmp(Deref(b), Deref(c)) != Greater {
      assert cmp(Deref(a), Deref(c)) != Greater;
    }
  }

  /** `Borrow<Wrapped<Q>> for Semi<K>`: the wrapped view of the stored key's
      own borrowed form. */
  function BorrowWrapped<K, Q>(borrow: K -> Q, h: Semi<K>): (w: Wrapped<Q>)
    reads h.ptr
    requires h.ptr.live
    ensures w.inner == borrow(Deref(h))
  {
    Wrap(borrow(Deref(h)))
  }

  /** Probing a stored half with a wrapped `Q` compares as the stored key's
      borrowed form does; and when `borrow` agrees with both orders (the
      caller's obligation the adapter cannot check), probing with the
      borrowed form of a key `k` compares exactly as probing with `k`. */
  lemma ProbeComparesAsBorrowed<K, Q>(cmpK: (K, K) -> Ordering, cmpQ: (Q, Q) -> Ordering,
                                      borrow: K -> Q, h: Semi<K>, other: Semi<K>, k: K, q: Q)
    requires h.ptr.live && other.ptr.live
    ensures WrappedCmp(cmpQ, BorrowWrapped(borrow, h), Wrap(q)) == cmpQ(borrow(Deref(h)), q)
    ensures (forall x, y :: cmpQ(borrow(x), borrow(y)) == cmpK(x, y)) ==>
              && WrappedCmp(cmpQ, BorrowWrapped(borrow, h), Wrap(borrow(k))) == cmpK(Deref(h), k)
              && WrappedCmp(cmpQ, BorrowWrapped(borrow, h), BorrowWrapped(borrow, other)) == SemiCmp(cmpK, h, other)
  {
  }
}
