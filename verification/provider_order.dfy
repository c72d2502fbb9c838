/** The ordering step of `RunInjector`: each discovered provider type is paired with its
    order (the attribute's `Order`, or 0 without the attribute) and the pairs are sorted
    by order with LINQ's `OrderBy`, a stable sort. `StableSort` is that sort; its
    contract and the lemmas below pin it down as the one sequence that is sorted by
    order and keeps, for every order value, the discovery order of the providers
    that have it. */
module ProviderOrder {
  import opened ProviderTypes

  /** The anonymous `{ Type, Order }` pair built for each discovered provider type. */
  datatype ProviderDescriptor = ProviderDescriptor(providerType: ProviderType, order: int)

  /** `attribute?.Order ?? 0`: a type without the attribute sorts like one whose
      attribute was given no argument. */
  function OrderOf(t: ProviderType): (order: int)
    ensures t.attribute.None? ==> order == PlayModeZoneElementProviderAttribute().order
    ensures t.attribute.Some? ==> order == t.attribute.value.order
  {
    match t.attribute
    case Some(attribute) => attribute.order
    case None => 0
  }

  /** The `Select` step: one descriptor per discovered type, in discovery order. */
  function Describe(types: seq<ProviderType>): (ds: seq<ProviderDescriptor>)
    ensures |ds| == |types|
    ensures forall i :: 0 <= i < |ds| ==> ds[i].providerType == types[i] && ds[i].order == OrderOf(types[i])
  {
    seq(|types|, i requires 0 <= i < |types| => ProviderDescriptor(types[i], OrderOf(types[i])))
  }

  /** Non-decreasing in order. */
  predicate Sorted(ds: seq<ProviderDescriptor>) {
    forall i, j :: 0 <= i < j < |ds| ==> ds[i].order <= ds[j].order
  }

  /** The descriptors with order `k`, in the order they appear in `ds`. */
  function WithOrder(ds: seq<ProviderDescriptor>, k: int): (r: seq<ProviderDescriptor>)
    ensures forall d :: d in r ==> d in ds && d.order == k
  {
    if ds == [] then []
    else (if ds[0].order == k then [ds[0]] else []) + WithOrder(ds[1..], k)
  }

  /** Insert `d` in front of the first descriptor whose order is not smaller, so that
      `d` precedes every descriptor of equal order already in `ds`. */
  function Insert(d: ProviderDescriptor, ds: seq<ProviderDescriptor>): (r: seq<ProviderDescriptor>)
    ensures |r| == |ds| + 1
    ensures r[0] == d || (ds != [] && r[0] == ds[0])
    ensures multiset(r) == multiset(ds) + multiset{d}
  {
    if ds == [] || d.order <= ds[0].order then [d] + ds
    else
      assert ds == [ds[0]] + ds[1..];
      [ds[0]] + Insert(d, ds[1..])
  }

  /** Inserting into a sorted sequence keeps it sorted. */
  lemma {:induction false} InsertKeepsSorted(d: ProviderDescriptor, ds: seq<ProviderDescriptor>)
    requires Sorted(ds)
    ensures Sorted(Insert(d, ds))
  {
    if ds != [] && d.order > ds[0].order {
      InsertKeepsSorted(d, ds[1..]);
    }
  }

  /** Inserting `d` puts it first among the descriptors of its order and leaves the
      descriptors of every other order as they were. */
  lemma {:induction false} InsertIsStable(d: ProviderDescriptor, ds: seq<ProviderDescriptor>, k: int)
    ensures WithOrder(Insert(d, ds), k) == if d.order == k then [d] + WithOrder(ds, k) else WithOrder(ds, k)
  {
    var r := Insert(d, ds);
    if ds == [] || d.order <= ds[0].order {
      assert r[1..] == ds;
    } else {
      InsertIsStable(d, ds[1..], k);
      assert r[1..] == Insert(d, ds[1..]);
      assert ds == [ds[0]] + ds[1..];
    }
  }

  /** `OrderBy(provider => provider.Order)`: stable sort by order. */
  function StableSort(ds: seq<ProviderDescriptor>): (r: seq<ProviderDescriptor>)
    ensures |r| == |ds|
    ensures Sorted(r)
    ensures multiset(r) == multiset(ds)
    ensures forall k :: WithOrder(r, k) == WithOrder(ds, k)
  {
    if ds == [] then []
    else
      var rest := StableSort(ds[1..]);
      assert ds == [ds[0]] + ds[1..];
      InsertKeepsSorted(ds[0], rest);
      assert forall k :: WithOrder(Insert(ds[0], rest), k) == WithOrder(ds, k) by {
        forall k ensures WithOrder(Insert(ds[0], rest), k) == WithOrder(ds, k) {
          InsertIsStable(ds[0], rest, k);
        }
      }
      Insert(ds[0], rest)
  }

  /** The providers in the order their elements are appended to the zone. */
  function SortedProviders(types: seq<ProviderType>): (r: seq<ProviderDescriptor>)
    ensures |r| == |types|
    ensures Sorted(r)
    ensures forall k :: WithOrder(r, k) == WithOrder(Describe(types), k)
    ensures forall d :: d in r ==> d.providerType in types
  {
    var r := StableSort(Describe(types));
    assert forall d :: d in r ==> d in multiset(Describe(types));
    r
  }

  /** The first descriptor of a sorted sequence has the smallest order in it. */
  lemma {:induction false} SortedHeadIsMinimal(ds: seq<ProviderDescriptor>, d: ProviderDescriptor)
    requires Sorted(ds) && d in ds
    ensures ds[0].order <= d.order
  {
    var i :| 0 <= i < |ds| && ds[i] == d;
    if i > 0 {
      assert ds[0].order <= ds[i].order;
    }
  }

  /** Every descriptor with order `k` in `ds` shows up in `WithOrder(ds, k)`. */
  lemma {:induction false} InWithOrder(ds: seq<ProviderDescriptor>, d: ProviderDescriptor)
    requires d in ds
    ensures d in WithOrder(ds, d.order)
  {
    if ds[0] != d {
      assert d in ds[1..];
      InWithOrder(ds[1..], d);
    }
  }

  /** A non-empty sequence has at least one descriptor of its first descriptor's order. */
  lemma HeadHasItsOrder(ds: seq<ProviderDescriptor>)
    requires ds != []
    ensures WithOrder(ds, ds[0].order) != []
  {
  }

  /** Sortedness plus per-order discovery order determine the sequence: any stable sort
      by order yields exactly `StableSort`'s result. */
  lemma {:induction false} StableSortIsUnique(a: seq<ProviderDescriptor>, b: seq<ProviderDescriptor>)
    requires Sorted(a) && Sorted(b)
    requires forall k :: WithOrder(a, k) == WithOrder(b, k)
    ensures a == b
  {
    if a == [] || b == [] {
      var c := if a == [] then b else a;
      if c != [] {
        HeadHasItsOrder(c);
      }
    } else {
      InWithOrder(a, a[0]);
      InWithOrder(b, b[0]);
      assert a[0] in b by { assert a[0] in WithOrder(b, a[0].order); }
      assert b[0] in a by { assert b[0] in WithOrder(a, b[0].order); }
      SortedHeadIsMinimal(a, b[0]);
      SortedHeadIsMinimal(b, a[0]);
      var m := a[0].order;
      assert WithOrder(a, m)[0] == a[0];
      assert WithOrder(b, m)[0] == b[0];
      assert a[0] == b[0];
      forall k ensures WithOrder(a[1..], k) == WithOrder(b[1..], k) {
        var p := if m == k then [a[0]] else [];
        assert WithOrder(a, k) == p + WithOrder(a[1..], k);
        assert WithOrder(b, k) == p + WithOrder(b[1..], k);
        assert WithOrder(a[1..], k) == WithOrder(a, k)[|p|..];
        assert WithOrder(b[1..], k) == WithOrder(b, k)[|p|..];
      }
      StableSortIsUnique(a[1..], b[1..]);
      assert a == [a[0]] + a[1..] && b == [b[0]] + b[1..];
    }
  }

  /** Any sequence that is sorted by order and keeps the per-order discovery order of
      `ds` is what `StableSort` returns for `ds`. */
  lemma StableSortCharacterized(ds: seq<ProviderDescriptor>, t: seq<ProviderDescriptor>)
    requires Sorted(t)
    requires forall k :: WithOrder(t, k) == WithOrder(ds, k)
    ensures StableSort(ds) == t
  {
    StableSortIsUnique(StableSort(ds), t);
  }
}
