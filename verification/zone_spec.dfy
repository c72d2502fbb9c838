/** Value-level specification of the Play Mode Zone's name-keyed element table.

    The zone is an ordered sequence of children; the injector finds an element by the
    first child whose name matches, and its three request handlers add if absent,
    remove then append, or remove the first match. The functions below state those
    effects on the sequence of child names; the imperative handlers are proved
    against them. */
module ZoneSpec {

  /** Position of the first `x` in `s`, or -1 when there is none. */
  function FirstIndex<T(==)>(s: seq<T>, x: T): (r: int)
    ensures -1 <= r < |s|
    ensures r == -1 <==> x !in s
    ensures 0 <= r ==> s[r] == x && x !in s[..r]
  {
    if s == [] then -1
    else if s[0] == x then 0
    else
      var k := FirstIndex(s[1..], x);
      if k == -1 then -1
      else
        assert s[..k + 1] == [s[0]] + s[1..][..k];
        k + 1
  }

  /** `s` without the element at position `k`; every other element keeps its relative order. */
  function RemoveAt<T>(s: seq<T>, k: nat): (r: seq<T>)
    requires k < |s|
    ensures |r| == |s| - 1
    ensures forall i :: 0 <= i < k ==> r[i] == s[i]
    ensures forall i :: k <= i < |r| ==> r[i] == s[i + 1]
  {
    s[..k] + s[k + 1..]
  }

  /** No value occurs twice in `s`. */
  predicate Distinct<T(==)>(s: seq<T>) {
    forall i, j :: 0 <= i < j < |s| ==> s[i] != s[j]
  }

  /** Remove handler: drop the first entry equal to `n`; leave `names` alone when there is none. */
  function RemoveFirst(names: seq<string>, n: string): (r: seq<string>)
    ensures n !in names ==> r == names
    ensures n in names ==> |r| == |names| - 1
    ensures multiset(r) == multiset(names) - multiset{n}
  {
    var k := FirstIndex(names, n);
    if k == -1 then names
    else
      assert names == names[..k] + [n] + names[k + 1..];
      RemoveAt(names, k)
  }

  /** Add handler: append `n` only when no entry has that name yet. */
  function AddIfAbsent(names: seq<string>, n: string): (r: seq<string>)
    ensures n in r
    ensures n in names ==> r == names
    ensures n !in names ==> |r| == |names| + 1 && r[..|names|] == names && r[|names|] == n
  {
    if n in names then names else names + [n]
  }

  /** Add-or-replace handler: drop the first entry named `n`, then append `n` at the end.
      On a present name this moves that entry to the end; the others keep their order. */
  function AddOrReplace(names: seq<string>, n: string): (r: seq<string>)
    ensures |r| == if n in names then |names| else |names| + 1
    ensures r[|r| - 1] == n
    ensures multiset(r) == if n in names then multiset(names) else multiset(names) + multiset{n}
  {
    RemoveFirst(names, n) + [n]
  }

  /** Removing from a sequence without repetitions leaves one without repetitions. */
  lemma {:induction false} RemoveAtKeepsDistinct<T>(s: seq<T>, k: nat)
    requires k < |s| && Distinct(s)
    ensures Distinct(RemoveAt(s, k))
    ensures forall x :: x in RemoveAt(s, k) <==> x in s && x != s[k]
  {
    var r := RemoveAt(s, k);
    forall i, j | 0 <= i < j < |r| ensures r[i] != r[j] {
      var i' := if i < k then i else i + 1;
      var j' := if j < k then j else j + 1;
      assert r[i] == s[i'] && r[j] == s[j'] && i' < j';
    }
    forall x ensures x in r <==> x in s && x != s[k] {
      if x in r {
        var i :| 0 <= i < |r| && r[i] == x;
        var i' := if i < k then i else i + 1;
        assert s[i'] == x && i' != k;
      }
      if x in s && x != s[k] {
        var i :| 0 <= i < |s| && s[i] == x;
        assert i != k;
        var i2 := if i < k then i else i - 1;
        assert r[i2] == x;
      }
    }
  }

  /** In a sequence without repetitions, the first index of an element is its only index. */
  lemma FirstIndexOfDistinct<T>(s: seq<T>, k: nat)
    requires k < |s| && Distinct(s)
    ensures FirstIndex(s, s[k]) == k
  {
  }

  /** All three handlers keep the names in the zone pairwise distinct, and after a
      remove on a zone with distinct names the name is gone. */
  lemma {:induction false} HandlersKeepNamesDistinct(names: seq<string>, n: string)
    requires Distinct(names)
    ensures Distinct(RemoveFirst(names, n)) && n !in RemoveFirst(names, n)
    ensures Distinct(AddIfAbsent(names, n))
    ensures Distinct(AddOrReplace(names, n))
  {
    var k := FirstIndex(names, n);
    if k != -1 {
      RemoveAtKeepsDistinct(names, k);
    }
    var r := RemoveFirst(names, n);
    assert n !in r;
    var a := r + [n];
    forall i, j | 0 <= i < j < |a| ensures a[i] != a[j] {
      if j == |r| {
        assert a[i] == r[i];
      }
    }
    var b := AddIfAbsent(names, n);
    if n !in names {
      forall i, j | 0 <= i < j < |b| ensures b[i] != b[j] {
        if j == |names| {
          assert b[i] == names[i];
        }
      }
    }
  }

  /** Removing a name that was just added (because it was absent) restores the zone. */
  lemma RemoveUndoesAdd(names: seq<string>, n: string)
    requires n !in names
    ensures RemoveFirst(AddIfAbsent(names, n), n) == names
  {
    var a := names + [n];
    assert a[..|names|] == names;
    assert FirstIndex(a, n) == |names|;
  }

  /** Removal finds the first entry with the name: with none in `p`, the one right
      after `p` goes and everything else stays in place. */
  lemma RemoveFirstAfterPrefix(p: seq<string>, n: string, q: seq<string>)
    requires n !in p
    ensures RemoveFirst(p + [n] + q, n) == p + q
  {
    var s := p + [n] + q;
    assert s[..|p|] == p;
    FirstIndexIsFirst(s, n, |p|);
    assert s[..|p|] + s[|p| + 1..] == p + q;
  }

  /** An occurrence with none before it is the one `FirstIndex` finds. */
  lemma {:induction false} FirstIndexIsFirst<T>(s: seq<T>, x: T, i: nat)
    requires i < |s| && s[i] == x && x !in s[..i]
    ensures FirstIndex(s, x) == i
  {
    if i > 0 {
      assert s[0] == s[..i][0];
      assert s[1..][..i - 1] == s[..i][1..];
      FirstIndexIsFirst(s[1..], x, i - 1);
    }
  }

  /** A second add of the same name changes nothing: adding is idempotent. */
  lemma AddIfAbsentIdempotent(names: seq<string>, n: string)
    ensures AddIfAbsent(AddIfAbsent(names, n), n) == AddIfAbsent(names, n)
  {
  }

  /** Replacing a name that occurs at most once is idempotent: the second replace takes
      out the entry the first one appended and appends it again. With a duplicate it need not
      be: see `ReplaceNeedsUniqueName`. */
  lemma ReplaceIsIdempotentOnUniqueName(names: seq<string>, n: string)
    requires multiset(names)[n] <= 1
    ensures AddOrReplace(AddOrReplace(names, n), n) == AddOrReplace(names, n)
  {
    var r := RemoveFirst(names, n);
    UniqueNameGoneAfterRemove(names, n);
    assert AddOrReplace(names, n) == r + [n];
    RemoveFirstAfterPrefix(r, n, []);
    assert r + [n] + [] == r + [n];
    assert RemoveFirst(r + [n], n) == r;
  }

  /** A name that occurs at most once is absent after one removal. */
  lemma UniqueNameGoneAfterRemove(names: seq<string>, n: string)
    requires multiset(names)[n] <= 1
    ensures n !in RemoveFirst(names, n)
  {
    assert multiset(RemoveFirst(names, n))[n] == 0;
  }

  /** The at-most-once condition of `ReplaceIsIdempotentOnUniqueName` is needed. With `n`
      twice, as in `[n] + p + [n] + q`, the first replace moves the leading copy to the
      end; the second takes out the copy the first one left behind, so whenever `q` is
      not empty the names are reordered again. */
  lemma ReplaceNeedsUniqueName(n: string, p: seq<string>, q: seq<string>)
    requires n !in p && n !in q && q != []
    ensures AddOrReplace([n] + p + [n] + q, n) == p + [n] + q + [n]
    ensures AddOrReplace(p + [n] + q + [n], n) == p + q + [n, n]
    ensures AddOrReplace(AddOrReplace([n] + p + [n] + q, n), n)
         != AddOrReplace([n] + p + [n] + q, n)
  {
    var once := [n] + p + [n] + q;
    var twice := p + [n] + q + [n];
    assert [] + [n] + (p + [n] + q) == once && [] + (p + [n] + q) + [n] == twice;
    assert p + [n] + (q + [n]) == twice && p + (q + [n]) + [n] == p + q + [n, n];
    assert (p + q + [n, n])[|p|] == q[0] != n == twice[|p|];
    ReplaceAfterPrefix([], n, p + [n] + q);
    ReplaceAfterPrefix(p, n, q + [n]);
  }

  /** A replace whose name first occurs right after `p` moves that entry to the end. */
  lemma ReplaceAfterPrefix(p: seq<string>, n: string, q: seq<string>)
    requires n !in p
    ensures AddOrReplace(p + [n] + q, n) == p + q + [n]
  {
    RemoveFirstAfterPrefix(p, n, q);
  }
}
