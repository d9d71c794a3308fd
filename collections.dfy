/** The Java collection operations the core relies on, over sequences. A LinkedHashSet and a
    LinkedList are both modelled by the sequence of their elements in iteration order. */
module Collections {

  /** No element occurs twice: the sequence is the iteration order of a set. */
  ghost predicate NoDuplicates<T>(s: seq<T>)
  {
    forall i, j :: 0 <= i < j < |s| ==> s[i] != s[j]
  }

  ghost predicate Disjoint<T>(a: seq<T>, b: seq<T>)
  {
    forall x :: x in a ==> x !in b
  }

  /** LinkedHashSet.add: an element not yet present goes to the end; a present one changes nothing. */
  function Add<T(==)>(s: seq<T>, x: T): (r: seq<T>)
    ensures x in r && (forall y :: y in s ==> y in r) && (forall y :: y in r ==> y in s || y == x)
    ensures |s| <= |r| <= |s| + 1 && r[..|s|] == s
    ensures x !in s ==> r == s + [x]
    ensures NoDuplicates(s) ==> NoDuplicates(r)
  {
    if x in s then s else s + [x]
  }

  /** The position of the first occurrence of x. */
  function IndexOf<T(==)>(s: seq<T>, x: T): (i: nat)
    requires x in s
    ensures i < |s| && s[i] == x && x !in s[..i]
  {
    if s[0] == x then 0 else 1 + IndexOf(s[1..], x)
  }

  /** LinkedHashSet.remove and LinkedList.remove(Object): drops the first occurrence of x, if any. */
  function Remove<T(==)>(s: seq<T>, x: T): (r: seq<T>)
    ensures x !in s ==> r == s
    ensures x in s ==> |r| == |s| - 1
  {
    if s == [] then []
    else if s[0] == x then s[1..]
    else [s[0]] + Remove(s[1..], x)
  }

  /** Removing from a duplicate-free sequence keeps it duplicate-free, and takes out exactly x. */
  lemma {:induction false} RemoveNoDuplicates<T>(s: seq<T>, x: T)
    requires NoDuplicates(s)
    ensures NoDuplicates(Remove(s, x))
    ensures forall y :: y in Remove(s, x) <==> y in s && y != x
  {
    if s != [] {
      var tail := s[1..];
      assert s == [s[0]] + tail;
      assert s[0] !in tail by {
        forall k | 0 <= k < |tail| ensures tail[k] != s[0] { assert tail[k] == s[k + 1]; }
      }
      assert NoDuplicates(tail) by {
        forall i, j | 0 <= i < j < |tail| ensures tail[i] != tail[j] { assert tail[i] == s[i + 1] && tail[j] == s[j + 1]; }
      }
      if s[0] != x {
        RemoveNoDuplicates(tail, x);
        var r := Remove(tail, x);
        var rs := [s[0]] + r;
        assert Remove(s, x) == rs;
        assert s[0] !in r;
        forall i, j | 0 <= i < j < |rs| ensures rs[i] != rs[j] {
          if i == 0 { assert rs[j] == r[j - 1]; } else { assert rs[i] == r[i - 1] && rs[j] == r[j - 1]; }
        }
      }
    }
  }

  /** What is removed is the first occurrence: the elements before and after it stay in order. */
  lemma {:induction false} RemoveFirstOccurrence<T>(s: seq<T>, x: T)
    requires x in s
    ensures Remove(s, x) == s[..IndexOf(s, x)] + s[IndexOf(s, x) + 1..]
  {
    if s[0] != x {
      RemoveFirstOccurrence(s[1..], x);
      var i := IndexOf(s[1..], x);
      assert s[1..][..i] == s[1..i + 1];
      assert s[1..][i + 1..] == s[i + 2..];
      assert [s[0]] + s[1..i + 1] == s[..i + 1];
    }
  }

  /** Removing past a different first element keeps that element at the front. */
  lemma RemoveCons<T>(y: T, t: seq<T>, x: T)
    requires y != x
    ensures Remove([y] + t, x) == [y] + Remove(t, x)
  {
    assert ([y] + t)[1..] == t;
  }

  /** Removing an element that sits right after a prefix without it leaves prefix and suffix. */
  lemma {:induction false} RemoveAfterPrefix<T>(a: seq<T>, x: T, b: seq<T>)
    requires x !in a
    ensures Remove(a + [x] + b, x) == a + b
  {
    if a == [] {
      assert a + [x] + b == [x] + b;
      assert ([x] + b)[1..] == b;
    } else {
      assert x !in a[1..];
      RemoveAfterPrefix(a[1..], x, b);
      SplitHead(a, x, b);
      RemoveCons(a[0], a[1..] + [x] + b, x);
    }
  }

  /** Splitting off the first element of a non-empty prefix. */
  lemma SplitHead<T>(a: seq<T>, x: T, b: seq<T>)
    requires a != []
    ensures a + [x] + b == [a[0]] + (a[1..] + [x] + b)
    ensures a + b == [a[0]] + (a[1..] + b)
  {
    assert a == [a[0]] + a[1..];
  }

  /** The elements satisfying p, in their original order. */
  function Filter<T>(s: seq<T>, p: T -> bool): (r: seq<T>)
    ensures |r| <= |s|
    decreases |s|
  {
    if s == [] then []
    else
      var init := Filter(s[..|s| - 1], p);
      if p(s[|s| - 1]) then init + [s[|s| - 1]] else init
  }

  /** Only elements of the input that satisfy p are kept. */
  lemma {:induction false} FilterSubset<T>(s: seq<T>, p: T -> bool)
    ensures forall x :: x in Filter(s, p) ==> x in s && p(x)
    decreases |s|
  {
    if s != [] {
      var init := s[..|s| - 1];
      FilterSubset(init, p);
      assert forall x :: x in init ==> x in s;
    }
  }

  /** Nothing that satisfies p is dropped. */
  lemma {:induction false} FilterKeeps<T>(s: seq<T>, p: T -> bool, x: T)
    requires x in s && p(x)
    ensures x in Filter(s, p)
    decreases |s|
  {
    if x != s[|s| - 1] {
      assert s == s[..|s| - 1] + [s[|s| - 1]];
      FilterKeeps(s[..|s| - 1], p, x);
    }
  }

  function Not<T>(p: T -> bool): T -> bool
  {
    x => !p(x)
  }

  /** Filtering one more element at the end of the input. */
  lemma FilterSnoc<T>(s: seq<T>, x: T, p: T -> bool)
    ensures Filter(s + [x], p) == if p(x) then Filter(s, p) + [x] else Filter(s, p)
  {
    assert (s + [x])[..|s + [x]| - 1] == s;
  }

  /** One step of removing, while iterating over a snapshot, every element satisfying p: before
      position i only the survivors remain, and from position i on the snapshot is untouched. */
  lemma FilterStep<T>(calls: seq<T>, i: nat, remaining: seq<T>, p: T -> bool)
    requires i < |calls| && NoDuplicates(calls)
    requires remaining == Filter(calls[..i], Not(p)) + calls[i..]
    ensures Filter(calls[..i + 1], p) == if p(calls[i]) then Filter(calls[..i], p) + [calls[i]] else Filter(calls[..i], p)
    ensures (if p(calls[i]) then Remove(remaining, calls[i]) else remaining) == Filter(calls[..i + 1], Not(p)) + calls[i + 1..]
  {
    var pre, c, post := calls[..i], calls[i], calls[i + 1..];
    var kept := Filter(pre, Not(p));
    assert calls[..i + 1] == pre + [c];
    assert calls[i..] == [c] + post;
    FilterSnoc(pre, c, p);
    FilterSnoc(pre, c, Not(p));
    if p(c) {
      assert c !in pre by {
        forall k | 0 <= k < i ensures pre[k] != c { assert pre[k] == calls[k]; }
      }
      FilterSubset(pre, Not(p));
      RemoveAfterPrefix(kept, c, post);
      assert remaining == kept + [c] + post;
    } else {
      assert Filter(pre + [c], Not(p)) == kept + [c];
      assert remaining == kept + [c] + post;
    }
  }

  /** Filtering a duplicate-free sequence gives a duplicate-free sequence. */
  lemma {:induction false} FilterNoDuplicates<T>(s: seq<T>, p: T -> bool)
    requires NoDuplicates(s)
    ensures NoDuplicates(Filter(s, p))
    decreases |s|
  {
    if s != [] {
      var init := s[..|s| - 1];
      var last := s[|s| - 1];
      assert NoDuplicates(init);
      FilterNoDuplicates(init, p);
      FilterSubset(init, p);
      assert last !in init;
      assert last !in Filter(init, p);
    }
  }

  /** Every element is kept either by p or by its negation, so the two filters share out the input. */
  lemma {:induction false} FilterPartition<T>(s: seq<T>, p: T -> bool)
    ensures |Filter(s, p)| + |Filter(s, Not(p))| == |s|
    decreases |s|
  {
    if s != [] {
      FilterPartition(s[..|s| - 1], p);
    }
  }

  /** Filtering one more element at the front of the input. */
  lemma {:induction false} FilterCons<T>(x: T, s: seq<T>, p: T -> bool)
    ensures Filter([x] + s, p) == (if p(x) then [x] else []) + Filter(s, p)
    decreases |s|
  {
    if s != [] {
      var init, last := s[..|s| - 1], s[|s| - 1];
      assert [x] + s == ([x] + init) + [last];
      FilterSnoc([x] + init, last, p);
      FilterSnoc(init, last, p);
      assert s == init + [last];
      FilterCons(x, init, p);
    } else {
      assert [x] + s == [] + [x];
      FilterSnoc([], x, p);
    }
  }

  /** How a pass that removes elements straight from the collection it is iterating over ends:
      the collection's fail-fast iterator either runs out normally or throws
      ConcurrentModificationException at the next step after a removal. */
  datatype Iteration<T> =
    | Completed(remaining: seq<T>, removed: seq<T>)
    | ConcurrentModification(remaining: seq<T>, removed: seq<T>)

  /** The loop `for (x : c) if (p(x)) c.remove(x);` on a LinkedHashSet c: removing x through the
      set invalidates the iterator, so the next step throws unless x was the last element. */
  function RemoveWhileIterating<T>(s: seq<T>, p: T -> bool): (r: Iteration<T>)
    ensures multiset(r.remaining) + multiset(r.removed) == multiset(s)
    ensures |r.remaining| + |r.removed| == |s|
    ensures |r.removed| <= 1
  {
    if s == [] then Completed([], [])
    else
      assert s == [s[0]] + s[1..];
      if p(s[0]) then
        if |s| == 1 then Completed([], [s[0]]) else ConcurrentModification(s[1..], [s[0]])
      else
        match RemoveWhileIterating(s[1..], p)
        case Completed(rest, removed) => Completed([s[0]] + rest, removed)
        case ConcurrentModification(rest, removed) => ConcurrentModification([s[0]] + rest, removed)
  }

  /** The pass runs to the end exactly when no element but possibly the last one is removed. */
  lemma {:induction false} RemoveWhileIteratingCompletes<T>(s: seq<T>, p: T -> bool)
    ensures RemoveWhileIterating(s, p).Completed? <==> forall i :: 0 <= i < |s| - 1 ==> !p(s[i])
  {
    if s != [] && !p(s[0]) {
      RemoveWhileIteratingCompletes(s[1..], p);
      assert forall i :: 1 <= i < |s| - 1 ==> s[i] == s[1..][i - 1];
    }
  }

  /** When the pass does run to the end, it has removed exactly what filtering would. */
  lemma {:induction false} RemoveWhileIteratingFilters<T>(s: seq<T>, p: T -> bool)
    requires RemoveWhileIterating(s, p).Completed?
    ensures RemoveWhileIterating(s, p).remaining == Filter(s, Not(p))
    ensures RemoveWhileIterating(s, p).removed == Filter(s, p)
  {
    if s != [] {
      assert s == [s[0]] + s[1..];
      FilterCons(s[0], s[1..], p);
      FilterCons(s[0], s[1..], Not(p));
      if p(s[0]) {
        assert s[1..] == [];
      } else {
        RemoveWhileIteratingFilters(s[1..], p);
      }
    }
  }

  /** When the first element to be removed is not the last one, the pass removes exactly that
      element and then throws, leaving every other element in the collection, in order. */
  lemma {:induction false} RemoveWhileIteratingThrowsAt<T>(s: seq<T>, p: T -> bool, k: nat)
    requires k < |s| - 1 && p(s[k])
    requires forall i :: 0 <= i < k ==> !p(s[i])
    ensures RemoveWhileIterating(s, p) == ConcurrentModification(s[..k] + s[k + 1..], [s[k]])
  {
    if k == 0 {
      assert s[..0] + s[1..] == s[1..];
    } else {
      var t := s[1..];
      assert forall i :: 0 <= i < k - 1 ==> t[i] == s[i + 1];
      RemoveWhileIteratingThrowsAt(t, p, k - 1);
      DropAt(s, k);
    }
  }

  /** Dropping position k > 0 of a sequence, seen from its tail. */
  lemma DropAt<T>(s: seq<T>, k: nat)
    requires 0 < k < |s|
    ensures [s[0]] + (s[1..][..k - 1] + s[1..][k..]) == s[..k] + s[k + 1..]
  {
    assert s[1..][..k - 1] == s[1..k];
    assert s[1..][k..] == s[k + 1..];
    assert s[..k] == [s[0]] + s[1..k];
  }
}
