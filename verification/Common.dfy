/** Small vocabulary shared by the other modules. */
module Common {

  datatype Option<+T> = None | Some(value: T)

  /** The sequence `s` without its element at position `i`. */
  function RemoveAt<T>(s: seq<T>, i: nat): (r: seq<T>)
    requires i < |s|
    ensures |r| == |s| - 1
    ensures forall k :: 0 <= k < i ==> r[k] == s[k]
    ensures forall k :: i <= k < |r| ==> r[k] == s[k + 1]
  {
    s[..i] + s[i + 1..]
  }

  /** The elements of `s` that satisfy `keep`, in order. */
  function Filter<T(!new)>(keep: T -> bool, s: seq<T>): (r: seq<T>)
    ensures |r| <= |s|
    ensures forall x :: x in r <==> x in s && keep(x)
  {
    if s == [] then []
    else if keep(s[0]) then [s[0]] + Filter(keep, s[1..])
    else Filter(keep, s[1..])
  }

  lemma {:induction false} FilterConcat<T(!new)>(keep: T -> bool, a: seq<T>, b: seq<T>)
    ensures Filter(keep, a + b) == Filter(keep, a) + Filter(keep, b)
  {
    if a == [] {
      assert a + b == b;
    } else {
      assert (a + b)[1..] == a[1..] + b;
      FilterConcat(keep, a[1..], b);
    }
  }

  ghost predicate Distinct<T(!new)>(s: seq<T>) {
    forall i, j :: 0 <= i < j < |s| ==> s[i] != s[j]
  }

  lemma {:induction false} FilterDistinct<T(!new)>(keep: T -> bool, s: seq<T>)
    requires Distinct(s)
    ensures Distinct(Filter(keep, s))
  {
    if s != [] {
      assert forall k :: 0 <= k < |s[1..]| ==> s[1..][k] == s[k + 1];
      FilterDistinct(keep, s[1..]);
      assert s[0] !in s[1..];
    }
  }

  /** The element at `n` is kept at the place given by the kept ones before it. */
  lemma FilterPlace<T(!new)>(keep: T -> bool, s: seq<T>, n: nat)
    requires n < |s| && keep(s[n])
    ensures |Filter(keep, s[..n])| < |Filter(keep, s)|
    ensures Filter(keep, s)[|Filter(keep, s[..n])|] == s[n]
    ensures Filter(keep, s)[..|Filter(keep, s[..n])|] == Filter(keep, s[..n])
  {
    assert s == s[..n] + s[n..];
    FilterConcat(keep, s[..n], s[n..]);
  }

  lemma {:induction false} FilterMono<T(!new)>(p: T -> bool, q: T -> bool, s: seq<T>)
    requires forall x :: x in s && p(x) ==> q(x)
    ensures |Filter(p, s)| <= |Filter(q, s)|
    ensures (exists x :: x in s && q(x) && !p(x)) ==> |Filter(p, s)| < |Filter(q, s)|
  {
    if s != [] {
      FilterMono(p, q, s[1..]);
    }
  }

  lemma TailDistinct<T(!new)>(s: seq<T>)
    requires s != [] && Distinct(s)
    ensures Distinct(s[1..]) && s[0] !in s[1..]
    ensures forall x :: x in s <==> x == s[0] || x in s[1..]
  {
  }

  function ToSet<T>(s: seq<T>): set<T> {
    set x | x in s
  }

  /** A duplicate-free sequence has as many elements as the set of its elements. */
  lemma {:induction false} DistinctSize<T(!new)>(s: seq<T>)
    requires Distinct(s)
    ensures |ToSet(s)| == |s|
  {
    if s != [] {
      var front := s[..|s| - 1];
      DistinctSize(front);
      assert s == front + [s[|s| - 1]];
      assert ToSet(s) == ToSet(front) + {s[|s| - 1]};
      assert s[|s| - 1] !in front;
    } else {
      assert ToSet(s) == {};
    }
  }

  lemma {:induction false} SubsetSize<T>(a: set<T>, b: set<T>)
    requires a <= b
    ensures |a| <= |b|
    ensures |a| == |b| ==> a == b
  {
    if a != {} {
      var x :| x in a;
      SubsetSize(a - {x}, b - {x});
    }
  }

  /** A longer duplicate-free sequence has an element that a shorter one lacks. */
  lemma SomeOutside<T(!new)>(a: seq<T>, b: seq<T>)
    requires Distinct(a) && Distinct(b) && |a| > |b|
    ensures exists x :: x in a && x !in b
  {
    DistinctSize(a);
    DistinctSize(b);
    if forall x :: x in a ==> x in b {
      SubsetSize(ToSet(a), ToSet(b));
    }
  }
}
