/** Sequence operations the CLI borrows from Ruby's Array: `select`, the
    position of an element, and the set intersection `a & b`. */
module Lists {

  predicate Distinct<T(==)>(s: seq<T>) {
    forall i, j | 0 <= i < j < |s| :: s[i] != s[j]
  }

  /** Ruby's `s.select { |x| keep(x) }`: the kept elements, in their order. */
  function Filter<T(==,!new)>(s: seq<T>, keep: T -> bool): (r: seq<T>)
    ensures |r| <= |s|
    ensures forall x :: x in r <==> x in s && keep(x)
    ensures Distinct(s) ==> Distinct(r)
  {
    if s == [] then []
    else
      var init := Filter(s[..|s| - 1], keep);
      var x := s[|s| - 1];
      assert forall y | y in s[..|s| - 1] :: y in s;
      assert Distinct(s) ==> x !in s[..|s| - 1];
      if keep(x) then init + [x] else init
  }

  /** Selecting from a concatenation selects from each part. */
  lemma {:induction false} FilterAppend<T(!new)>(a: seq<T>, b: seq<T>, keep: T -> bool)
    ensures Filter(a + b, keep) == Filter(a, keep) + Filter(b, keep)
    decreases |b|
  {
    if b == [] {
      assert a + b == a;
    } else {
      var n := |b| - 1;
      assert (a + b)[..|a + b| - 1] == a + b[..n];
      assert (a + b)[|a + b| - 1] == b[n];
      FilterAppend(a, b[..n], keep);
    }
  }

  /** Selecting from a sequence with one more element at its end. */
  lemma FilterSnoc<T(!new)>(s: seq<T>, x: T, keep: T -> bool)
    ensures Filter(s + [x], keep) == if keep(x) then Filter(s, keep) + [x] else Filter(s, keep)
  {
    assert (s + [x])[..|s|] == s;
  }

  /** The position of the first occurrence of `x` in `s`. */
  function IndexOf<T(==)>(s: seq<T>, x: T): (i: nat)
    requires x in s
    ensures i < |s| && s[i] == x && x !in s[..i]
  {
    if s[0] == x then 0 else 1 + IndexOf(s[1..], x)
  }

  lemma {:induction false} IndexOfAppend<T>(s: seq<T>, x: T, y: T)
    requires y in s
    ensures IndexOf(s + [x], y) == IndexOf(s, y)
  {
    if s[0] != y {
      assert (s + [x])[1..] == s[1..] + [x];
      IndexOfAppend(s[1..], x, y);
    }
  }

  lemma IndexOfNew<T>(s: seq<T>, x: T)
    requires x !in s
    ensures IndexOf(s + [x], x) == |s|
  {
    var i := IndexOf(s + [x], x);
    assert (s + [x])[..|s|] == s;
  }

  /** Ruby's `a & b`: the elements of `a` that also occur in `b`, each once,
      in the order of their first occurrence in `a`. */
  function Intersect<T(==,!new)>(a: seq<T>, b: seq<T>): (r: seq<T>)
    ensures forall x :: x in r <==> x in a && x in b
  {
    if a == [] then []
    else
      var init := Intersect(a[..|a| - 1], b);
      var x := a[|a| - 1];
      assert a == a[..|a| - 1] + [x];
      if x in b && x !in init then init + [x] else init
  }

  /** The intersection keeps the order of `a` and holds no element twice:
      each element stands after every element that first occurs earlier in
      `a`. Together with membership this determines `a & b` completely. */
  lemma {:induction false} IntersectKeepsOrder<T(!new)>(a: seq<T>, b: seq<T>)
    ensures Distinct(Intersect(a, b))
    ensures forall i, j | 0 <= i < j < |Intersect(a, b)| ::
      Intersect(a, b)[i] in a && Intersect(a, b)[j] in a &&
      IndexOf(a, Intersect(a, b)[i]) < IndexOf(a, Intersect(a, b)[j])
  {
    if a != [] {
      var a' := a[..|a| - 1];
      var x := a[|a| - 1];
      assert a == a' + [x];
      var init := Intersect(a', b);
      IntersectKeepsOrder(a', b);
      forall y | y in init
        ensures IndexOf(a, y) == IndexOf(a', y) < |a'|
      {
        IndexOfAppend(a', x, y);
      }
      if x in b && x !in init {
        assert x !in a';
        IndexOfNew(a', x);
        var r := init + [x];
        forall i, j | 0 <= i < j < |r|
          ensures r[i] in a && r[j] in a && IndexOf(a, r[i]) < IndexOf(a, r[j])
        {
          if j < |init| {
            assert r[i] == init[i] && r[j] == init[j];
          } else {
            assert r[i] == init[i];
          }
        }
      }
    }
  }
}
