/** Option and the two list-building shapes of the source: keep-if (`if p(x): out.append(x)`)
    and build-if (`if ok: out.append(make(x))`). Both are defined on the last element, so that a
    loop that walks a list from the front appends exactly what one more unfolding adds. */
module Lists {

  datatype Option<+T> = None | Some(value: T)

  /** The elements of `xs` that satisfy `p`, in their order in `xs`, duplicates kept. */
  function Filter<T(!new)>(xs: seq<T>, p: T -> bool): (r: seq<T>)
    ensures |r| <= |xs|
    ensures forall x {:trigger x in r} :: x in r <==> x in xs && p(x)
    decreases |xs|
  {
    if xs == [] then []
    else
      var init, last := xs[..|xs| - 1], xs[|xs| - 1];
      assert xs == init + [last];
      Filter(init, p) + (if p(last) then [last] else [])
  }

  /** Filtering a concatenation filters each part and keeps the parts in order. */
  lemma {:induction false} FilterAppend<T(!new)>(a: seq<T>, b: seq<T>, p: T -> bool)
    ensures Filter(a + b, p) == Filter(a, p) + Filter(b, p)
    decreases |b|
  {
    if b == [] {
      assert a + b == a;
    } else {
      var init, last := b[..|b| - 1], b[|b| - 1];
      assert (a + b)[..|a + b| - 1] == a + init;
      FilterAppend(a, init, p);
    }
  }

  /** Filtering a single element. */
  lemma FilterOne<T(!new)>(x: T, p: T -> bool)
    ensures Filter([x], p) == if p(x) then [x] else []
  {
    assert [x][..0] == [];
  }

  /** Filtering one element more. */
  lemma FilterSnoc<T(!new)>(xs: seq<T>, i: nat, p: T -> bool)
    requires i < |xs|
    ensures Filter(xs[..i + 1], p) == Filter(xs[..i], p) + (if p(xs[i]) then [xs[i]] else [])
  {
    assert xs[..i + 1][..i] == xs[..i];
  }

  /** The values `f` produces on the elements of `xs`, in order, skipping the elements where it gives None. */
  function Collect<T(!new), U(!new)>(xs: seq<T>, f: T -> Option<U>): (r: seq<U>)
    ensures |r| <= |xs|
    ensures forall y {:trigger y in r} :: y in r ==> exists x :: x in xs && f(x) == Some(y)
    ensures forall x {:trigger x in xs} :: x in xs && f(x).Some? ==> f(x).value in r
    decreases |xs|
  {
    if xs == [] then []
    else
      var init, last := xs[..|xs| - 1], xs[|xs| - 1];
      assert xs == init + [last];
      Collect(init, f) + (match f(last) case Some(y) => [y] case None => [])
  }

  /** Collecting over a single element. */
  lemma CollectOne<T(!new), U(!new)>(x: T, f: T -> Option<U>)
    ensures Collect([x], f) == match f(x) case Some(y) => [y] case None => []
  {
    assert [x][..0] == [];
  }

  /** Collecting over one element more. */
  lemma CollectSnoc<T(!new), U(!new)>(xs: seq<T>, i: nat, f: T -> Option<U>)
    requires i < |xs|
    ensures Collect(xs[..i + 1], f) == Collect(xs[..i], f) + (match f(xs[i]) case Some(y) => [y] case None => [])
  {
    assert xs[..i + 1][..i] == xs[..i];
  }

  /** Two tests that agree on every element of `xs` keep the same elements. */
  lemma {:induction false} FilterCongruent<T(!new)>(xs: seq<T>, p: T -> bool, q: T -> bool)
    requires forall x :: x in xs ==> p(x) == q(x)
    ensures Filter(xs, p) == Filter(xs, q)
    decreases |xs|
  {
    if xs != [] {
      var init := xs[..|xs| - 1];
      assert forall x :: x in init ==> x in xs;
      FilterCongruent(init, p, q);
    }
  }

  /** Nothing is kept when no element passes the test. */
  lemma {:induction false} FilterKeepsNone<T(!new)>(xs: seq<T>, p: T -> bool)
    requires forall x :: x in xs ==> !p(x)
    ensures Filter(xs, p) == []
    decreases |xs|
  {
    if xs != [] {
      var init := xs[..|xs| - 1];
      assert forall x :: x in init ==> x in xs;
      assert xs[|xs| - 1] in xs;
      FilterKeepsNone(init, p);
    }
  }

  /** Nothing is collected when `f` gives None on every element. */
  lemma CollectNone<T(!new), U(!new)>(xs: seq<T>, f: T -> Option<U>)
    requires forall x :: x in xs ==> f(x).None?
    ensures Collect(xs, f) == []
  {
  }
}
