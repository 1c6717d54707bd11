/** Generic sequence helpers shared by the model: Python's list comprehension
    with a condition (`Filter`), list flattening (`Concat`) and `sep.join(...)`
    (`Join`). */
module Seqs {

  /** `[x for x in xs if p(x)]`, written from the back so that a loop that
      walks `xs` left to right extends it one element at a time. */
  function Filter<T>(xs: seq<T>, p: T -> bool): (r: seq<T>)
    ensures |r| <= |xs|
  {
    if xs == [] then []
    else
      var init, last := xs[..|xs| - 1], xs[|xs| - 1];
      Filter(init, p) + (if p(last) then [last] else [])
  }

  /** Extending the input by one element extends the result by that element
      when it passes the test. */
  lemma FilterSnoc<T>(xs: seq<T>, x: T, p: T -> bool)
    ensures Filter(xs + [x], p) == Filter(xs, p) + (if p(x) then [x] else [])
  {
    assert (xs + [x])[..|xs|] == xs;
  }

  /** A test every element passes keeps the whole sequence. */
  lemma {:induction false} KeepAll<T>(xs: seq<T>, p: T -> bool)
    ensures (forall x | x in xs :: p(x)) ==> Filter(xs, p) == xs
  {
    if xs != [] {
      var init, last := xs[..|xs| - 1], xs[|xs| - 1];
      assert xs == init + [last];
      KeepAll(init, p);
      FilterSnoc(init, last, p);
    }
  }

  /** A test no element passes keeps nothing. */
  lemma {:induction false} DropAll<T>(xs: seq<T>, p: T -> bool)
    ensures (forall x | x in xs :: !p(x)) ==> Filter(xs, p) == []
  {
    if xs != [] {
      var init, last := xs[..|xs| - 1], xs[|xs| - 1];
      assert xs == init + [last];
      DropAll(init, p);
      FilterSnoc(init, last, p);
    }
  }

  /** Filtering three elements of which the middle one fails the test. */
  lemma FilterDropsMiddle<T>(x: T, y: T, z: T, p: T -> bool)
    requires p(x) && !p(y) && p(z)
    ensures Filter([x, y, z], p) == [x, z]
  {
    assert Filter([x], p) == [x] by {
      FilterSnoc([], x, p);
      assert [] + [x] == [x];
    }
    assert Filter([x, y], p) == [x] by {
      FilterSnoc([x], y, p);
      assert [x] + [y] == [x, y];
    }
    FilterSnoc([x, y], z, p);
    assert [x, y] + [z] == [x, y, z];
  }

  /** The elements kept are exactly the elements of `xs` that pass `p`. */
  lemma {:induction false} FilterMembership<T>(xs: seq<T>, p: T -> bool, x: T)
    ensures x in Filter(xs, p) <==> x in xs && p(x)
  {
    if xs != [] {
      var init, last := xs[..|xs| - 1], xs[|xs| - 1];
      assert xs == init + [last];
      FilterMembership(init, p, x);
    }
  }

  /** `xs` is obtained from `ys` by deleting elements: order is preserved. */
  predicate IsSubsequence<T(==)>(xs: seq<T>, ys: seq<T>)
    decreases |ys|
  {
    if xs == [] then true
    else if ys == [] then false
    else if xs[|xs| - 1] == ys[|ys| - 1] then IsSubsequence(xs[..|xs| - 1], ys[..|ys| - 1])
    else IsSubsequence(xs, ys[..|ys| - 1])
  }

  lemma {:induction false} FilterIsSubsequence<T>(xs: seq<T>, p: T -> bool)
    ensures IsSubsequence(Filter(xs, p), xs)
  {
    if xs != [] {
      var init, last := xs[..|xs| - 1], xs[|xs| - 1];
      FilterIsSubsequence(init, p);
      var fi := Filter(init, p);
      if p(last) {
        assert Filter(xs, p) == fi + [last];
        assert (fi + [last])[..|fi|] == fi;
      } else {
        assert Filter(xs, p) == fi;
        if fi != [] {
          var y := fi[|fi| - 1];
          assert y in fi;
          FilterMembership(init, p, y);
          assert y != last;
        }
      }
    }
  }

  /** Flattening a list of lists: `all.extend(page)` for every page in turn. */
  function Concat<T>(xss: seq<seq<T>>): (r: seq<T>)
  {
    if xss == [] then [] else xss[0] + Concat(xss[1..])
  }

  /** `sep.join(parts)`. */
  function Join<T>(sep: seq<T>, parts: seq<seq<T>>): seq<T>
  {
    if parts == [] then []
    else if |parts| == 1 then parts[0]
    else parts[0] + sep + Join(sep, parts[1..])
  }

  /** Appending one more part adds exactly one separator and that part at the end. */
  lemma {:induction false} JoinAppend<T>(sep: seq<T>, parts: seq<seq<T>>, last: seq<T>)
    requires parts != []
    ensures Join(sep, parts + [last]) == Join(sep, parts) + sep + last
  {
    if |parts| == 1 {
      assert parts + [last] == [parts[0], last];
    } else {
      assert (parts + [last])[1..] == parts[1..] + [last];
      JoinAppend(sep, parts[1..], last);
    }
  }

  /** Joining four parts puts one separator between each neighbouring pair. */
  lemma JoinFour<T>(sep: seq<T>, a: seq<T>, b: seq<T>, c: seq<T>, d: seq<T>)
    ensures Join(sep, [a, b, c, d]) == a + sep + b + sep + c + sep + d
  {
    var parts := [a, b, c, d];
    assert parts[1..] == [b, c, d] && parts[1..][1..] == [c, d] && parts[1..][1..][1..] == [d];
    assert Join(sep, [c, d]) == c + sep + d by {
      assert [c, d][1..] == [d];
    }
    assert Join(sep, [b, c, d]) == b + sep + (c + sep + d);
    var x := a + sep + b + sep;
    calc {
      Join(sep, parts);
    ==
      (a + sep) + ((b + sep) + (c + sep + d));
    == { AppendAssoc(a + sep, b + sep, c + sep + d); }
      (a + sep) + (b + sep) + (c + sep + d);
    == { AppendAssoc(a + sep, b, sep); }
      x + (c + sep + d);
    == { AppendAssoc(x, c + sep, d); }
      x + (c + sep) + d;
    == { AppendAssoc(x, c, sep); }
      x + c + sep + d;
    }
  }

  lemma AppendAssoc<T>(a: seq<T>, b: seq<T>, c: seq<T>)
    ensures a + b + c == a + (b + c)
  {
  }

  /** `[f(x) for x in xs]`, written from the back like `Filter`. */
  function Map<A, B>(f: A -> B, xs: seq<A>): (ys: seq<B>)
    ensures |ys| == |xs|
  {
    if xs == [] then [] else Map(f, xs[..|xs| - 1]) + [f(xs[|xs| - 1])]
  }

  lemma MapSnoc<A, B>(f: A -> B, xs: seq<A>, x: A)
    ensures Map(f, xs + [x]) == Map(f, xs) + [f(x)]
  {
    assert (xs + [x])[..|xs|] == xs;
  }

  lemma MapTwo<A, B>(f: A -> B, x: A, y: A)
    ensures Map(f, [x, y]) == [f(x), f(y)]
  {
    assert [x, y][..1] == [x];
    assert [x][..0] == [];
  }

  lemma {:induction false} MapAt<A, B>(f: A -> B, xs: seq<A>, i: nat)
    requires i < |xs|
    ensures Map(f, xs)[i] == f(xs[i])
  {
    if i < |xs| - 1 {
      MapAt(f, xs[..|xs| - 1], i);
    }
  }

  lemma {:induction false} MapConcat<A, B>(f: A -> B, xs: seq<A>, ys: seq<A>)
    ensures Map(f, xs + ys) == Map(f, xs) + Map(f, ys)
    decreases |ys|
  {
    if ys == [] {
      assert xs + ys == xs;
    } else {
      var init, last := ys[..|ys| - 1], ys[|ys| - 1];
      assert (xs + ys)[..|xs + ys| - 1] == xs + init;
      MapConcat(f, xs, init);
    }
  }

  /** Reordering the inputs reorders the outputs: mapping preserves
      permutations. */
  lemma {:induction false} MapPermutation<A, B>(f: A -> B, xs: seq<A>, ys: seq<A>)
    requires multiset(xs) == multiset(ys)
    ensures multiset(Map(f, xs)) == multiset(Map(f, ys))
    decreases |xs|
  {
    if xs != [] {
      var x := xs[0];
      assert x in multiset(ys);
      var i :| 0 <= i < |ys| && ys[i] == x;
      var before, after := ys[..i], ys[i + 1..];
      RemoveMatching(xs, ys, i);
      MapPermutation(f, xs[1..], before + after);
      MoveToFront(f, x, xs[1..], before, after);
      assert xs == [x] + xs[1..];
      SplitAt(ys, i);
    }
  }

  lemma TakeOneMore<T>(s: seq<T>, i: nat)
    requires i < |s|
    ensures s[..i + 1] == s[..i] + [s[i]]
  {
  }

  lemma SplitAt<T>(s: seq<T>, i: nat)
    requires i < |s|
    ensures s == s[..i] + [s[i]] + s[i + 1..]
  {
  }

  /** One step of `MapPermutation`: the same element put in front of one
      list and in the middle of the other. */
  lemma MoveToFront<A, B>(f: A -> B, x: A, rest: seq<A>, before: seq<A>, after: seq<A>)
    requires multiset(Map(f, rest)) == multiset(Map(f, before + after))
    ensures multiset(Map(f, [x] + rest)) == multiset(Map(f, before + [x] + after))
  {
    MapCons(f, x, rest);
    MapAround(f, before, x, after);
    MapConcat(f, before, after);
    InsertAnywhere(f(x), Map(f, rest), Map(f, before), Map(f, after));
  }

  lemma MapCons<A, B>(f: A -> B, x: A, rest: seq<A>)
    ensures Map(f, [x] + rest) == [f(x)] + Map(f, rest)
  {
    MapAround(f, [], x, rest);
    assert [] + [x] + rest == [x] + rest;
  }

  lemma InsertAnywhere<T>(y: T, ys: seq<T>, before: seq<T>, after: seq<T>)
    requires multiset(ys) == multiset(before + after)
    ensures multiset([y] + ys) == multiset(before + [y] + after)
  {
  }

  lemma MapAround<A, B>(f: A -> B, before: seq<A>, x: A, after: seq<A>)
    ensures Map(f, before + [x] + after) == Map(f, before) + [f(x)] + Map(f, after)
  {
    assert Map(f, [x]) == [f(x)] by {
      assert [x][..0] == [];
    }
    MapConcat(f, before + [x], after);
    MapConcat(f, before, [x]);
  }

  /** Taking a common element out of two permutations of each other
      leaves permutations of each other. */
  lemma RemoveMatching<T>(xs: seq<T>, ys: seq<T>, i: nat)
    requires multiset(xs) == multiset(ys) && xs != [] && i < |ys| && ys[i] == xs[0]
    ensures multiset(xs[1..]) == multiset(ys[..i] + ys[i + 1..])
  {
    var x, before, after := xs[0], ys[..i], ys[i + 1..];
    assert ys == before + [x] + after;
    assert xs == [x] + xs[1..];
    assert multiset(ys) == multiset(before) + multiset{x} + multiset(after);
    assert multiset(before + after) == multiset(before) + multiset(after);
    assert multiset(xs[1..]) == multiset(xs) - multiset{x};
  }

  /** `sum(1 for x in xs if p(x))` */
  function Count<T>(xs: seq<T>, p: T -> bool): (n: nat)
    ensures n <= |xs|
  {
    if xs == [] then 0 else Count(xs[..|xs| - 1], p) + (if p(xs[|xs| - 1]) then 1 else 0)
  }

  /** Every element is counted by exactly one of `p` and its negation. */
  lemma {:induction false} CountSplit<T>(xs: seq<T>, p: T -> bool, q: T -> bool)
    requires forall x :: q(x) == !p(x)
    ensures Count(xs, p) + Count(xs, q) == |xs|
  {
    if xs != [] {
      CountSplit(xs[..|xs| - 1], p, q);
    }
  }
}
