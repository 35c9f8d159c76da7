/** Relational operators over tables held as sequences of rows: selection,
    projection, inner join and duplicate elimination, with the facts about
    them that the query model needs. Row order is the scan order; what the
    query model states about aggregates does not depend on it. */
module Relational {
  import opened Results

  /** `WHERE keep(row)`: the rows that satisfy `keep`, each as often as in `s`. */
  function Filter<T(!new)>(s: seq<T>, keep: T -> bool): (r: seq<T>)
    ensures forall x :: x in r <==> x in s && keep(x)
    ensures |r| <= |s|
    decreases |s|
  {
    if s == [] then []
    else
      assert s == [s[0]] + s[1..];
      (if keep(s[0]) then [s[0]] else []) + Filter(s[1..], keep)
  }

  /** The projection `SELECT f(row)`, row by row. */
  function Map<T, U>(s: seq<T>, f: T -> U): (r: seq<U>)
    ensures |r| == |s| && forall i :: 0 <= i < |s| ==> r[i] == f(s[i])
  {
    seq(|s|, i requires 0 <= i < |s| => f(s[i]))
  }

  lemma MapMembership<T, U>(s: seq<T>, f: T -> U, y: U)
    ensures y in Map(s, f) <==> exists x :: x in s && y == f(x)
  {
    if exists x :: x in s && y == f(x) {
      var x :| x in s && y == f(x);
      var i :| 0 <= i < |s| && s[i] == x;
      assert Map(s, f)[i] == y;
    }
  }

  /** The rows a left row `a` contributes to an inner join: one per matching
      right row, in right-table order. */
  function JoinRow<A, B, C(!new)>(a: A, right: seq<B>, on: (A, B) -> bool, out: (A, B) -> C): (r: seq<C>)
    ensures forall c :: c in r <==> exists b :: b in right && on(a, b) && c == out(a, b)
    decreases |right|
  {
    if right == [] then []
    else
      assert right == [right[0]] + right[1..];
      (if on(a, right[0]) then [out(a, right[0])] else []) + JoinRow(a, right[1..], on, out)
  }

  /** `left JOIN right ON on(a, b)`, projected by `out`. */
  function InnerJoin<A, B, C(!new)>(left: seq<A>, right: seq<B>, on: (A, B) -> bool, out: (A, B) -> C): (r: seq<C>)
    ensures forall c :: c in r <==> exists a, b :: a in left && b in right && on(a, b) && c == out(a, b)
    decreases |left|
  {
    if left == [] then []
    else
      assert left == [left[0]] + left[1..];
      JoinRow(left[0], right, on, out) + InnerJoin(left[1..], right, on, out)
  }

  /** The rows a left row `a` contributes to a left outer join: one per
      matching right row, or a single row padded with NULL when none matches. */
  function LeftJoinRow<A(!new), B(!new)>(a: A, right: seq<B>, on: (A, B) -> bool): (r: seq<(A, Option<B>)>)
    ensures forall p :: p in r <==>
      && p.0 == a
      && (p.1.Some? ==> p.1.value in right && on(a, p.1.value))
      && (p.1.None? ==> forall b :: b in right ==> !on(a, b))
    ensures (forall b :: b in right ==> !on(a, b)) ==> r == [(a, None)]
  {
    var matches := JoinRow(a, right, on, (x, b) => (x, Some(b)));
    assert forall b :: b in right && on(a, b) ==> (a, Some(b)) in matches;
    if matches == [] then [(a, None)]
    else
      assert matches[0] in matches;
      matches
  }

  /** `left LEFT JOIN right ON on(a, b)`, each output row the pair of the
      left row and the matching right row or NULL. */
  function LeftJoin<A(!new), B(!new)>(left: seq<A>, right: seq<B>, on: (A, B) -> bool): (r: seq<(A, Option<B>)>)
    ensures forall p :: p in r <==>
      && p.0 in left
      && (p.1.Some? ==> p.1.value in right && on(p.0, p.1.value))
      && (p.1.None? ==> forall b :: b in right ==> !on(p.0, b))
    ensures forall a :: a in left && (forall b :: b in right ==> !on(a, b)) ==>
      multiset(r)[(a, None)] == multiset(left)[a]
    decreases |left|
  {
    if left == [] then []
    else
      assert left == [left[0]] + left[1..];
      var head := LeftJoinRow(left[0], right, on);
      var rest := LeftJoin(left[1..], right, on);
      assert multiset(head + rest) == multiset(head) + multiset(rest);
      assert multiset(left) == multiset([left[0]]) + multiset(left[1..]);
      assert forall a :: a != left[0] ==> (a, None) !in head;
      head + rest
  }

  /** `FILTER (WHERE b IS NOT NULL)` over left-join rows: the right rows that are present. */
  function NonNull<A(!new), B(!new)>(rows: seq<(A, Option<B>)>): (r: seq<B>)
    ensures forall b :: b in r <==> exists a :: (a, Some(b)) in rows
    decreases |rows|
  {
    if rows == [] then []
    else
      assert rows == [rows[0]] + rows[1..];
      (if rows[0].1.Some? then [rows[0].1.value] else []) + NonNull(rows[1..])
  }

  /** Duplicate elimination, keeping first occurrences. */
  function Distinct<T(==,!new)>(s: seq<T>): (r: seq<T>)
    ensures forall x :: x in r <==> x in s
    ensures forall i, j :: 0 <= i < j < |r| ==> r[i] != r[j]
    decreases |s|
  {
    if s == [] then []
    else
      var r := Distinct(s[..|s| - 1]);
      assert s == s[..|s| - 1] + [s[|s| - 1]];
      if s[|s| - 1] in r then r else r + [s[|s| - 1]]
  }

  /** No two rows of `s` share a key: the key is a primary key of the table. */
  predicate KeyedBy<T, K(==)>(s: seq<T>, key: T -> K)
  {
    forall i, j :: 0 <= i < j < |s| ==> key(s[i]) != key(s[j])
  }

  /** At most one row of `right` matches `a`. */
  predicate AtMostOneMatch<A, B>(a: A, right: seq<B>, on: (A, B) -> bool)
  {
    forall i, j :: 0 <= i < j < |right| ==> !(on(a, right[i]) && on(a, right[j]))
  }

  // ---------------------------------------------------------------------------
  // Facts about the operators

  lemma {:induction false} FilterConcat<T(!new)>(x: seq<T>, y: seq<T>, keep: T -> bool)
    ensures Filter(x + y, keep) == Filter(x, keep) + Filter(y, keep)
    decreases |x|
  {
    if x != [] {
      var head := if keep(x[0]) then [x[0]] else [];
      assert (x + y)[0] == x[0];
      assert (x + y)[1..] == x[1..] + y;
      assert Filter(x + y, keep) == head + Filter(x[1..] + y, keep);
      FilterConcat(x[1..], y, keep);
      var fx, fy := Filter(x[1..], keep), Filter(y, keep);
      assert Filter(x, keep) == head + fx;
      assert head + (fx + fy) == (head + fx) + fy;
    } else {
      assert x + y == y;
    }
  }

  /** A WHERE keeps every row that passes its test as often as the table
      holds it, and no other row. */
  lemma {:induction false} FilterMultiplicity<T(!new)>(s: seq<T>, keep: T -> bool)
    ensures forall x :: multiset(Filter(s, keep))[x] == if keep(x) then multiset(s)[x] else 0
    decreases |s|
  {
    if s != [] {
      FilterMultiplicity(s[1..], keep);
      var head := if keep(s[0]) then [s[0]] else [];
      assert s == [s[0]] + s[1..];
      assert multiset(s) == multiset([s[0]]) + multiset(s[1..]);
      assert multiset(Filter(s, keep)) == multiset(head) + multiset(Filter(s[1..], keep));
    }
  }

  lemma {:induction false} FilterSameTest<T(!new)>(s: seq<T>, k1: T -> bool, k2: T -> bool)
    requires forall x :: x in s ==> k1(x) == k2(x)
    ensures Filter(s, k1) == Filter(s, k2)
    decreases |s|
  {
    if s != [] {
      assert forall x :: x in s[1..] ==> x in s;
      FilterSameTest(s[1..], k1, k2);
    }
  }

  /** Two successive WHERE tests are one test on their conjunction. */
  lemma {:induction false} FilterFilter<T(!new)>(s: seq<T>, k1: T -> bool, k2: T -> bool, both: T -> bool)
    requires forall x :: both(x) == (k1(x) && k2(x))
    ensures Filter(Filter(s, k1), k2) == Filter(s, both)
    decreases |s|
  {
    if s != [] {
      FilterFilter(s[1..], k1, k2, both);
      var head := if k1(s[0]) then [s[0]] else [];
      FilterConcat(head, Filter(s[1..], k1), k2);
      if k1(s[0]) {
        assert Filter(head, k2) == (if k2(s[0]) then [s[0]] else []) + Filter([], k2);
      }
    }
  }

  /** Filtering a join on a test that only looks at the left row is joining
      the filtered left table. */
  lemma {:induction false} FilterJoin<A(!new), B, C(!new)>(left: seq<A>, right: seq<B>, on: (A, B) -> bool,
                                               out: (A, B) -> C, keep: C -> bool, keepLeft: A -> bool)
    requires forall a, b :: keep(out(a, b)) == keepLeft(a)
    ensures Filter(InnerJoin(left, right, on, out), keep) == InnerJoin(Filter(left, keepLeft), right, on, out)
    decreases |left|
  {
    if left != [] {
      var a := left[0];
      FilterConcat(JoinRow(a, right, on, out), InnerJoin(left[1..], right, on, out), keep);
      FilterJoinRow(a, right, on, out, keep, keepLeft(a));
      FilterJoin(left[1..], right, on, out, keep, keepLeft);
      var lf := Filter(left, keepLeft);
      if keepLeft(a) {
        assert lf == [a] + Filter(left[1..], keepLeft);
        assert lf != [] && lf[0] == a && lf[1..] == Filter(left[1..], keepLeft);
        assert InnerJoin(lf, right, on, out) == JoinRow(a, right, on, out) + InnerJoin(lf[1..], right, on, out);
      } else {
        assert lf == Filter(left[1..], keepLeft);
      }
    }
  }

  lemma {:induction false} FilterJoinRow<A(!new), B, C(!new)>(a: A, right: seq<B>, on: (A, B) -> bool,
                                                  out: (A, B) -> C, keep: C -> bool, kept: bool)
    requires forall b :: keep(out(a, b)) == kept
    ensures Filter(JoinRow(a, right, on, out), keep) == if kept then JoinRow(a, right, on, out) else []
    decreases |right|
  {
    if right != [] {
      var head := if on(a, right[0]) then [out(a, right[0])] else [];
      FilterConcat(head, JoinRow(a, right[1..], on, out), keep);
      FilterJoinRow(a, right[1..], on, out, keep, kept);
      if on(a, right[0]) {
        assert Filter(head, keep) == (if kept then head else []) + Filter([], keep);
      }
    }
  }

  /** A left row with at most one match contributes one joined row when it
      has a match and none otherwise. */
  lemma {:induction false} JoinRowSize<A(!new), B, C(!new)>(a: A, right: seq<B>, on: (A, B) -> bool, out: (A, B) -> C)
    requires AtMostOneMatch(a, right, on)
    ensures |JoinRow(a, right, on, out)| == if exists b :: b in right && on(a, b) then 1 else 0
    decreases |right|
  {
    if right != [] {
      assert AtMostOneMatch(a, right[1..], on) by {
        forall i, j | 0 <= i < j < |right[1..]|
          ensures !(on(a, right[1..][i]) && on(a, right[1..][j]))
        {
          assert right[1..][i] == right[i + 1] && right[1..][j] == right[j + 1];
        }
      }
      JoinRowSize(a, right[1..], on, out);
      if on(a, right[0]) {
        forall b | b in right[1..] ensures !on(a, b) {
          var j :| 0 <= j < |right[1..]| && right[1..][j] == b;
          assert right[j + 1] == b;
        }
      } else {
        assert forall b :: b in right && on(a, b) ==> b in right[1..];
      }
    }
  }

  /** When every left row has at most one match, the join has one row per
      left row that has a match. */
  lemma {:induction false} InnerJoinSize<A(!new), B, C(!new)>(left: seq<A>, right: seq<B>, on: (A, B) -> bool,
                                                  out: (A, B) -> C, matched: A -> bool)
    requires forall a :: a in left ==> AtMostOneMatch(a, right, on)
    requires forall a :: matched(a) == exists b :: b in right && on(a, b)
    ensures |InnerJoin(left, right, on, out)| == |Filter(left, matched)|
    decreases |left|
  {
    if left != [] {
      JoinRowSize(left[0], right, on, out);
      assert forall a :: a in left[1..] ==> a in left;
      InnerJoinSize(left[1..], right, on, out, matched);
    }
  }

  /** Filtering keeps a primary key unique. */
  lemma {:induction false} FilterKeepsKey<T(!new), K>(s: seq<T>, keep: T -> bool, key: T -> K)
    requires KeyedBy(s, key)
    ensures KeyedBy(Filter(s, keep), key)
    decreases |s|
  {
    if s != [] {
      assert KeyedBy(s[1..], key) by {
        forall i, j | 0 <= i < j < |s[1..]| ensures key(s[1..][i]) != key(s[1..][j]) {
          assert s[1..][i] == s[i + 1] && s[1..][j] == s[j + 1];
        }
      }
      FilterKeepsKey(s[1..], keep, key);
      var rest := Filter(s[1..], keep);
      forall x | x in rest ensures key(x) != key(s[0]) {
        var j :| 0 <= j < |s[1..]| && s[1..][j] == x;
        assert s[j + 1] == x;
      }
    }
  }

  /** The set `{ f(x) | x in s }`. */
  function Image<T(==), U>(s: seq<T>, f: T -> U): set<U>
  {
    set x | x in s :: f(x)
  }

  /** The distinct values of a projection are the images of the rows. */
  lemma MapImage<T, U>(s: seq<T>, f: T -> U)
    ensures (set y | y in Map(s, f)) == Image(s, f)
  {
    forall y | y in Image(s, f) ensures y in Map(s, f) {
      var x :| x in s && y == f(x);
      MapMembership(s, f, y);
    }
  }

  /** Tables with the same rows have the same images. */
  lemma ImageSameMembers<T, U>(s: seq<T>, t: seq<T>, f: T -> U)
    requires forall x :: x in s <==> x in t
    ensures Image(s, f) == Image(t, f)
  {
  }

  /** The set of images of a keyed table under a function that keeps the key
      has one element per row: nothing is merged, nothing is lost. */
  lemma {:induction false} ImageSize<T(!new), K, U>(s: seq<T>, key: T -> K, f: T -> U)
    requires KeyedBy(s, key)
    requires forall x, y :: x in s && y in s && f(x) == f(y) ==> key(x) == key(y)
    ensures |Image(s, f)| == |s|
    decreases |s|
  {
    if s != [] {
      var init := s[..|s| - 1];
      var last := s[|s| - 1];
      assert KeyedBy(init, key) by {
        forall i, j | 0 <= i < j < |init| ensures key(init[i]) != key(init[j]) {
          assert init[i] == s[i] && init[j] == s[j];
        }
      }
      assert forall x :: x in init ==> x in s;
      ImageSize(init, key, f);
      assert f(last) !in Image(init, f) by {
        forall x | x in init ensures f(x) != f(last) {
          var i :| 0 <= i < |init| && init[i] == x;
          assert key(s[i]) != key(s[|s| - 1]);
        }
      }
      assert Image(s, f) == Image(init, f) + {f(last)} by {
        assert s == init + [last];
      }
    }
  }
}
