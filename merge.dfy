/** `pd.merge` of two tables on a key, in the three forms the sync scripts
    use: inner, left and outer. A left row is paired with every right row of
    the same key, in right-table order; left rows are taken in table order. */
module Merge {
  import opened Wrappers
  import opened Seqs

  /** A left row paired with each of its matches. */
  function PairWith<L, R>(l: L, m: seq<R>): (r: seq<(L, R)>)
    ensures |r| == |m|
    ensures forall i :: 0 <= i < |m| ==> r[i] == (l, m[i])
  {
    seq(|m|, i requires 0 <= i < |m| => (l, m[i]))
  }

  /** `how='inner'`: the pairs of rows with equal keys. */
  function Inner<L(!new), R(!new), K(==)>(left: seq<L>, right: seq<R>, lk: L -> K, rk: R -> K): seq<(L, R)> {
    if left == [] then []
    else PairWith(left[0], Select(right, rk, lk(left[0]))) + Inner(left[1..], right, lk, rk)
  }

  /** The number of right rows each left row finds, added up. */
  function MatchTotal<L(!new), R(!new), K(==)>(left: seq<L>, right: seq<R>, lk: L -> K, rk: R -> K): nat {
    if left == [] then 0
    else |Select(right, rk, lk(left[0]))| + MatchTotal(left[1..], right, lk, rk)
  }

  /** `how='left'`: every left row with each of its matches, or once with
      the right columns missing when it has none. */
  function LeftJoin<L(!new), R(!new), K(==)>(left: seq<L>, right: seq<R>, lk: L -> K, rk: R -> K): seq<(L, Option<R>)> {
    if left == [] then []
    else
      var m := Select(right, rk, lk(left[0]));
      (if m == [] then [(left[0], None)] else seq(|m|, i requires 0 <= i < |m| => (left[0], Some(m[i]))))
      + LeftJoin(left[1..], right, lk, rk)
  }

  /** Right rows whose key no left row has. */
  function Unmatched<L(==,!new), R(!new), K(==)>(left: seq<L>, right: seq<R>, lk: L -> K, rk: R -> K): (r: seq<R>)
    ensures forall x :: x in r <==> x in right && forall l :: l in left ==> lk(l) != rk(x)
  {
    if right == [] then []
    else
      (if forall l :: l in left ==> lk(l) != rk(right[0]) then [right[0]] else [])
      + Unmatched(left, right[1..], lk, rk)
  }

  /** `how='outer'`: the left join followed by the right rows nobody
      matched, their left columns missing. (pandas also sorts the result by
      key; that order is not modelled.) */
  function Outer<L(==,!new), R(!new), K(==)>(left: seq<L>, right: seq<R>, lk: L -> K, rk: R -> K): seq<(Option<L>, Option<R>)> {
    var lj := LeftJoin(left, right, lk, rk);
    var um := Unmatched(left, right, lk, rk);
    seq(|lj|, i requires 0 <= i < |lj| => (Some(lj[i].0), lj[i].1))
      + seq(|um|, i requires 0 <= i < |um| => (None, Some(um[i])))
  }

  /** `dropna(subset=<right columns>)`: the rows whose right part is
      present, with that part no longer optional. */
  function DropMissingRight<L, R>(rows: seq<(L, Option<R>)>): (r: seq<(L, R)>)
    ensures |r| <= |rows|
  {
    if rows == [] then []
    else (if rows[0].1.Some? then [(rows[0].0, rows[0].1.value)] else []) + DropMissingRight(rows[1..])
  }

  // ---------------------------------------------------------------------
  // Properties

  /** The inner join holds exactly the pairs of rows with equal keys. */
  lemma {:induction false} InnerMember<L(!new), R(!new), K>(left: seq<L>, right: seq<R>, lk: L -> K, rk: R -> K, p: (L, R))
    ensures p in Inner(left, right, lk, rk) <==> p.0 in left && p.1 in right && lk(p.0) == rk(p.1)
  {
    if left != [] {
      InnerMember(left[1..], right, lk, rk, p);
      var m := Select(right, rk, lk(left[0]));
      assert p in PairWith(left[0], m) <==> p.0 == left[0] && p.1 in m;
      assert p.0 in left <==> p.0 == left[0] || p.0 in left[1..];
    }
  }

  /** Its size is the number of matches of each left row, added up. */
  lemma {:induction false} InnerSize<L(!new), R(!new), K>(left: seq<L>, right: seq<R>, lk: L -> K, rk: R -> K)
    ensures |Inner(left, right, lk, rk)| == MatchTotal(left, right, lk, rk)
  {
    if left != [] {
      InnerSize(left[1..], right, lk, rk);
    }
  }

  /** The left join pairs a left row with a right row exactly when their keys
      agree, and leaves a left row alone exactly when it has no match. */
  lemma {:induction false} LeftJoinMember<L(!new), R(!new), K>(left: seq<L>, right: seq<R>, lk: L -> K, rk: R -> K, l: L, o: Option<R>)
    ensures (l, o) in LeftJoin(left, right, lk, rk) <==>
      l in left && match o
        case Some(r) => r in right && lk(l) == rk(r)
        case None => forall r :: r in right ==> lk(l) != rk(r)
  {
    if left != [] {
      LeftJoinMember(left[1..], right, lk, rk, l, o);
      var m := Select(right, rk, lk(left[0]));
      var head := if m == [] then [(left[0], None)] else seq(|m|, i requires 0 <= i < |m| => (left[0], Some(m[i])));
      assert LeftJoin(left, right, lk, rk) == head + LeftJoin(left[1..], right, lk, rk);
      assert l in left <==> l == left[0] || l in left[1..];
      if o.Some? && l == left[0] && o.value in m {
        var i :| 0 <= i < |m| && m[i] == o.value;
        assert head[i] == (l, o);
      }
      if o.None? && l == left[0] && m != [] {
        assert m[0] in right;
      }
    }
  }

  /** Every left row is kept, once per match or once alone: the left join
      has at least as many rows as the left table. */
  lemma {:induction false} LeftJoinSize<L(!new), R(!new), K>(left: seq<L>, right: seq<R>, lk: L -> K, rk: R -> K)
    ensures |LeftJoin(left, right, lk, rk)| == MatchTotal(left, right, lk, rk) + |Unmatched(right, left, rk, lk)|
    ensures |left| <= |LeftJoin(left, right, lk, rk)|
  {
    if left != [] {
      LeftJoinSize(left[1..], right, lk, rk);
      var m := Select(right, rk, lk(left[0]));
      if m == [] {
        forall r | r in right ensures rk(r) != lk(left[0]) {
        }
      } else {
        assert m[0] in right && rk(m[0]) == lk(left[0]);
      }
    }
  }

  /** After the outer join and `dropna` on the right columns, a matched
      pair survives, and so does a right row that nothing matched, while a
      left row without a match is gone. */
  lemma OuterDropMember<L(!new), R(!new), K>(left: seq<L>, right: seq<R>, lk: L -> K, rk: R -> K,
                                           ol: Option<L>, r: R)
    ensures (ol, r) in DropMissingRight(Outer(left, right, lk, rk)) <==>
      && r in right
      && match ol
        case Some(l) => l in left && lk(l) == rk(r)
        case None => forall l :: l in left ==> lk(l) != rk(r)
  {
    var rows := Outer(left, right, lk, rk);
    var or := Some(r);
    DropMember(rows, (ol, r));
    var lj := LeftJoin(left, right, lk, rk);
    var um := Unmatched(left, right, lk, rk);
    var a := seq(|lj|, i requires 0 <= i < |lj| => (Some(lj[i].0), lj[i].1));
    var b := seq(|um|, i requires 0 <= i < |um| => (None, Some(um[i])));
    assert rows == a + b;
    if ol.Some? {
      LeftJoinMember(left, right, lk, rk, ol.value, or);
      if (ol, or) in a {
        var i :| 0 <= i < |a| && a[i] == (ol, or);
        assert lj[i] == (ol.value, or);
      }
      if (ol.value, or) in lj {
        var i :| 0 <= i < |lj| && lj[i] == (ol.value, or);
        assert a[i] == (ol, or);
      }
    } else {
      if r in um {
        var i :| 0 <= i < |um| && um[i] == r;
        assert b[i] == (ol, or);
      }
    }
  }

  lemma {:induction false} DropMember<L, R>(rows: seq<(L, Option<R>)>, x: (L, R))
    ensures x in DropMissingRight(rows) <==> (x.0, Some(x.1)) in rows
  {
    if rows != [] {
      DropMember(rows[1..], x);
      assert (x.0, Some(x.1)) in rows <==> (x.0, Some(x.1)) == rows[0] || (x.0, Some(x.1)) in rows[1..];
    }
  }
}
