/** Table operations the dashboard applies to its data frames: boolean-mask
    selection, the left merge on a key column, and per-key column sums (the
    `groupby(...).agg('sum')` pattern). Rows are values; a frame is a `seq`
    of rows in frame order. */
module Frames {

  /** A cell that may be missing (pandas NaN / SQL NULL). */
  datatype Option<+T> = None | Some(value: T)

  /** `df[mask]`: the rows that satisfy `p`, in frame order, each as often as
      it occurs in `s`. */
  function Where<T(==,!new)>(s: seq<T>, p: T -> bool): (r: seq<T>)
    ensures |r| <= |s|
    ensures forall x :: x in r <==> x in s && p(x)
    ensures forall x :: multiset(r)[x] == if p(x) then multiset(s)[x] else 0
  {
    if s == [] then []
    else
      assert s == [s[0]] + s[1..];
      (if p(s[0]) then [s[0]] else []) + Where(s[1..], p)
  }

  /** The first step of `Where`. */
  lemma WhereStep<T(!new)>(s: seq<T>, p: T -> bool)
    requires s != []
    ensures Where(s, p) == (if p(s[0]) then [s[0]] else []) + Where(s[1..], p)
  {
  }

  lemma ConcatAssoc<T>(a: seq<T>, b: seq<T>, c: seq<T>)
    ensures a + (b + c) == (a + b) + c
  {
  }

  /** The mask keeps frame order: filtering a concatenation filters each
      part and concatenates the results, so a kept row of `a` comes before
      a kept row of `b`. */
  lemma {:induction false} WhereConcat<T(!new)>(a: seq<T>, b: seq<T>, p: T -> bool)
    ensures Where(a + b, p) == Where(a, p) + Where(b, p)
  {
    if a == [] {
      assert a + b == b;
    } else {
      var ab := a + b;
      assert ab != [] && ab[0] == a[0];
      assert ab[1..] == a[1..] + b;
      WhereStep(ab, p);
      WhereStep(a, p);
      WhereConcat(a[1..], b, p);
      ConcatAssoc(if p(a[0]) then [a[0]] else [], Where(a[1..], p), Where(b, p));
    }
  }

  /** One row of a left merge: the left row and the right row it matched,
      or `None` when no right row carries its key. */
  datatype Joined<L, R> = Joined(left: L, right: Option<R>)

  /** No row of `right` carries key `k`. */
  ghost predicate NoMatch<R, K>(right: seq<R>, rk: R -> K, k: K)
  {
    forall i :: 0 <= i < |right| ==> rk(right[i]) != k
  }

  /** The key column of `right` holds no value twice. */
  ghost predicate UniqueKeys<R, K>(right: seq<R>, rk: R -> K)
  {
    forall i, j :: 0 <= i < j < |right| ==> rk(right[i]) != rk(right[j])
  }

  /** The rows of `right` whose key is `k`, in order. */
  function Matches<R(==,!new), K(==)>(right: seq<R>, rk: R -> K, k: K): (m: seq<R>)
    ensures forall r :: r in m <==> r in right && rk(r) == k
  {
    Where(right, r => rk(r) == k)
  }

  /** `l` paired with each row of `m`, in order. */
  function Pairs<L, R(==)>(l: L, m: seq<R>): (out: seq<Joined<L, R>>)
    ensures |out| == |m|
    ensures forall i :: 0 <= i < |m| ==> out[i] == Joined(l, Some(m[i]))
  {
    if m == [] then [] else [Joined(l, Some(m[0]))] + Pairs(l, m[1..])
  }

  /** The rows one left row contributes to a left merge. */
  function JoinRow<L, R(==,!new), K(==)>(l: L, right: seq<R>, lk: L -> K, rk: R -> K): (out: seq<Joined<L, R>>)
    ensures |out| >= 1
  {
    var m := Matches(right, rk, lk(l));
    if m == [] then [Joined(l, None)] else Pairs(l, m)
  }

  /** The rows one left row contributes: itself with each right row of its
      key, or itself with nothing when no right row has its key. */
  lemma JoinRowRows<L, R(!new), K>(l: L, right: seq<R>, lk: L -> K, rk: R -> K)
    ensures forall o :: o in JoinRow(l, right, lk, rk) ==> o.left == l
    ensures forall o :: o in JoinRow(l, right, lk, rk) && o.right.Some? ==>
      o.right.value in right && rk(o.right.value) == lk(l)
    ensures forall o :: o in JoinRow(l, right, lk, rk) && o.right.None? ==> NoMatch(right, rk, lk(l))
    ensures forall r :: r in right && rk(r) == lk(l) ==> Joined(l, Some(r)) in JoinRow(l, right, lk, rk)
    ensures NoMatch(right, rk, lk(l)) ==> Joined(l, None) in JoinRow(l, right, lk, rk)
  {
    var m := Matches(right, rk, lk(l));
    var out := JoinRow(l, right, lk, rk);
    if m == [] {
      assert NoMatch(right, rk, lk(l)) by {
        forall i | 0 <= i < |right| ensures rk(right[i]) != lk(l) {
          assert right[i] in right;
        }
      }
    } else {
      assert forall o :: o in out ==> o.right.Some? && o.right.value in m;
      assert !NoMatch(right, rk, lk(l)) by {
        assert m[0] in right;
      }
      forall r | r in m ensures Joined(l, Some(r)) in out {
        var i :| 0 <= i < |m| && m[i] == r;
        assert out[i] == Joined(l, Some(r));
      }
    }
  }

  /** `left.merge(right, on=key, how='left')`: every left row, in left
      order, once per matching right row (in right order), or once with a
      missing right side when nothing matches. What the merge contains is
      stated by `LeftJoinRows` and `LeftJoinUnique`. */
  function LeftJoin<L, R(==,!new), K(==)>(left: seq<L>, right: seq<R>, lk: L -> K, rk: R -> K): (out: seq<Joined<L, R>>)
    ensures |out| >= |left|
  {
    if left == [] then []
    else JoinRow(left[0], right, lk, rk) + LeftJoin(left[1..], right, lk, rk)
  }

  /** The rows of a left merge: each pairs a left row with a right row of
      the same key, or with nothing when no right row has that key; and
      every such pair is present. */
  lemma {:induction false} LeftJoinRows<L(!new), R(!new), K>(left: seq<L>, right: seq<R>, lk: L -> K, rk: R -> K)
    ensures forall o :: o in LeftJoin(left, right, lk, rk) ==> o.left in left
    ensures forall o :: o in LeftJoin(left, right, lk, rk) && o.right.Some? ==>
      o.right.value in right && rk(o.right.value) == lk(o.left)
    ensures forall o :: o in LeftJoin(left, right, lk, rk) && o.right.None? ==> NoMatch(right, rk, lk(o.left))
    ensures forall l, r :: l in left && r in right && rk(r) == lk(l) ==> Joined(l, Some(r)) in LeftJoin(left, right, lk, rk)
    ensures forall l :: l in left && NoMatch(right, rk, lk(l)) ==> Joined(l, None) in LeftJoin(left, right, lk, rk)
  {
    if left != [] {
      JoinRowRows(left[0], right, lk, rk);
      LeftJoinRows(left[1..], right, lk, rk);
      assert forall l :: l in left <==> l == left[0] || l in left[1..] by {
        assert left == [left[0]] + left[1..];
      }
    }
  }

  /** Every left row has a row of its own in the merge. */
  lemma LeftJoinKeeps<L(!new), R(!new), K>(left: seq<L>, right: seq<R>, lk: L -> K, rk: R -> K, l: L) returns (k: int)
    requires l in left
    ensures 0 <= k < |LeftJoin(left, right, lk, rk)| && LeftJoin(left, right, lk, rk)[k].left == l
  {
    var out := LeftJoin(left, right, lk, rk);
    LeftJoinRows(left, right, lk, rk);
    var o: Joined<L, R>;
    if NoMatch(right, rk, lk(l)) {
      o := Joined(l, None);
    } else {
      var i :| 0 <= i < |right| && rk(right[i]) == lk(l);
      assert right[i] in right;
      o := Joined(l, Some(right[i]));
    }
    assert o in out;
    k :| 0 <= k < |out| && out[k] == o;
  }

  /** With unique right keys a left row matches at most one right row. */
  lemma {:induction false} MatchesUnique<R(!new), K>(right: seq<R>, rk: R -> K, k: K)
    requires UniqueKeys(right, rk)
    ensures |Matches(right, rk, k)| <= 1
  {
    if right != [] {
      assert right == [right[0]] + right[1..];
      assert UniqueKeys(right[1..], rk);
      MatchesUnique(right[1..], rk, k);
      if rk(right[0]) == k {
        var rest := Matches(right[1..], rk, k);
        if rest != [] {
          assert false;
        }
      }
    }
  }

  /** With unique right keys the left merge is one-to-one: row `i` of the
      result is left row `i`, matched to the one right row carrying its key
      if there is one. */
  lemma {:induction false} LeftJoinUnique<L(!new), R(!new), K>(left: seq<L>, right: seq<R>, lk: L -> K, rk: R -> K)
    requires UniqueKeys(right, rk)
    ensures |LeftJoin(left, right, lk, rk)| == |left|
    ensures forall i :: 0 <= i < |left| ==> LeftJoin(left, right, lk, rk)[i].left == left[i]
  {
    if left != [] {
      MatchesUnique(right, rk, lk(left[0]));
      LeftJoinUnique(left[1..], right, lk, rk);
      assert |JoinRow(left[0], right, lk, rk)| == 1;
    }
  }

  /** Appending a left row appends its contribution to the merge. */
  lemma {:induction false} LeftJoinAppend<L(!new), R(!new), K>(left: seq<L>, l: L, right: seq<R>, lk: L -> K, rk: R -> K)
    ensures LeftJoin(left + [l], right, lk, rk) == LeftJoin(left, right, lk, rk) + JoinRow(l, right, lk, rk)
  {
    var a := left + [l];
    if left == [] {
      assert a == [l];
      assert a[1..] == [];
    } else {
      assert a[0] == left[0];
      assert a[1..] == left[1..] + [l];
      LeftJoinAppend(left[1..], l, right, lk, rk);
      var h := JoinRow(left[0], right, lk, rk);
      var t := JoinRow(l, right, lk, rk);
      var r1 := LeftJoin(left[1..], right, lk, rk);
      calc {
        LeftJoin(a, right, lk, rk);
        h + LeftJoin(a[1..], right, lk, rk);
        h + LeftJoin(left[1..] + [l], right, lk, rk);
        h + (r1 + t);
        { assert h + (r1 + t) == (h + r1) + t; }
        (h + r1) + t;
        LeftJoin(left, right, lk, rk) + t;
      }
    }
  }

  /** Sum of `v` over the rows whose key is `k`: one cell of
      `groupby(key).agg(sum)`. */
  function SumKey<T, K(==)>(rows: seq<T>, key: T -> K, v: T -> int, k: K): (sum: int)
    ensures (forall i :: 0 <= i < |rows| ==> v(rows[i]) >= 0) ==> sum >= 0
  {
    if rows == [] then 0
    else
      assert forall i :: 0 <= i < |rows[1..]| ==> rows[1..][i] == rows[i + 1];
      (if key(rows[0]) == k then v(rows[0]) else 0) + SumKey(rows[1..], key, v, k)
  }

  /** Sum of `v` over the rows whose key lies in `ks`. */
  function SumIn<T, K(==)>(rows: seq<T>, key: T -> K, v: T -> int, ks: set<K>): int
  {
    if rows == [] then 0
    else (if key(rows[0]) in ks then v(rows[0]) else 0) + SumIn(rows[1..], key, v, ks)
  }

  /** Sum of `v` over all rows: the column total. */
  function SumAll<T>(rows: seq<T>, v: T -> int): int
  {
    if rows == [] then 0 else v(rows[0]) + SumAll(rows[1..], v)
  }

  /** The per-key sums for the keys `ks`, added up. */
  function SumOverKeys<T, K(==)>(rows: seq<T>, key: T -> K, v: T -> int, ks: seq<K>): int
  {
    if ks == [] then 0 else SumKey(rows, key, v, ks[0]) + SumOverKeys(rows, key, v, ks[1..])
  }

  /** No value occurs twice in `ks`. */
  ghost predicate Distinct<K>(ks: seq<K>)
  {
    forall i, j :: 0 <= i < j < |ks| ==> ks[i] != ks[j]
  }

  /** A key that no row carries sums to zero. */
  lemma {:induction false} SumKeyAbsent<T, K>(rows: seq<T>, key: T -> K, v: T -> int, k: K)
    requires NoMatch(rows, key, k)
    ensures SumKey(rows, key, v, k) == 0
  {
    if rows != [] {
      assert NoMatch(rows[1..], key, k) by {
        forall i | 0 <= i < |rows[1..]| ensures key(rows[1..][i]) != k {
          assert rows[1..][i] == rows[i + 1];
        }
      }
      SumKeyAbsent(rows[1..], key, v, k);
    }
  }

  /** Per-key sums are additive over concatenated frames. */
  lemma {:induction false} SumKeyAppend<T, K>(a: seq<T>, b: seq<T>, key: T -> K, v: T -> int, k: K)
    ensures SumKey(a + b, key, v, k) == SumKey(a, key, v, k) + SumKey(b, key, v, k)
  {
    if a != [] {
      assert (a + b)[1..] == a[1..] + b;
      SumKeyAppend(a[1..], b, key, v, k);
    } else {
      assert a + b == b;
    }
  }

  /** Summing over the key set `{k} + ks` splits into the sum for `k` and
      the sum for `ks`. */
  lemma {:induction false} SumInSplit<T, K>(rows: seq<T>, key: T -> K, v: T -> int, k: K, ks: set<K>)
    requires k !in ks
    ensures SumIn(rows, key, v, {k} + ks) == SumKey(rows, key, v, k) + SumIn(rows, key, v, ks)
  {
    if rows != [] {
      SumInSplit(rows[1..], key, v, k, ks);
    }
  }

  /** Grouping partitions the rows: over distinct keys, the group sums add
      up to the sum over the rows whose key is one of them. */
  lemma {:induction false} GroupSumsPartition<T, K>(rows: seq<T>, key: T -> K, v: T -> int, ks: seq<K>)
    requires Distinct(ks)
    ensures SumOverKeys(rows, key, v, ks) == SumIn(rows, key, v, set k | k in ks)
  {
    if ks == [] {
      SumInEmpty(rows, key, v);
      assert (set k | k in ks) == {};
    } else {
      assert Distinct(ks[1..]);
      GroupSumsPartition(rows, key, v, ks[1..]);
      assert ks[0] !in ks[1..] by {
        if ks[0] in ks[1..] {
          assert false;
        }
      }
      assert (set k | k in ks) == {ks[0]} + (set k | k in ks[1..]) by {
        assert ks == [ks[0]] + ks[1..];
      }
      SumInSplit(rows, key, v, ks[0], set k | k in ks[1..]);
    }
  }

  lemma {:induction false} SumInEmpty<T, K>(rows: seq<T>, key: T -> K, v: T -> int)
    ensures SumIn(rows, key, v, {}) == 0
  {
    if rows != [] {
      SumInEmpty(rows[1..], key, v);
    }
  }

  /** Summing over the keys in `ks` is the column total of `w` when `w`
      is `v` on the rows whose key is in `ks` and 0 elsewhere. */
  lemma {:induction false} SumInAsTotal<T, K>(rows: seq<T>, key: T -> K, v: T -> int, ks: set<K>, w: T -> int)
    requires forall i :: 0 <= i < |rows| ==> w(rows[i]) == if key(rows[i]) in ks then v(rows[i]) else 0
    ensures SumIn(rows, key, v, ks) == SumAll(rows, w)
  {
    if rows != [] {
      assert forall i :: 0 <= i < |rows[1..]| ==> rows[1..][i] == rows[i + 1];
      SumInAsTotal(rows[1..], key, v, ks, w);
    }
  }
}
