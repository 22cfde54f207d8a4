/**
 * The JavaScript array operations the codecs lean on (reverse, map, a
 * nested loop that concatenates rows), as functions on sequences, with the
 * facts about them the round trips need.
 */
module Seqs {
  import opened Wrappers

  /** Array.prototype.reverse. */
  function Reverse<T>(s: seq<T>): (r: seq<T>)
    ensures |r| == |s|
    ensures forall i :: 0 <= i < |s| ==> r[i] == s[|s| - 1 - i]
  {
    if s == [] then [] else Reverse(s[1..]) + [s[0]]
  }

  /** The list without element k; unchanged for k == -1. */
  function Drop<T>(list: seq<T>, k: int): (r: seq<T>)
    requires -1 <= k < |list|
    ensures |r| == if k == -1 then |list| else |list| - 1
  {
    if k == -1 then list else list[..k] + list[k + 1..]
  }

  lemma Associative<T>(a: seq<T>, b: seq<T>, c: seq<T>)
    ensures (a + b) + c == a + (b + c)
  {
  }

  lemma InAppend<T>(a: seq<T>, b: seq<T>, x: T)
    ensures x in a + b <==> x in a || x in b
  {
  }

  lemma SliceAppend<T>(s: seq<T>, a: nat, b: nat)
    requires a <= b <= |s|
    ensures s[..a] + s[a..b] == s[..b]
  {
  }

  lemma EmptyAppend<T>(items: seq<T>)
    ensures [] + items == items && items + [] == items
  {
  }

  /** Array.prototype.map. */
  function Map<A, B>(f: A -> B, xs: seq<A>): (r: seq<B>)
    ensures |r| == |xs|
    ensures forall i :: 0 <= i < |xs| ==> r[i] == f(xs[i])
  {
    if xs == [] then [] else [f(xs[0])] + Map(f, xs[1..])
  }

  /** Every row reversed. */
  function ReverseRows<T>(rows: seq<seq<T>>): (r: seq<seq<T>>)
    ensures |r| == |rows|
    ensures forall j :: 0 <= j < |rows| ==> r[j] == Reverse(rows[j])
  {
    if rows == [] then [] else [Reverse(rows[0])] + ReverseRows(rows[1..])
  }

  function Flatten<T>(rows: seq<seq<T>>): seq<T> {
    if rows == [] then [] else rows[0] + Flatten(rows[1..])
  }

  /** Every row has `cols` elements. */
  predicate Rectangular<T>(rows: seq<seq<T>>, cols: int) {
    forall j :: 0 <= j < |rows| ==> |rows[j]| == cols
  }

  /** The values, when none is NaN. */
  function AllSome<T>(xs: seq<Option<T>>): (r: Option<seq<T>>)
    ensures r.Some? <==> forall i :: 0 <= i < |xs| ==> xs[i].Some?
    ensures r.Some? ==> |r.value| == |xs| && forall i :: 0 <= i < |xs| ==> r.value[i] == xs[i].value
  {
    if xs == [] then Some([])
    else match (xs[0], AllSome(xs[1..]))
      case (Some(x), Some(rest)) => Some([x] + rest)
      case _ => None
  }

  lemma ReverseReverse<T>(s: seq<T>)
    ensures Reverse(Reverse(s)) == s
  {
  }

  lemma {:induction false} ReverseAppend<T>(a: seq<T>, b: seq<T>)
    ensures Reverse(a + b) == Reverse(b) + Reverse(a)
  {
    if a == [] {
      assert a + b == b;
      assert Reverse(b) + [] == Reverse(b);
    } else {
      assert (a + b)[1..] == a[1..] + b;
      assert (a + b)[0] == a[0];
      ReverseAppend(a[1..], b);
    }
  }

  lemma MapReverse<A, B>(f: A -> B, xs: seq<A>)
    ensures Map(f, Reverse(xs)) == Reverse(Map(f, xs))
  {
  }

  lemma {:induction false} FlattenAppend<T>(a: seq<seq<T>>, b: seq<seq<T>>)
    ensures Flatten(a + b) == Flatten(a) + Flatten(b)
  {
    if a == [] {
      assert a + b == b;
    } else {
      assert (a + b)[1..] == a[1..] + b;
      assert (a + b)[0] == a[0];
      FlattenAppend(a[1..], b);
    }
  }

  lemma {:induction false} InFlatten<T>(rows: seq<seq<T>>, x: T)
    requires x in Flatten(rows)
    ensures exists j :: 0 <= j < |rows| && x in rows[j]
  {
    if x !in rows[0] {
      InFlatten(rows[1..], x);
      var j :| 0 <= j < |rows[1..]| && x in rows[1..][j];
      assert x in rows[j + 1];
    }
  }

  lemma InReverse<T>(s: seq<T>, x: T)
    requires x in Reverse(s)
    ensures x in s
  {
    var i :| 0 <= i < |s| && Reverse(s)[i] == x;
    assert s[|s| - 1 - i] == x;
  }

  /** Reversing the flattened rows flattens the reversed list of reversed rows. */
  lemma {:induction false} RevFlatten<T>(rows: seq<seq<T>>)
    ensures Reverse(Flatten(rows)) == Flatten(Reverse(ReverseRows(rows)))
  {
    if rows != [] {
      RevFlatten(rows[1..]);
      ReverseAppend(rows[0], Flatten(rows[1..]));
      var m := ReverseRows(rows);
      assert m[1..] == ReverseRows(rows[1..]);
      FlattenAppend(Reverse(m[1..]), [Reverse(rows[0])]);
      assert Flatten([Reverse(rows[0])]) == Reverse(rows[0]) + [];
    }
  }

  lemma MapReverseTwice<T>(rows: seq<seq<T>>)
    ensures ReverseRows(ReverseRows(rows)) == rows
  {
    forall j | 0 <= j < |rows| ensures ReverseRows(ReverseRows(rows))[j] == rows[j] {
      ReverseReverse(rows[j]);
    }
  }
}
