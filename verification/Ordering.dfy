/** The order of string keys, and the enumeration of a key set by rank and then by key.

    A `BTreeMap<String, _>` walks its keys in this order with every rank equal; a sort by
    an instant with the id as tie-break is the same enumeration with the instant as rank. */
module Ordering {
  /** Lexicographic order by code point, which is the order of the UTF-8 bytes. */
  predicate AtMost(a: string, b: string) {
    a == [] || (b != [] && (a[0] < b[0] || (a[0] == b[0] && AtMost(a[1..], b[1..]))))
  }

  lemma {:induction false} AtMostTotal(a: string, b: string)
    ensures AtMost(a, b) || AtMost(b, a)
    ensures AtMost(a, b) && AtMost(b, a) ==> a == b
  {
    if a != [] && b != [] {
      AtMostTotal(a[1..], b[1..]);
      assert a == [a[0]] + a[1..] && b == [b[0]] + b[1..];
    }
  }

  lemma {:induction false} AtMostTransitive(a: string, b: string, c: string)
    requires AtMost(a, b) && AtMost(b, c)
    ensures AtMost(a, c)
  {
    if a != [] && a[0] == b[0] == c[0] {
      AtMostTransitive(a[1..], b[1..], c[1..]);
    }
  }

  /** Every key of one rank, which leaves the order of the keys themselves. */
  const BY_KEY: string -> nat := _ => 0

  /** `a` comes no later than `b` by rank, ties broken by the key. */
  predicate Before(rank: string -> nat, a: string, b: string) {
    rank(a) < rank(b) || (rank(a) == rank(b) && AtMost(a, b))
  }

  predicate Least(ids: set<string>, rank: string -> nat, m: string) {
    m in ids && forall x :: x in ids ==> Before(rank, m, x)
  }

  lemma LeastExists(ids: set<string>, rank: string -> nat)
    requires ids != {}
    ensures exists m :: Least(ids, rank, m)
  {
    var k :| k in ids;
    var rest := ids - {k};
    AtMostTotal(k, k);
    if rest == {} {
      assert ids == rest + {k};
      assert Least(ids, rank, k);
    } else {
      LeastExists(rest, rank);
      var m :| Least(rest, rank, m);
      AtMostTotal(k, m);
      var w := if Before(rank, k, m) then k else m;
      forall x | x in ids ensures Before(rank, w, x) {
        if x != k {
          assert x in rest && Before(rank, m, x);
          if w == k && rank(k) == rank(x) {
            AtMostTransitive(k, m, x);
          }
        }
      }
      assert Least(ids, rank, w);
    }
  }

  lemma LeastUnique(ids: set<string>, rank: string -> nat, m: string, n: string)
    requires Least(ids, rank, m) && Least(ids, rank, n)
    ensures m == n
  {
    AtMostTotal(m, n);
  }

  /** The member of `ids` that comes before every other. */
  function First(ids: set<string>, rank: string -> nat): (m: string)
    requires ids != {}
    ensures Least(ids, rank, m)
  {
    LeastExists(ids, rank);
    assert forall m, n :: Least(ids, rank, m) && Least(ids, rank, n) ==> m == n by {
      forall m, n | Least(ids, rank, m) && Least(ids, rank, n) ensures m == n {
        LeastUnique(ids, rank, m, n);
      }
    }
    var m :| m in ids && Least(ids, rank, m);
    m
  }

  /** Every key of `ids`, once each, least rank first and then least key. */
  function Enumerate(ids: set<string>, rank: string -> nat): (s: seq<string>)
    ensures |s| == |ids|
    ensures forall x :: x in s <==> x in ids
    ensures forall i :: 0 <= i < |s| ==> s[i] in ids
    ensures forall i, j :: 0 <= i < j < |s| ==> s[i] != s[j] && Before(rank, s[i], s[j])
  {
    if ids == {} then []
    else
      var m := First(ids, rank);
      var rest := Enumerate(ids - {m}, rank);
      assert forall x :: x in [m] + rest <==> x == m || x in rest;
      [m] + rest
  }
}
