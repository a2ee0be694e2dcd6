/** Ids: those a caller may give, and those a store makes up from a prefix and a counter,
    skipping every id it already holds. */
module Minting {
  import Decimal

  /** A name the store accepts from a caller. */
  predicate IsShaped(name: string) {
    && 1 <= |name| <= 128
    && forall i :: 0 <= i < |name| ==>
         'a' <= name[i] <= 'z' || 'A' <= name[i] <= 'Z' || '0' <= name[i] <= '9' || name[i] in "._-"
  }

  function Name(prefix: string, n: nat): string {
    prefix + "-" + Decimal.Show(n)
  }

  lemma NameInjective(prefix: string, m: nat, n: nat)
    requires Name(prefix, m) == Name(prefix, n)
    ensures m == n
  {
    var k := |prefix| + 1;
    assert Name(prefix, m)[k..] == Decimal.Show(m);
    assert Name(prefix, n)[k..] == Decimal.Show(n);
    Decimal.ShowInjective(m, n);
  }

  /** The first counter after `from` whose name is free. */
  ghost predicate FirstFree(prefix: string, taken: set<string>, from: nat, n: nat) {
    && from < n && Name(prefix, n) !in taken
    && forall k :: from < k < n ==> Name(prefix, k) in taken
  }

  lemma FirstFreeUnique(prefix: string, taken: set<string>, from: nat, m: nat, n: nat)
    requires FirstFree(prefix, taken, from, m) && FirstFree(prefix, taken, from, n)
    ensures m == n
  {
  }

  /** The names of different counters are different, so a set holds no fewer ids than
      the counters it takes. */
  lemma {:induction false} TakenBound(prefix: string, taken: set<string>, from: nat, n: nat)
    requires from < n
    requires forall k :: from < k < n ==> Name(prefix, k) in taken
    ensures n - from - 1 <= |taken|
    decreases n
  {
    if from < n - 1 {
      var id := Name(prefix, n - 1);
      var rest := taken - {id};
      forall k | from < k < n - 1 ensures Name(prefix, k) in rest {
        if Name(prefix, k) == id {
          NameInjective(prefix, k, n - 1);
        }
      }
      TakenBound(prefix, rest, from, n - 1);
      assert |rest| == |taken| - 1;
    }
  }

  /** The store's loop: count up until a name is free. It ends within one more try than
      there are ids held. */
  method Mint(prefix: string, taken: set<string>, from: nat) returns (n: nat)
    ensures FirstFree(prefix, taken, from, n)
    ensures n <= from + |taken| + 1
  {
    n := from + 1;
    while Name(prefix, n) in taken
      invariant from < n && n - from - 1 <= |taken|
      invariant forall k :: from < k < n ==> Name(prefix, k) in taken
      decreases from + |taken| + 1 - n
    {
      n := n + 1;
      TakenBound(prefix, taken, from, n);
    }
  }

  lemma {:induction false} FreeFrom(prefix: string, taken: set<string>, from: nat) returns (n: nat)
    ensures FirstFree(prefix, taken, from, n)
    decreases |taken|
  {
    var id := Name(prefix, from + 1);
    if id !in taken {
      n := from + 1;
    } else {
      n := FreeFrom(prefix, taken - {id}, from + 1);
      if Name(prefix, n) == id {
        NameInjective(prefix, n, from + 1);
        assert false;
      }
    }
  }

  /** The counter the store's loop ends on. */
  ghost function Fresh(prefix: string, taken: set<string>, from: nat): (n: nat)
    ensures FirstFree(prefix, taken, from, n)
  {
    assert exists n :: FirstFree(prefix, taken, from, n) by {
      var n := FreeFrom(prefix, taken, from);
    }
    var n :| FirstFree(prefix, taken, from, n);
    n
  }
}
