/** Dotted keys and the paths of names they spell. */
module DottedKeys {
  /** A section or leaf name that a dotted key can spell. */
  predicate IsName(s: string) {
    s != [] && '.' !in s
  }

  predicate IsPath(p: seq<string>) {
    forall i :: 0 <= i < |p| ==> IsName(p[i])
  }

  /** The names of a path joined by dots. */
  function Join(p: seq<string>): string {
    if p == [] then "" else if |p| == 1 then p[0] else Join(p[..|p| - 1]) + "." + p[|p| - 1]
  }

  function Named(s: string): seq<string> {
    if s == [] then [] else [s]
  }

  /** `key` followed by `tail`, which has no dot, cut at its dots with empty pieces
      dropped. */
  function Cut(key: string, tail: string): seq<string> {
    if key == [] then Named(tail)
    else
      var rest, c := key[..|key| - 1], key[|key| - 1];
      if c == '.' then Cut(rest, []) + Named(tail) else Cut(rest, [c] + tail)
  }

  /** A key cut at its dots, empty pieces dropped. */
  function Segments(key: string): seq<string> {
    Cut(key, [])
  }

  lemma {:induction false} CutIsPath(key: string, tail: string)
    requires '.' !in tail
    ensures IsPath(Cut(key, tail))
  {
    if key != [] {
      var rest, c := key[..|key| - 1], key[|key| - 1];
      if c == '.' {
        CutIsPath(rest, []);
      } else {
        CutIsPath(rest, [c] + tail);
      }
    }
  }

  lemma {:induction false} CutName(key: string, tail: string)
    requires '.' !in key
    ensures Cut(key, tail) == Named(key + tail)
  {
    if key == [] {
      assert key + tail == tail;
    } else {
      var rest, c := key[..|key| - 1], key[|key| - 1];
      assert c in key && forall x :: x in rest ==> x in key;
      CutName(rest, [c] + tail);
      assert key + tail == rest + ([c] + tail);
    }
  }

  lemma {:induction false} CutAppend(a: string, b: string, tail: string)
    ensures Cut(a + "." + b, tail) == Segments(a) + Cut(b, tail)
    decreases |b|
  {
    var key := a + "." + b;
    if b == [] {
      assert key[..|key| - 1] == a && key[|key| - 1] == '.';
    } else {
      var rest, c := b[..|b| - 1], b[|b| - 1];
      assert key[..|key| - 1] == a + "." + rest && key[|key| - 1] == c;
      if c == '.' {
        CutAppend(a, rest, []);
        assert Segments(a) + (Cut(rest, []) + Named(tail)) == Segments(a) + Cut(rest, []) + Named(tail);
      } else {
        CutAppend(a, rest, [c] + tail);
      }
    }
  }

  /** A path survives being joined and cut again, so different paths have different keys. */
  lemma {:induction false} SegmentsJoin(p: seq<string>)
    requires p != [] && IsPath(p)
    ensures Segments(Join(p)) == p
  {
    var last := p[|p| - 1];
    assert IsName(last);
    CutName(last, []);
    assert last + [] == last;
    if |p| == 1 {
      assert p == [last];
    } else {
      SegmentsJoin(p[..|p| - 1]);
      CutAppend(Join(p[..|p| - 1]), last, []);
      assert p[..|p| - 1] + [last] == p;
    }
  }

  lemma {:induction false} JoinAppend(p: seq<string>, q: seq<string>)
    requires p != [] && q != []
    ensures Join(p + q) == Join(p) + "." + Join(q)
  {
    var pq := p + q;
    if |q| == 1 {
      assert pq[..|pq| - 1] == p;
    } else {
      assert pq[..|pq| - 1] == p + q[..|q| - 1];
      JoinAppend(p, q[..|q| - 1]);
    }
  }

  /** `key` is `top` or lies under it. */
  predicate IsUnder(key: string, top: string) {
    key == top || top + "." <= key
  }

  /** One key lies under another exactly when its path goes on from the other's. */
  lemma UnderIsPrefix(p: seq<string>, q: seq<string>)
    requires p != [] && q != [] && IsPath(p) && IsPath(q)
    ensures IsUnder(Join(q), Join(p)) <==> p <= q
  {
    SegmentsJoin(p);
    SegmentsJoin(q);
    var top, key := Join(p), Join(q);
    if top + "." <= key {
      var rest := key[|top + "."|..];
      assert key == top + "." + rest;
      CutAppend(top, rest, []);
    }
    if p <= q && p != q {
      var rest := q[|p|..];
      assert q == p + rest;
      JoinAppend(p, rest);
    }
  }
}
