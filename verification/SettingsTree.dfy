/** The settings document as a nested tree, its flat dotted form, and edits of the tree. */
module SettingsTree {
  import opened Wrappers
  import opened DottedKeys
  import Ordering

  /** A leaf value. A list is one value; its members are not looked at. */
  datatype Scalar = Null | Boolean(b: bool) | Number(n: real) | Text(s: string) | List(items: string)

  datatype Value = Leaf(scalar: Scalar) | Object(fields: map<string, Value>)

  type Document = map<string, Scalar>

  // ----- flattening -----

  /** The keys one value contributes at `prefix`, section by section in name order. */
  function Flat(prefix: string, v: Value): Document
    decreases v, 0
  {
    match v
    case Leaf(s) => map[prefix := s]
    case Object(fields) => FlatFields(prefix, v, Ordering.Enumerate(fields.Keys, Ordering.BY_KEY))
  }

  function FlatFields(prefix: string, v: Value, names: seq<string>): Document
    requires v.Object? && forall i :: 0 <= i < |names| ==> names[i] in v.fields
    decreases v, 0, |names|
  {
    if names == [] then map[]
    else
      var last := names[|names| - 1];
      FlatFields(prefix, v, names[..|names| - 1]) + Flat(prefix + "." + last, v.fields[last])
  }

  /** The flat document of a root map: each section is a prefix of its own. */
  function DocOf(root: map<string, Value>): Document {
    DocFields(root, Ordering.Enumerate(root.Keys, Ordering.BY_KEY))
  }

  function DocFields(root: map<string, Value>, names: seq<string>): Document
    requires forall i :: 0 <= i < |names| ==> names[i] in root
  {
    if names == [] then map[]
    else
      var last := names[|names| - 1];
      DocFields(root, names[..|names| - 1]) + Flat(last, root[last])
  }

  lemma FlatFieldsMore(document: Document, prefix: string, v: Value, names: seq<string>, i: nat)
    requires v.Object? && i < |names| && forall k :: 0 <= k < |names| ==> names[k] in v.fields
    ensures document + FlatFields(prefix, v, names[..i + 1]) ==
            document + FlatFields(prefix, v, names[..i]) + Flat(prefix + "." + names[i], v.fields[names[i]])
  {
    assert names[..i + 1][..i] == names[..i];
  }

  lemma DocFieldsMore(root: map<string, Value>, names: seq<string>, i: nat)
    requires i < |names| && forall k :: 0 <= k < |names| ==> names[k] in root
    ensures DocFields(root, names[..i + 1]) == DocFields(root, names[..i]) + Flat(names[i], root[names[i]])
  {
    assert names[..i + 1][..i] == names[..i];
  }

  /** Add the keys of one section to the document being built. An empty section adds none. */
  method FlattenInto(prefix: string, v: Value, document: Document) returns (d: Document)
    ensures d == document + Flat(prefix, v)
    decreases v, 1
  {
    if v.Leaf? {
      d := document[prefix := v.scalar];
    } else {
      d := FlattenFields(prefix, v, Ordering.Enumerate(v.fields.Keys, Ordering.BY_KEY), document);
    }
  }

  method FlattenFields(prefix: string, v: Value, names: seq<string>, document: Document) returns (d: Document)
    requires v.Object? && forall i :: 0 <= i < |names| ==> names[i] in v.fields
    ensures d == document + FlatFields(prefix, v, names)
    decreases v, 0
  {
    d := document;
    assert names[..0] == [] && document + map[] == document;
    for i := 0 to |names|
      invariant d == document + FlatFields(prefix, v, names[..i])
    {
      FlatFieldsMore(document, prefix, v, names, i);
      d := FlattenInto(prefix + "." + names[i], v.fields[names[i]], d);
    }
    assert names[..|names|] == names;
  }

  /** The tree half of reading a document. */
  method Parse(root: map<string, Value>) returns (d: Document)
    ensures d == DocOf(root)
  {
    d := ParseSections(root, Ordering.Enumerate(root.Keys, Ordering.BY_KEY));
  }

  method ParseSections(root: map<string, Value>, names: seq<string>) returns (d: Document)
    requires forall i :: 0 <= i < |names| ==> names[i] in root
    ensures d == DocFields(root, names)
  {
    d := map[];
    assert names[..0] == [];
    for i := 0 to |names|
      invariant d == DocFields(root, names[..i])
    {
      DocFieldsMore(root, names, i);
      d := FlattenInto(names[i], root[names[i]], d);
    }
    assert names[..|names|] == names;
  }

  // ----- what flattening means -----

  /** Every name in the tree is one a dotted key can spell. */
  predicate IsClean(v: Value) {
    match v
    case Leaf(_) => true
    case Object(fields) => forall n :: n in fields ==> IsName(n) && IsClean(fields[n])
  }

  /** The leaf reached from `v` by the names of `p` from place `i` on. */
  function LeafFrom(v: Value, p: seq<string>, i: nat): Option<Scalar>
    requires i <= |p|
    decreases |p| - i
  {
    if i == |p| then (if v.Leaf? then Some(v.scalar) else None)
    else if v.Object? && p[i] in v.fields then LeafFrom(v.fields[p[i]], p, i + 1)
    else None
  }

  function Find(d: Document, key: string): Option<Scalar> {
    if key in d then Some(d[key]) else None
  }

  /** A path that goes on from `top`. */
  predicate Below(p: seq<string>, top: seq<string>) {
    p != [] && IsPath(p) && top <= p
  }

  /** Every key of `d` is spelled by a path below `top`. */
  ghost predicate KeysBelow(d: Document, top: seq<string>) {
    forall key :: key in d ==> exists p :: Below(p, top) && key == Join(p)
  }

  /** `d` holds exactly the leaves of `v`, each under the key its path below `top` spells. */
  ghost predicate Spells(d: Document, top: seq<string>, v: Value) {
    && KeysBelow(d, top)
    && forall p :: Below(p, top) ==> Find(d, Join(p)) == LeafFrom(v, p, |top|)
  }

  predicate Through(p: seq<string>, i: nat, names: seq<string>) {
    i < |p| && p[i] in names
  }

  /** `d` holds exactly the leaves of those members of `v` that are named. */
  ghost predicate SpellsSome(d: Document, top: seq<string>, v: Value, names: seq<string>) {
    && KeysBelow(d, top)
    && forall p :: Below(p, top) ==>
         Find(d, Join(p)) == if Through(p, |top|, names) then LeafFrom(v, p, |top|) else None
  }

  lemma JoinInjective(p: seq<string>, q: seq<string>)
    requires p != [] && q != [] && IsPath(p) && IsPath(q) && Join(p) == Join(q)
    ensures p == q
  {
    SegmentsJoin(p);
    SegmentsJoin(q);
  }

  /** A value flattens to exactly its leaves, so long as a dotted key can spell every name
      in it. */
  lemma {:induction false} FlatSpells(top: seq<string>, v: Value)
    requires top != [] && IsPath(top) && IsClean(v)
    ensures Spells(Flat(Join(top), v), top, v)
    decreases v, 0
  {
    match v
    case Leaf(_) =>
      LeafSpells(top, v);
    case Object(fields) =>
      var names := Ordering.Enumerate(fields.Keys, Ordering.BY_KEY);
      FlatFieldsSpell(top, v, names);
      SectionSpells(FlatFields(Join(top), v, names), top, v, names);
  }

  lemma LeafSpells(top: seq<string>, v: Value)
    requires top != [] && IsPath(top) && v.Leaf?
    ensures Spells(map[Join(top) := v.scalar], top, v)
  {
    var d := map[Join(top) := v.scalar];
    forall p | Below(p, top) ensures Find(d, Join(p)) == LeafFrom(v, p, |top|) {
      if p != top {
        assert |p| > |top|;
        if Join(p) == Join(top) {
          JoinInjective(p, top);
        }
      }
    }
    assert Below(top, top);
  }

  lemma SectionSpells(d: Document, top: seq<string>, v: Value, names: seq<string>)
    requires v.Object? && SpellsSome(d, top, v, names) && forall n :: n in names <==> n in v.fields
    ensures Spells(d, top, v)
  {
  }

  lemma {:induction false} FlatFieldsSpell(top: seq<string>, v: Value, names: seq<string>)
    requires top != [] && IsPath(top) && IsClean(v) && v.Object?
    requires forall i :: 0 <= i < |names| ==> names[i] in v.fields
    requires forall i, j :: 0 <= i < j < |names| ==> names[i] != names[j]
    ensures SpellsSome(FlatFields(Join(top), v, names), top, v, names)
    decreases v, 0, |names|
  {
    if names != [] {
      var early, last := names[..|names| - 1], names[|names| - 1];
      var down := top + [last];
      FlatFieldsSpell(top, v, early);
      assert down[..|down| - 1] == top;
      FlatSpells(down, v.fields[last]);
      assert last !in early;
      Together(top, v, early, last, FlatFields(Join(top), v, early), Flat(Join(down), v.fields[last]));
      assert early + [last] == names;
    }
  }

  /** The leaves of one more member, added to those of the members before it. */
  lemma Together(top: seq<string>, v: Value, early: seq<string>, last: string, a: Document, b: Document)
    requires IsPath(top) && v.Object? && last in v.fields && IsName(last) && last !in early
    requires SpellsSome(a, top, v, early) && Spells(b, top + [last], v.fields[last])
    ensures SpellsSome(a + b, top, v, early + [last])
  {
    var down := top + [last];
    forall p | Below(p, top)
      ensures Find(a + b, Join(p)) == if Through(p, |top|, early + [last]) then LeafFrom(v, p, |top|) else None
    {
      if Through(p, |top|, [last]) {
        assert down <= p;
        assert Below(p, down);
      } else if Join(p) in b {
        var r :| Below(r, down) && Join(p) == Join(r);
        assert r[..|down|] == down && down[|top|] == last;
        JoinInjective(p, r);
      }
    }
    forall key | key in a + b ensures exists p :: Below(p, top) && key == Join(p) {
      if key in b {
        var r :| Below(r, down) && key == Join(r);
        assert top <= down <= r;
      }
    }
  }

  lemma {:induction false} DocFieldsSpell(root: map<string, Value>, names: seq<string>)
    requires IsClean(Object(root))
    requires forall i :: 0 <= i < |names| ==> names[i] in root
    requires forall i, j :: 0 <= i < j < |names| ==> names[i] != names[j]
    ensures SpellsSome(DocFields(root, names), [], Object(root), names)
  {
    if names != [] {
      var early, last := names[..|names| - 1], names[|names| - 1];
      DocFieldsSpell(root, early);
      FlatSpells([last], root[last]);
      assert last !in early && [] + [last] == [last];
      Together([], Object(root), early, last, DocFields(root, early), Flat(last, root[last]));
      assert early + [last] == names;
    }
  }

  /** The flat document of a clean tree holds exactly its leaves, each under the key its
      path spells. */
  lemma DocSpells(root: map<string, Value>)
    requires IsClean(Object(root))
    ensures Spells(DocOf(root), [], Object(root))
  {
    var names := Ordering.Enumerate(root.Keys, Ordering.BY_KEY);
    DocFieldsSpell(root, names);
    SectionSpells(DocOf(root), [], Object(root), names);
  }
}
