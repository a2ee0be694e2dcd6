/** Edits of the settings tree, and the same edits of its flat form. */
module SettingsEdit {
  import opened Wrappers
  import opened DottedKeys
  import opened SettingsTree
  import Ordering

  datatype Edit = Set(key: string, value: Value) | Remove(key: string)

  datatype Error = EmptyKey(key: string) | SectionExpected(path: seq<string>)

  type Root = map<string, Value>

  // ----- on the tree -----

  /** What the edit leaves of the section that holds its leaf. */
  function AtLeaf(fields: Root, name: string, e: Edit): Root {
    match e
    case Set(_, v) => fields[name := v]
    case Remove(_) => fields - {name}
  }

  /** The section of that name, an empty one when it is absent. */
  function Entry(fields: Root, name: string): Value {
    if name in fields then fields[name] else Object(map[])
  }

  /** Walk into the sections from place `i` of the path, making the ones that are absent,
      and edit the last. A section a leaf occupies is refused. */
  function Edited(fields: Root, path: seq<string>, i: nat, e: Edit): Result<Root, Error>
    requires i < |path|
    decreases |path| - i
  {
    if i == |path| - 1 then Ok(AtLeaf(fields, path[i], e))
    else
      var entry := Entry(fields, path[i]);
      if entry.Leaf? then Err(SectionExpected(path[..i + 1]))
      else
        match Edited(entry.fields, path, i + 1, e)
        case Ok(below) => Ok(fields[path[i] := Object(below)])
        case Err(error) => Err(error)
  }

  function Applied(root: Root, e: Edit): Result<Root, Error> {
    var path := Segments(e.key);
    if path == [] then Err(EmptyKey(e.key)) else Edited(root, path, 0, e)
  }

  function AppliedAll(root: Root, edits: seq<Edit>): Result<Root, Error> {
    if edits == [] then Ok(root)
    else
      match AppliedAll(root, edits[..|edits| - 1])
      case Err(error) => Err(error)
      case Ok(sofar) => Applied(sofar, edits[|edits| - 1])
  }

  lemma {:induction false} RefusedStays(root: Root, edits: seq<Edit>, i: nat)
    requires i <= |edits| && AppliedAll(root, edits[..i]).Err?
    ensures AppliedAll(root, edits) == AppliedAll(root, edits[..i])
  {
    if i < |edits| {
      assert edits[..|edits| - 1][..i] == edits[..i];
      RefusedStays(root, edits[..|edits| - 1], i);
    } else {
      assert edits[..i] == edits;
    }
  }

  /** Apply the edits one after the other and answer the flat document as it then reads;
      the first that is refused leaves everything as it was. */
  method Update(root: Root, edits: seq<Edit>) returns (r: Result<(Root, Document), Error>)
    ensures match AppliedAll(root, edits)
            case Err(error) => r == Err(error)
            case Ok(after) => r == Ok((after, DocOf(after)))
  {
    var here := root;
    for i := 0 to |edits|
      invariant AppliedAll(root, edits[..i]) == Ok(here)
    {
      assert edits[..i + 1][..i] == edits[..i];
      var next := Applied(here, edits[i]);
      if next.Err? {
        RefusedStays(root, edits, i + 1);
        return Err(next.error);
      }
      here := next.value;
    }
    assert edits[..|edits|] == edits;
    var document := Parse(here);
    return Ok((here, document));
  }

  // ----- on the flat form -----

  /** The document without `top` and everything under it. */
  function Without(d: Document, top: string): Document {
    map key | key in d && !IsUnder(key, top) :: d[key]
  }

  /** A leaf stands where a section of the path has to be. */
  predicate Blocked(d: Document, path: seq<string>) {
    exists i :: 0 < i < |path| && Join(path[..i]) in d
  }

  /** The edit of a flat document: none when it is refused. */
  function FlatEdit(d: Document, e: Edit): Option<Document> {
    var path := Segments(e.key);
    if path == [] || Blocked(d, path) then None else Some(FlatAt(d, path, e))
  }

  /** The keys an edit puts in place of what it drops. */
  function Contribution(path: seq<string>, e: Edit): Document {
    match e
    case Set(_, v) => Flat(Join(path), v)
    case Remove(_) => map[]
  }

  function FlatAt(d: Document, path: seq<string>, e: Edit): Document {
    Without(d, Join(path)) + Contribution(path, e)
  }

  function FlatEdits(d: Document, edits: seq<Edit>): Option<Document> {
    if edits == [] then Some(d)
    else
      match FlatEdits(d, edits[..|edits| - 1])
      case None => None
      case Some(sofar) => FlatEdit(sofar, edits[|edits| - 1])
  }

  // ----- the two agree -----

  /** What the edit puts at its own path. */
  function Placed(e: Edit, p: seq<string>, n: nat): Option<Scalar>
    requires n <= |p|
  {
    match e
    case Set(_, v) => LeafFrom(v, p, n)
    case Remove(_) => None
  }

  predicate IsCleanEdit(e: Edit) {
    e.Set? ==> IsClean(e.value)
  }

  /** Some section along the path, from place `i` on, is a leaf. */
  predicate BlockedFrom(v: Value, path: seq<string>, i: nat)
    requires i <= |path|
  {
    exists j :: i < j < |path| && LeafFrom(v, path[..j], i).Some?
  }

  /** `p` and the edited path have their first `i` names in common. */
  predicate Shares(p: seq<string>, path: seq<string>, i: nat) {
    i <= |p| && i <= |path| && p[..i] == path[..i]
  }

  /** What is found along `p` in the edited section: the edit's own leaves below its path,
      and everything else as it was. */
  predicate EditedAt(before: Root, after: Root, path: seq<string>, i: nat, e: Edit, p: seq<string>)
    requires Shares(p, path, i)
  {
    LeafFrom(Object(after), p, i) == if path <= p then Placed(e, p, |path|) else LeafFrom(Object(before), p, i)
  }

  ghost predicate EditMeans(before: Root, after: Root, path: seq<string>, i: nat, e: Edit) {
    forall p :: Shares(p, path, i) ==> EditedAt(before, after, path, i, e, p)
  }

  /** An edited section: refused exactly when a leaf is in the way, and otherwise clean
      again and meaning what the edit says. */
  lemma {:induction false} EditedMeans(fields: Root, path: seq<string>, i: nat, e: Edit)
    requires i < |path| && IsPath(path) && IsClean(Object(fields)) && IsCleanEdit(e)
    ensures var r := Edited(fields, path, i, e);
            && (r.Err? <==> BlockedFrom(Object(fields), path, i))
            && (r.Ok? ==> IsClean(Object(r.value)) && EditMeans(fields, r.value, path, i, e))
    decreases |path| - i
  {
    if i < |path| - 1 {
      var entry := Entry(fields, path[i]);
      if entry.Object? {
        EditedMeans(entry.fields, path, i + 1, e);
        BlockedStep(fields, path, i);
        if Edited(entry.fields, path, i + 1, e).Ok? {
          EditedStep(fields, path, i, e, Edited(entry.fields, path, i + 1, e).value);
        }
      } else {
        LeafInTheWay(fields, path, i);
      }
    } else {
      EditedAtLeaf(fields, path, e);
    }
  }

  lemma LeafInTheWay(fields: Root, path: seq<string>, i: nat)
    requires i < |path| - 1 && Entry(fields, path[i]).Leaf?
    ensures BlockedFrom(Object(fields), path, i)
  {
    assert LeafFrom(Object(fields), path[..i + 1], i) == Some(Entry(fields, path[i]).scalar);
  }

  lemma EditedAtLeaf(fields: Root, path: seq<string>, e: Edit)
    requires path != [] && IsPath(path) && IsClean(Object(fields)) && IsCleanEdit(e)
    ensures var after := AtLeaf(fields, path[|path| - 1], e);
            IsClean(Object(after)) && EditMeans(fields, after, path, |path| - 1, e)
  {
    var i, after := |path| - 1, AtLeaf(fields, path[|path| - 1], e);
    forall p | Shares(p, path, i) ensures EditedAt(fields, after, path, i, e, p) {
      SamePlace(path, p, i);
    }
  }

  /** With the first `i` names in common, a path goes on into the edited one only through
      its next name. */
  lemma SamePlace(path: seq<string>, p: seq<string>, i: nat)
    requires i < |path| && i <= |p| && p[..i] == path[..i]
    ensures i < |p| && p[i] == path[i] <==> i < |p| && p[..i + 1] == path[..i + 1]
    ensures path <= p ==> i < |p| && p[i] == path[i]
    ensures i == |path| - 1 ==> (path <= p <==> i < |p| && p[i] == path[i])
  {
    if i < |p| {
      assert p[..i + 1] == p[..i] + [p[i]];
    }
    assert path[..i + 1] == path[..i] + [path[i]];
    if i == |path| - 1 {
      assert path[..i + 1] == path;
    }
    if path <= p {
      assert p[i] == path[i];
    }
  }

  lemma BlockedStep(fields: Root, path: seq<string>, i: nat)
    requires i < |path| - 1 && Entry(fields, path[i]).Object?
    ensures BlockedFrom(Object(fields), path, i) <==> BlockedFrom(Entry(fields, path[i]), path, i + 1)
  {
    var entry := Entry(fields, path[i]);
    forall j | i < j < |path|
      ensures LeafFrom(Object(fields), path[..j], i).Some? <==> j > i + 1 && LeafFrom(entry, path[..j], i + 1).Some?
    {
      assert path[..j][i] == path[i];
    }
  }

  lemma EditedStep(fields: Root, path: seq<string>, i: nat, e: Edit, below: Root)
    requires i < |path| - 1 && IsPath(path) && IsClean(Object(fields)) && IsClean(Object(below))
    requires Entry(fields, path[i]).Object? && EditMeans(Entry(fields, path[i]).fields, below, path, i + 1, e)
    ensures var after := fields[path[i] := Object(below)];
            IsClean(Object(after)) && EditMeans(fields, after, path, i, e)
  {
    var entry, after := Entry(fields, path[i]), fields[path[i] := Object(below)];
    forall p | Shares(p, path, i) ensures EditedAt(fields, after, path, i, e, p) {
      SamePlace(path, p, i);
      if i < |p| && p[i] == path[i] {
        assert Shares(p, path, i + 1);
        assert EditedAt(entry.fields, below, path, i + 1, e, p);
        assert path[i] !in fields ==> LeafFrom(entry, p, i + 1).None?;
      }
    }
  }

  lemma BlockedAlike(root: Root, d: Document, path: seq<string>)
    requires IsPath(path) && Spells(d, [], Object(root))
    ensures Blocked(d, path) <==> BlockedFrom(Object(root), path, 0)
  {
    forall i | 0 < i < |path| ensures Join(path[..i]) in d <==> LeafFrom(Object(root), path[..i], 0).Some? {
      assert Below(path[..i], []);
    }
  }

  lemma SpellsIncluded(a: Document, b: Document, v: Value)
    requires Spells(a, [], v) && Spells(b, [], v)
    ensures forall key :: key in a ==> key in b && b[key] == a[key]
  {
    forall key | key in a ensures key in b && b[key] == a[key] {
      var p :| Below(p, []) && key == Join(p);
      assert Find(a, key) == LeafFrom(v, p, 0) == Find(b, key);
    }
  }

  /** Only one document spells a given tree. */
  lemma SpellsUnique(a: Document, b: Document, v: Value)
    requires Spells(a, [], v) && Spells(b, [], v)
    ensures a == b
  {
    SpellsIncluded(a, b, v);
    SpellsIncluded(b, a, v);
  }

  /** `placed` spells the edit's own leaves. */
  ghost predicate IsPlaced(placed: Document, path: seq<string>, e: Edit) {
    && KeysBelow(placed, path)
    && forall p :: Below(p, path) ==> Find(placed, Join(p)) == Placed(e, p, |path|)
  }

  /** Dropping what is under the edited key and adding the edit's own leaves spells the
      edited tree. */
  lemma WithoutSpells(d: Document, before: Root, after: Root, path: seq<string>, e: Edit, placed: Document)
    requires path != [] && IsPath(path)
    requires Spells(d, [], Object(before)) && EditMeans(before, after, path, 0, e) && IsPlaced(placed, path, e)
    ensures Spells(Without(d, Join(path)) + placed, [], Object(after))
  {
    var kept := Without(d, Join(path));
    forall p | Below(p, []) ensures Find(kept + placed, Join(p)) == LeafFrom(Object(after), p, 0) {
      assert Shares(p, path, 0);
      assert EditedAt(before, after, path, 0, e, p);
      UnderIsPrefix(path, p);
      if path <= p {
        assert Below(p, path);
      } else if Join(p) in placed {
        var q :| Below(q, path) && Join(p) == Join(q);
        UnderIsPrefix(path, q);
      }
    }
    forall key | key in kept + placed ensures exists p :: Below(p, []) && key == Join(p) {
      if key in placed {
        var q :| Below(q, path) && key == Join(q);
        assert Below(q, []);
      }
    }
  }

  /** Editing the tree and then flattening is flattening and then editing the flat form:
      refused in the same cases, and otherwise the old document without the key and
      everything under it, with the new value's own leaves put there by a `Set`. */
  lemma EditCommutes(root: Root, e: Edit)
    requires IsClean(Object(root)) && IsCleanEdit(e)
    ensures match Applied(root, e)
            case Err(_) => FlatEdit(DocOf(root), e) == None
            case Ok(after) => IsClean(Object(after)) && FlatEdit(DocOf(root), e) == Some(DocOf(after))
  {
    var path, d := Segments(e.key), DocOf(root);
    CutIsPath(e.key, []);
    DocSpells(root);
    if path != [] {
      EditedMeans(root, path, 0, e);
      BlockedAlike(root, d, path);
      if Edited(root, path, 0, e).Ok? {
        var after := Edited(root, path, 0, e).value;
        FlatSide(d, root, after, path, e);
        DocSpells(after);
        SpellsUnique(DocOf(after), FlatAt(d, path, e), Object(after));
      }
    }
  }

  lemma FlatSide(d: Document, before: Root, after: Root, path: seq<string>, e: Edit)
    requires path != [] && IsPath(path) && IsCleanEdit(e)
    requires Spells(d, [], Object(before)) && EditMeans(before, after, path, 0, e)
    ensures Spells(FlatAt(d, path, e), [], Object(after))
  {
    ContributionPlaced(path, e);
    WithoutSpells(d, before, after, path, e, Contribution(path, e));
  }

  lemma ContributionPlaced(path: seq<string>, e: Edit)
    requires path != [] && IsPath(path) && IsCleanEdit(e)
    ensures IsPlaced(Contribution(path, e), path, e)
  {
    if e.Set? {
      FlatSpells(path, e.value);
    }
  }

  /** A list of edits is the fold of the flat ones, refused as a whole when any of them
      is. */
  lemma {:induction false} EditsCommute(root: Root, edits: seq<Edit>)
    requires IsClean(Object(root)) && forall i :: 0 <= i < |edits| ==> IsCleanEdit(edits[i])
    ensures match AppliedAll(root, edits)
            case Err(_) => FlatEdits(DocOf(root), edits) == None
            case Ok(after) => IsClean(Object(after)) && FlatEdits(DocOf(root), edits) == Some(DocOf(after))
  {
    if edits != [] {
      var early := edits[..|edits| - 1];
      EditsCommute(root, early);
      if AppliedAll(root, early).Ok? {
        EditCommutes(AppliedAll(root, early).value, edits[|edits| - 1]);
      }
    }
  }

  /** Taking out a key that is not there is refused in one case only: a leaf stands where
      one of its sections would be. Otherwise it changes nothing in the flat document. */
  lemma RemoveAbsent(root: Root, key: string)
    requires IsClean(Object(root)) && Segments(key) != []
    requires forall k :: k in DocOf(root) ==> !IsUnder(k, Join(Segments(key)))
    ensures var r := Applied(root, Remove(key));
            && (r.Err? <==> Blocked(DocOf(root), Segments(key)))
            && (r.Ok? ==> DocOf(r.value) == DocOf(root))
  {
    EditCommutes(root, Remove(key));
    AbsentAlready(DocOf(root), Segments(key), Remove(key));
  }

  /** The section is a proper part of the path, from its start, and holds a value in the
      document. */
  predicate IsInTheWay(d: Document, path: seq<string>, section: seq<string>) {
    0 < |section| < |path| && section == path[..|section|] && Join(section) in d
  }

  /** A refusal names the section that is a leaf. Nothing else is refused but a key of no
      names. */
  lemma RefusalNames(root: Root, e: Edit)
    requires IsClean(Object(root)) && IsCleanEdit(e)
    ensures var path := Segments(e.key);
            match Applied(root, e)
            case Ok(_) => path != []
            case Err(EmptyKey(key)) => path == [] && key == e.key
            case Err(SectionExpected(section)) => IsInTheWay(DocOf(root), path, section)
  {
    if Segments(e.key) != [] {
      CutIsPath(e.key, []);
      RefusalOnPath(root, Segments(e.key), e);
    }
  }

  lemma RefusalOnPath(root: Root, path: seq<string>, e: Edit)
    requires IsClean(Object(root)) && path != [] && IsPath(path)
    ensures match Edited(root, path, 0, e)
            case Ok(_) => true
            case Err(EmptyKey(_)) => false
            case Err(SectionExpected(section)) => IsInTheWay(DocOf(root), path, section)
  {
    RefusedAt(root, path, 0, e);
    if Edited(root, path, 0, e).Err? {
      DocSpells(root);
      LeafIsListed(root, DocOf(root), Edited(root, path, 0, e).error.path);
    }
  }

  lemma LeafIsListed(root: Root, d: Document, path: seq<string>)
    requires Spells(d, [], Object(root)) && path != [] && IsPath(path) && LeafFrom(Object(root), path, 0).Some?
    ensures Join(path) in d
  {
    assert Below(path, []);
  }

  lemma {:induction false} RefusedAt(fields: Root, path: seq<string>, i: nat, e: Edit)
    requires i < |path|
    ensures match Edited(fields, path, i, e)
            case Ok(_) => true
            case Err(EmptyKey(_)) => false
            case Err(SectionExpected(section)) =>
              i < |section| < |path| && section == path[..|section|] && LeafFrom(Object(fields), section, i).Some?
    decreases |path| - i
  {
    if i < |path| - 1 {
      var entry := Entry(fields, path[i]);
      if entry.Object? {
        RefusedAt(entry.fields, path, i + 1, e);
      }
    }
  }

  /** Taking `llm.model` out of a document whose `llm` is a leaf is refused, though there is
      no such key in it. */
  lemma RemoveRefused(leaf: Scalar)
    ensures var root: Root := map["llm" := Leaf(leaf)];
            && Applied(root, Remove("llm.model")) == Err(SectionExpected(["llm"]))
            && Without(DocOf(root), "llm.model") == DocOf(root)
  {
    LlmModel();
    OneLeaf(map["llm" := Leaf(leaf)], "llm", leaf);
  }

  lemma LlmModel()
    ensures Segments("llm.model") == ["llm", "model"] && ["llm", "model"][..1] == ["llm"]
    ensures !IsUnder("llm", "llm.model")
  {
    var path := ["llm", "model"];
    assert path[..1] == ["llm"] && Join(path) == "llm.model";
    SegmentsJoin(path);
  }

  lemma OneLeaf(root: Root, name: string, leaf: Scalar)
    requires root == map[name := Leaf(leaf)]
    ensures DocOf(root) == map[name := leaf]
  {
    var names := Ordering.Enumerate(root.Keys, Ordering.BY_KEY);
    assert root.Keys == {name} && |names| == 1 && names[0] in root;
    assert names[..0] == [] && DocFields(root, names[..0]) == map[];
  }

  lemma AbsentAlready(d: Document, path: seq<string>, e: Edit)
    requires e.Remove? && forall k :: k in d ==> !IsUnder(k, Join(path))
    ensures FlatAt(d, path, e) == d
  {
    assert Without(d, Join(path)) == d;
  }
}
