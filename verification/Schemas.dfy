/** What a settings document may say, and the gate every re-read passes. */
module Schemas {
  import opened Wrappers
  import opened DottedKeys
  import opened SettingsTree
  import SettingsEdit
  import Ordering

  datatype Kind = ABoolean | AWhole | ANumber | AText | AList | Anything

  type Schema = map<string, Kind>

  datatype Fault = SectionExpected(key: string) | BadValue(key: string, kind: Kind)

  datatype Refusal = One(fault: Fault) | Rejected(first: Fault, others: seq<Fault>)

  /** A whole number written with a decimal point is still whole. */
  predicate Accepts(kind: Kind, value: Scalar) {
    match kind
    case ABoolean => value.Boolean?
    case AWhole => value.Number? && value.n == value.n.Floor as real
    case ANumber => value.Number?
    case AText => value.Text?
    case AList => value.List?
    case Anything => true
  }

  predicate IsWhole(value: Scalar, n: int) {
    value == Number(n as real)
  }

  /** A boolean kind takes booleans, a whole kind the numbers that are whole, however they
      were written, a number kind every number, a text kind text and a list kind lists. Only
      the kind for anything takes a null. */
  lemma AcceptsExactly(value: Scalar)
    ensures Accepts(ABoolean, value) <==> exists b :: value == Boolean(b)
    ensures Accepts(AWhole, value) <==> exists n :: IsWhole(value, n)
    ensures Accepts(ANumber, value) <==> exists x :: value == Number(x)
    ensures Accepts(AText, value) <==> exists s :: value == Text(s)
    ensures Accepts(AList, value) <==> exists items :: value == List(items)
    ensures Accepts(Anything, value)
  {
    if value.Number? {
      assert value.n == value.n.Floor as real ==> IsWhole(value, value.n.Floor);
    }
  }

  /** Some declared key sits under this one; the dot matters. */
  predicate IsSection(schema: Schema, key: string) {
    exists declared :: declared in schema && key + "." <= declared
  }

  function FaultAt(schema: Schema, key: string, value: Scalar): Option<Fault> {
    if IsSection(schema, key) then Some(SectionExpected(key))
    else if key in schema && !Accepts(schema[key], value) then Some(BadValue(key, schema[key]))
    else None
  }

  /** No value stands where a section is declared, and every declared key holds its kind. */
  predicate Conforms(schema: Schema, document: Document) {
    forall key :: key in document ==>
      !IsSection(schema, key) && (key in schema ==> Accepts(schema[key], document[key]))
  }

  /** The faults of the named keys, in their order. */
  function FaultsOf(schema: Schema, document: Document, keys: seq<string>): seq<Fault>
    requires forall i :: 0 <= i < |keys| ==> keys[i] in document
  {
    if keys == [] then []
    else FaultsOf(schema, document, keys[..|keys| - 1]) + FaultList(schema, document, keys[|keys| - 1])
  }

  function FaultList(schema: Schema, document: Document, key: string): seq<Fault>
    requires key in document
  {
    var fault := FaultAt(schema, key, document[key]);
    if fault.Some? then [fault.value] else []
  }

  function AllFaults(schema: Schema, document: Document): seq<Fault> {
    FaultsOf(schema, document, Ordering.Enumerate(document.Keys, Ordering.BY_KEY))
  }

  /** Every fault, not the first only. */
  method Check(schema: Schema, document: Document) returns (faults: seq<Fault>)
    ensures faults == AllFaults(schema, document)
  {
    faults := CheckKeys(schema, document, Ordering.Enumerate(document.Keys, Ordering.BY_KEY));
  }

  method CheckKeys(schema: Schema, document: Document, keys: seq<string>) returns (faults: seq<Fault>)
    requires forall i :: 0 <= i < |keys| ==> keys[i] in document
    ensures faults == FaultsOf(schema, document, keys)
  {
    faults := [];
    for i := 0 to |keys|
      invariant faults == FaultsOf(schema, document, keys[..i])
    {
      assert keys[..i + 1][..i] == keys[..i];
      var fault := FaultAt(schema, keys[i], document[keys[i]]);
      if fault.Some? {
        faults := faults + [fault.value];
      }
    }
    assert keys[..|keys|] == keys;
  }

  ghost predicate IsFaultOf(fault: Fault, schema: Schema, document: Document, keys: seq<string>) {
    && fault.key in keys && fault.key in document
    && FaultAt(schema, fault.key, document[fault.key]) == Some(fault)
  }

  lemma {:induction false} FaultsAreReal(schema: Schema, document: Document, keys: seq<string>, fault: Fault)
    requires forall i :: 0 <= i < |keys| ==> keys[i] in document
    ensures fault in FaultsOf(schema, document, keys) <==> IsFaultOf(fault, schema, document, keys)
  {
    if keys != [] {
      var early, last := keys[..|keys| - 1], keys[|keys| - 1];
      assert keys == early + [last];
      FaultsAreReal(schema, document, early, fault);
    }
  }

  /** A value stands where a section is declared, or else a declared key holds a value that
      is not of its kind. */
  predicate IsFault(fault: Fault, schema: Schema, document: Document) {
    && fault.key in document
    && match fault
       case SectionExpected(key) => IsSection(schema, key)
       case BadValue(key, kind) =>
         !IsSection(schema, key) && key in schema && kind == schema[key] && !Accepts(kind, document[key])
  }

  /** Every key at fault is reported, and nothing else is. */
  lemma FaultsMeaning(schema: Schema, document: Document)
    ensures forall fault :: fault in AllFaults(schema, document) <==> IsFault(fault, schema, document)
  {
    var keys := Ordering.Enumerate(document.Keys, Ordering.BY_KEY);
    forall fault
      ensures fault in AllFaults(schema, document) <==> IsFaultOf(fault, schema, document, keys)
    {
      FaultsAreReal(schema, document, keys, fault);
    }
  }

  /** A document has no fault exactly when it conforms. */
  lemma FaultlessConforms(schema: Schema, document: Document)
    ensures AllFaults(schema, document) == [] <==> Conforms(schema, document)
  {
    var keys := Ordering.Enumerate(document.Keys, Ordering.BY_KEY);
    forall fault
      ensures fault in AllFaults(schema, document) <==> IsFaultOf(fault, schema, document, keys)
    {
      FaultsAreReal(schema, document, keys, fault);
    }
    NoneAtFault(schema, document, keys, AllFaults(schema, document));
  }

  lemma NoneAtFault(schema: Schema, document: Document, keys: seq<string>, faults: seq<Fault>)
    requires forall key :: key in keys <==> key in document
    requires forall fault :: fault in faults <==> IsFaultOf(fault, schema, document, keys)
    ensures faults == [] <==> Conforms(schema, document)
  {
    if faults != [] {
      assert faults[0] in faults;
      assert IsFaultOf(faults[0], schema, document, keys);
    } else {
      forall key | key in document ensures FaultAt(schema, key, document[key]) == None {
        var fault := FaultAt(schema, key, document[key]);
        assert fault.Some? ==> IsFaultOf(fault.value, schema, document, keys);
      }
    }
  }

  /** Each key is at fault once, and the faults come in key order. */
  lemma {:induction false} FaultsInOrder(schema: Schema, document: Document, keys: seq<string>)
    requires forall i :: 0 <= i < |keys| ==> keys[i] in document
    requires forall i, j :: 0 <= i < j < |keys| ==>
               keys[i] != keys[j] && Ordering.Before(Ordering.BY_KEY, keys[i], keys[j])
    ensures var faults := FaultsOf(schema, document, keys);
            forall i, j :: 0 <= i < j < |faults| ==>
              faults[i].key != faults[j].key && Ordering.Before(Ordering.BY_KEY, faults[i].key, faults[j].key)
  {
    if keys != [] {
      var early, last := keys[..|keys| - 1], keys[|keys| - 1];
      FaultsInOrder(schema, document, early);
      var faults := FaultsOf(schema, document, early);
      forall i | 0 <= i < |faults|
        ensures faults[i].key != last && Ordering.Before(Ordering.BY_KEY, faults[i].key, last)
      {
        FaultsAreReal(schema, document, early, faults[i]);
      }
    }
  }

  /** Every fault a refusal carries, the first one first. */
  function FaultsIn(refusal: Refusal): seq<Fault> {
    match refusal
    case One(fault) => [fault]
    case Rejected(first, others) => [first] + others
  }

  /** A document as it is, or its first fault with the rest attached. */
  method Accept(schema: Schema, document: Document) returns (r: Result<Document, Refusal>)
    ensures match r
            case Ok(accepted) => accepted == document && Conforms(schema, document)
            case Err(refusal) =>
              && !Conforms(schema, document) && FaultsIn(refusal) == AllFaults(schema, document)
              && (refusal.Rejected? ==> refusal.others != [])
  {
    var faults := Check(schema, document);
    FaultlessConforms(schema, document);
    if faults == [] {
      return Ok(document);
    }
    FirstAndRest(faults);
    if |faults| == 1 {
      return Err(One(faults[0]));
    }
    return Err(Rejected(faults[0], faults[1..]));
  }

  lemma FirstAndRest(faults: seq<Fault>)
    requires faults != []
    ensures |faults| == 1 ==> FaultsIn(One(faults[0])) == faults
    ensures |faults| > 1 ==> FaultsIn(Rejected(faults[0], faults[1..])) == faults && faults[1..] != []
  {
  }

  // ----- accepted documents and edits -----

  /** A document the schema accepts can be edited at every declared key: no leaf stands
      where one of the key's sections has to be. */
  lemma DeclaredIsWritable(schema: Schema, root: SettingsEdit.Root, path: seq<string>, e: SettingsEdit.Edit)
    requires IsClean(Object(root)) && SettingsEdit.IsCleanEdit(e) && Conforms(schema, DocOf(root))
    requires path != [] && IsPath(path) && e.key == Join(path) && e.key in schema
    ensures SettingsEdit.Applied(root, e).Ok?
  {
    SegmentsJoin(path);
    SettingsEdit.EditCommutes(root, e);
    forall i | 0 < i < |path| ensures Join(path[..i]) !in DocOf(root) {
      SectionIsSection(schema, path, i);
    }
    NotBlocked(DocOf(root), path, e);
  }

  lemma SectionIsSection(schema: Schema, path: seq<string>, i: nat)
    requires 0 < i < |path| && Join(path) in schema
    ensures IsSection(schema, Join(path[..i]))
  {
    var top, rest := path[..i], path[i..];
    assert path == top + rest;
    JoinAppend(top, rest);
  }

  lemma NotBlocked(d: Document, path: seq<string>, e: SettingsEdit.Edit)
    requires Segments(e.key) == path != [] && forall i :: 0 < i < |path| ==> Join(path[..i]) !in d
    ensures SettingsEdit.FlatEdit(d, e).Some?
  {
  }

  /** Setting a leaf in an accepted document leaves it accepted exactly when the new leaf
      is no fault of its own. */
  lemma SetStaysAccepted(schema: Schema, root: SettingsEdit.Root, path: seq<string>, value: Scalar)
    requires IsClean(Object(root)) && Conforms(schema, DocOf(root)) && path != [] && IsPath(path)
    ensures match SettingsEdit.Applied(root, SettingsEdit.Set(Join(path), Leaf(value)))
            case Err(_) => true
            case Ok(after) => Conforms(schema, DocOf(after)) <==> FaultAt(schema, Join(path), value) == None
  {
    SegmentsJoin(path);
    var e := SettingsEdit.Set(Join(path), Leaf(value));
    SettingsEdit.EditCommutes(root, e);
    if SettingsEdit.Applied(root, e).Ok? {
      OneMoreLeaf(schema, DocOf(root), Join(path), value);
    }
  }

  lemma OneMoreLeaf(schema: Schema, d: Document, key: string, value: Scalar)
    requires Conforms(schema, d)
    ensures Conforms(schema, SettingsEdit.Without(d, key) + map[key := value]) <==> FaultAt(schema, key, value) == None
  {
    var after := SettingsEdit.Without(d, key) + map[key := value];
    assert key in after && after[key] == value;
  }
}
