/** Layered settings: each layer keeps its own document, and every key resolves to the
    highest layer that holds it. */
module Layers {
  import opened Wrappers
  import opened SettingsTree
  import Ordering

  /** Lowest precedence first. */
  datatype Layer = Default | File | Env | Flag

  datatype Resolved = Resolved(value: Scalar, layer: Layer)

  type Stack = map<Layer, Document>

  predicate Holds(layers: Stack, l: Layer, key: string) {
    l in layers && key in layers[l]
  }

  /** The value of the highest layer that holds the key, and that layer's name. */
  function Winner(layers: Stack, key: string): Option<Resolved> {
    if Holds(layers, Flag, key) then Some(Resolved(layers[Flag][key], Flag))
    else if Holds(layers, Env, key) then Some(Resolved(layers[Env][key], Env))
    else if Holds(layers, File, key) then Some(Resolved(layers[File][key], File))
    else if Holds(layers, Default, key) then Some(Resolved(layers[Default][key], Default))
    else None
  }

  function Rank(l: Layer): nat {
    match l
    case Default => 0
    case File => 1
    case Env => 2
    case Flag => 3
  }

  /** The winner is a holder that no other holder outranks, and there is none exactly when
      nothing holds the key. */
  lemma WinnerIsHighest(layers: Stack, key: string)
    ensures match Winner(layers, key)
            case None => forall l :: !Holds(layers, l, key)
            case Some(r) =>
              && Holds(layers, r.layer, key) && r.value == layers[r.layer][key]
              && (forall l :: Holds(layers, l, key) ==> Rank(l) <= Rank(r.layer))
              && (r.layer == Default ==> !Holds(layers, File, key))
              && (r.layer == Default || r.layer == File ==> !Holds(layers, Env, key))
              && (r.layer != Flag ==> !Holds(layers, Flag, key))
  {
    forall l | Holds(layers, l, key)
      ensures Winner(layers, key).Some? && Rank(l) <= Rank(Winner(layers, key).value.layer)
    {
      match l {
        case Default =>
        case File =>
        case Env =>
        case Flag =>
      }
    }
  }

  function LayerOf(layers: Stack, l: Layer): Document {
    if l in layers then layers[l] else map[]
  }

  function Get(resolved: map<string, Resolved>, key: string): Option<Resolved> {
    if key in resolved then Some(resolved[key]) else None
  }

  /** The cache says of every key what the layers say. */
  ghost predicate Agrees(layers: Stack, resolved: map<string, Resolved>) {
    forall key :: Get(resolved, key) == Winner(layers, key)
  }

  /** The cache is right about every key but those still waiting. */
  ghost predicate AgreesBut(layers: Stack, resolved: map<string, Resolved>, waiting: seq<string>) {
    forall key :: key !in waiting ==> Get(resolved, key) == Winner(layers, key)
  }

  /** A layer replaced moves only the keys one of its two documents holds. */
  lemma AgreesElsewhere(
    layers: Stack, resolved: map<string, Resolved>, l: Layer, document: Document, touched: seq<string>)
    requires Agrees(layers, resolved)
    requires forall key :: key in document || key in LayerOf(layers, l) ==> key in touched
    ensures AgreesBut(layers[l := document], resolved, touched)
  {
    forall key | key !in touched
      ensures Get(resolved, key) == Winner(layers[l := document], key)
    {
      assert Get(resolved, key) == Winner(layers, key);
    }
  }

  class Config {
    var layers: Stack
    var resolved: map<string, Resolved>

    ghost predicate Valid()
      reads this
    {
      Agrees(layers, resolved)
    }

    constructor ()
      ensures Valid() && layers == map[]
    {
      layers, resolved := map[], map[];
    }

    /** Set one key on one layer. */
    method Set(key: string, value: Scalar, layer: Layer)
      requires Valid()
      modifies this
      ensures Valid()
      ensures layers == old(layers)[layer := LayerOf(old(layers), layer)[key := value]]
    {
      forall k | k != key
        ensures Winner(layers[layer := LayerOf(layers, layer)[key := value]], k) == Winner(layers, k)
      {
      }
      layers := layers[layer := LayerOf(layers, layer)[key := value]];
      Resolve(key);
    }

    /** Replace a whole layer; a key dropped by it resolves to what is left underneath. */
    method Load(layer: Layer, document: Document)
      requires Valid()
      modifies this
      ensures Valid()
      ensures layers == old(layers)[layer := document]
    {
      var touched := Ordering.Enumerate(document.Keys, Ordering.BY_KEY);
      if layer in layers {
        touched := touched + Ordering.Enumerate(layers[layer].Keys, Ordering.BY_KEY);
      }
      AgreesElsewhere(layers, resolved, layer, document, touched);
      layers := layers[layer := document];
      ResolveAll(touched);
    }

    method ResolveAll(touched: seq<string>)
      requires AgreesBut(layers, resolved, touched)
      modifies this`resolved
      ensures Valid()
    {
      for i := 0 to |touched|
        invariant AgreesBut(layers, resolved, touched[i..])
      {
        Resolve(touched[i]);
        assert forall key :: key in touched[i..] ==> key == touched[i] || key in touched[i + 1..];
      }
    }

    /** Recompute one key from the layers. */
    method Resolve(key: string)
      modifies this`resolved
      ensures forall k :: Get(resolved, k) == if k == key then Winner(layers, key) else Get(old(resolved), k)
    {
      var winner := Winner(layers, key);
      match winner {
        case Some(r) => resolved := resolved[key := r];
        case None => resolved := resolved - {key};
      }
    }
  }
}
