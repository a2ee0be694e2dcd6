/** Re-reading the settings document into a running configuration. */
module Reload {
  import opened Wrappers
  import opened SettingsTree
  import opened Watch
  import Layers
  import Ordering
  import Schemas

  /** What reading the document gives. An absent document is no settings at all. */
  datatype Content = Absent | Unusable(why: string) | Holding(root: map<string, Value>)

  /** One look at the file system. */
  datatype Look = Look(stamp: Stamp, content: Content)

  datatype Refusal = NotRead(why: string) | NotAccepted(refusal: Schemas.Refusal)

  datatype Change = Quiet | Applied(changed: seq<string>) | Refused(why: Refusal)

  function Read(content: Content): Result<Document, string> {
    match content
    case Absent => Ok(map[])
    case Unusable(why) => Err(why)
    case Holding(root) => Ok(DocOf(root))
  }

  /** The document a re-read may put in force. */
  function Usable(schema: Schemas.Schema, content: Content): Option<Document> {
    match Read(content)
    case Err(_) => None
    case Ok(document) => if Schemas.Conforms(schema, document) then Some(document) else None
  }

  // ----- one re-read -----

  /** The keys two caches answer differently, in key order. */
  function Differences(before: map<string, Layers.Resolved>, after: map<string, Layers.Resolved>): (d: seq<string>)
    ensures forall key :: key in d <==> Layers.Get(before, key) != Layers.Get(after, key)
    ensures forall i, j :: 0 <= i < j < |d| ==> d[i] != d[j] && Ordering.AtMost(d[i], d[j])
  {
    var differing := set key | key in before.Keys + after.Keys && Layers.Get(before, key) != Layers.Get(after, key);
    Ordering.Enumerate(differing, Ordering.BY_KEY)
  }

  /** `d` lists, in key order and without repeats, the keys whose value or owning layer is
      not what it was. */
  ghost predicate Lists(d: seq<string>, before: Layers.Stack, after: Layers.Stack) {
    && (forall key :: key in d <==> Layers.Winner(before, key) != Layers.Winner(after, key))
    && forall i, j :: 0 <= i < j < |d| ==> d[i] != d[j] && Ordering.AtMost(d[i], d[j])
  }

  /** Replace the file layer with what the document holds now. */
  method Recompose(config: Layers.Config, content: Content) returns (r: Result<seq<string>, string>)
    requires config.Valid()
    modifies config
    ensures config.Valid()
    ensures match Read(content)
            case Err(why) =>
              && r == Err(why)
              && config.layers == old(config.layers) && config.resolved == old(config.resolved)
            case Ok(document) =>
              && config.layers == old(config.layers)[Layers.File := document]
              && r.Ok? && Lists(r.value, old(config.layers), config.layers)
  {
    var read := Read(content);
    if read.Err? {
      return Err(read.error);
    }
    var before := config.resolved;
    config.Load(Layers.File, read.value);
    return Ok(Differences(before, config.resolved));
  }

  class Reloader {
    const watcher: Watcher
    const schema: Schemas.Schema

    ghost predicate Valid()
      reads this, watcher
    {
      watcher.Valid()
    }

    /** What the document holds is the file layer now and passes the schema, an absent one
        holding nothing; no other layer moved, and `changed` lists what reads otherwise. */
    ghost predicate PutsInForce(content: Content, changed: seq<string>, before: Layers.Stack, after: Layers.Stack) {
      && Lists(changed, before, after)
      && match content
         case Absent => after == before[Layers.File := map[]]
         case Unusable(_) => false
         case Holding(root) => after == before[Layers.File := DocOf(root)] && Schemas.Conforms(schema, DocOf(root))
    }

    /** The document could not be read, or what it holds does not pass the schema and every
        fault of it is told. */
    ghost predicate Refuses(content: Content, why: Refusal) {
      match content
      case Absent => false
      case Unusable(fault) => why == NotRead(fault)
      case Holding(root) =>
        && !Schemas.Conforms(schema, DocOf(root)) && why.NotAccepted?
        && Schemas.FaultsIn(why.refusal) == Schemas.AllFaults(schema, DocOf(root))
    }

    constructor (now: Stamp, schema: Schemas.Schema)
      ensures Valid() && fresh(watcher) && this.schema == schema
      ensures watcher.baseline == now && watcher.seen == [] && watcher.quietPolls == 1
    {
      this.schema := schema;
      watcher := new Watcher(now);
    }

    /** One step: nothing unless the watcher reports, and then a re-read under the schema.
        A refusal changes nothing of the configuration. */
    method Observe(seen: Look, config: Layers.Config) returns (change: Change)
      requires Valid() && config.Valid()
      modifies watcher, config
      ensures Valid() && config.Valid()
      ensures watcher.seen == old(watcher.seen) + [seen.stamp]
      ensures watcher.quietPolls == old(watcher.quietPolls)
      ensures config.layers ==
              Next(schema, Reports(watcher.baseline, watcher.quietPolls, watcher.seen), seen.content,
                   old(config.layers))
      ensures change.Quiet? <==> !Reports(watcher.baseline, watcher.quietPolls, watcher.seen)
      ensures match change
              case Quiet => true
              case Applied(changed) => PutsInForce(seen.content, changed, old(config.layers), config.layers)
              case Refused(why) => Refuses(seen.content, why)
      ensures !change.Applied? ==> config.layers == old(config.layers) && config.resolved == old(config.resolved)
    {
      var report := watcher.Observe(seen.stamp);
      if report.None? {
        return Quiet;
      }
      change := Apply(seen.content, config);
    }

    /** Why a document may not be used: no schema asks nothing of it. */
    method Gate(content: Content) returns (refusal: Option<Refusal>)
      ensures schema == map[] ==> refusal == None
      ensures schema != map[] ==> (refusal == None <==> Usable(schema, content).Some?)
      ensures refusal.Some? ==> Refuses(content, refusal.value)
    {
      if schema == map[] {
        return None;
      }
      var read := Read(content);
      if read.Err? {
        return Some(NotRead(read.error));
      }
      var accepted := Schemas.Accept(schema, read.value);
      if accepted.Err? {
        return Some(NotAccepted(accepted.error));
      }
      return None;
    }

    method Apply(content: Content, config: Layers.Config) returns (change: Change)
      requires config.Valid()
      modifies config
      ensures config.Valid() && !change.Quiet?
      ensures config.layers == Next(schema, true, content, old(config.layers))
      ensures match change
              case Quiet => true
              case Applied(changed) => PutsInForce(content, changed, old(config.layers), config.layers)
              case Refused(why) => Refuses(content, why)
      ensures !change.Applied? ==> config.layers == old(config.layers) && config.resolved == old(config.resolved)
    {
      NoSchema(content);
      var refusal := Gate(content);
      if refusal.Some? {
        return Refused(refusal.value);
      }
      var recomposed := Recompose(config, content);
      match recomposed
      case Ok(changed) => return Applied(changed);
      case Err(why) => return Refused(NotRead(why));
    }
  }

  lemma NoSchema(content: Content)
    ensures Usable(map[], content).Some? <==> Read(content).Ok?
  {
  }

  /** The layers after one step. */
  function Next(schema: Schemas.Schema, due: bool, content: Content, layers: Layers.Stack): Layers.Stack {
    match Usable(schema, content)
    case Some(document) => if due then layers[Layers.File := document] else layers
    case None => layers
  }

  // ----- whole runs -----

  datatype Setting = Setting(schema: Schemas.Schema, baseline: Stamp, quiet: nat, start: Layers.Stack)

  function Stamps(looks: seq<Look>): seq<Stamp> {
    seq(|looks|, i requires 0 <= i < |looks| => looks[i].stamp)
  }

  predicate Due(s: Setting, looks: seq<Look>) {
    Reports(s.baseline, s.quiet, Stamps(looks))
  }

  /** The layers after every step of a run. */
  function After(s: Setting, looks: seq<Look>): Layers.Stack {
    if looks == [] then s.start
    else
      Next(s.schema, Due(s, looks), looks[|looks| - 1].content, After(s, looks[..|looks| - 1]))
  }

  /** The document the last applied step put in force, if there was one. */
  function LastApplied(s: Setting, looks: seq<Look>): Option<Document> {
    if looks == [] then None
    else if Due(s, looks) && Usable(s.schema, looks[|looks| - 1].content).Some? then
      Usable(s.schema, looks[|looks| - 1].content)
    else LastApplied(s, looks[..|looks| - 1])
  }

  /** Over any run of steps the file layer is the document of the last applied one, or the
      layer the run began with, and no other layer moves. Whatever was applied passes the
      schema. */
  lemma {:induction false} FileIsLastApplied(s: Setting, looks: seq<Look>)
    ensures match LastApplied(s, looks)
            case None => After(s, looks) == s.start
            case Some(document) =>
              && After(s, looks) == s.start[Layers.File := document]
              && Schemas.Conforms(s.schema, document)
  {
    if looks != [] {
      FileIsLastApplied(s, looks[..|looks| - 1]);
    }
  }

  // ----- a settled edit ends up in force -----

  /** Once a state has been seen often enough running, it is the one last reported. */
  lemma {:induction false} SettledIsReported(baseline: Stamp, quiet: nat, h: seq<Stamp>)
    requires quiet >= 1 && h != [] && Trailing(h) >= quiet
    ensures LastReported(baseline, quiet, h) == h[|h| - 1]
  {
    var early := h[..|h| - 1];
    if Trailing(h) > quiet {
      assert |h| > 1 && Trailing(early) == Trailing(h) - 1;
      SettledIsReported(baseline, quiet, early);
    }
  }

  /** What the document holds is a matter of its stamp alone. */
  ghost predicate StampsTell(looks: seq<Look>, at: Stamp -> Content) {
    forall i :: 0 <= i < |looks| ==> looks[i].content == at(looks[i].stamp)
  }

  /** The document is what the file layer holds, if it is usable at all. */
  ghost predicate InForce(schema: Schemas.Schema, content: Content, layers: Layers.Stack) {
    var document := Usable(schema, content);
    document.Some? ==> Layers.File in layers && layers[Layers.File] == document.value
  }

  /** The document last reported is in force. */
  lemma {:induction false} ReportedIsInForce(s: Setting, looks: seq<Look>, at: Stamp -> Content)
    requires StampsTell(looks, at) && InForce(s.schema, at(s.baseline), s.start)
    ensures InForce(s.schema, at(LastReported(s.baseline, s.quiet, Stamps(looks))), After(s, looks))
  {
    if looks != [] {
      var early, last := looks[..|looks| - 1], looks[|looks| - 1];
      assert Stamps(looks)[..|looks| - 1] == Stamps(early);
      assert last.content == at(last.stamp);
      ReportedIsInForce(s, early, at);
      var reported := at(LastReported(s.baseline, s.quiet, Stamps(early)));
      StepInForce(s.schema, Due(s, looks), last.content, reported, After(s, early));
    }
  }

  lemma StepInForce(schema: Schemas.Schema, due: bool, content: Content, reported: Content, layers: Layers.Stack)
    requires InForce(schema, reported, layers)
    ensures InForce(schema, if due then content else reported, Next(schema, due, content, layers))
  {
  }

  /** However many bad edits came before: when the document has been still for the quiet
      count and what it holds is usable, that is what the file layer holds. */
  lemma SettledIsInForce(s: Setting, looks: seq<Look>, at: Stamp -> Content)
    requires s.quiet >= 1 && looks != [] && StampsTell(looks, at)
    requires InForce(s.schema, at(s.baseline), s.start)
    requires Trailing(Stamps(looks)) >= s.quiet
    ensures InForce(s.schema, looks[|looks| - 1].content, After(s, looks))
  {
    SettledIsReported(s.baseline, s.quiet, Stamps(looks));
    ReportedIsInForce(s, looks, at);
  }
}
