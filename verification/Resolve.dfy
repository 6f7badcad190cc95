/** packages/query-engine/src/resolve.ts: the builder that accumulates findings. */
module Resolve {
  import opened Graphs
  import opened Wrappers
  import opened Corroborate

  /** An identity key, or a number given out by this builder when the kind has none. */
  datatype EntityId = Known(key: Id) | Synthetic(kind: Id, number: nat)

  datatype Entity = Entity(kind: Id, value: Id, caption: Option<Id>, props: map<Id, Detail>, sources: seq<Provenance>, seed: bool)

  type RelationKey = (EntityId, Id, EntityId)

  datatype Relation = Relation(from: EntityId, kind: Id, to: EntityId, sources: seq<Provenance>)

  /** `order` and `relationOrder` are the insertion orders of the two maps. */
  datatype Findings = Findings(entities: map<EntityId, Entity>, order: seq<EntityId>,
                               relations: map<RelationKey, Relation>, relationOrder: seq<RelationKey>, synthetic: nat)

  const NOTHING := Findings(map[], [], map[], [], 0)

  /** How values are normalised and identified. */
  datatype Naming = Naming(canonical: (Id, Id) -> Id, identity: (Id, Id) -> Option<Id>)

  datatype Extra = Extra(caption: Option<Id>, props: map<Id, Detail>, seed: bool)

  datatype Proposal = Proposal(key: Id, kind: Id, value: Id, caption: Option<Id>, props: map<Id, Detail>, source: Provenance)

  datatype Relationship = Relationship(from: Id, to: Id, kind: Id, source: Provenance)

  datatype EngineResult = EngineResult(entities: seq<Proposal>, relationships: seq<Relationship>)

  // ---------------------------------------------------------------- the operations

  function IdFor(nm: Naming, f: Findings, kind: Id, value: Id): EntityId {
    match nm.identity(kind, value)
    case Some(key) => Known(key)
    case None => Synthetic(kind, f.synthetic + 1)
  }

  /** One more observation of an entity: gaps are filled, nothing is overwritten. */
  function Observed(e: Entity, source: Provenance, extra: Extra): Entity {
    Entity(e.kind, e.value, if e.caption.None? then extra.caption else e.caption, extra.props + e.props, e.sources + [source], e.seed)
  }

  function Upserted(nm: Naming, f: Findings, kind: Id, raw: Id, source: Provenance, extra: Extra): (Findings, EntityId) {
    var value := nm.canonical(kind, raw);
    var id := IdFor(nm, f, kind, value);
    var synthetic := if id.Synthetic? then f.synthetic + 1 else f.synthetic;
    if id in f.entities then
      (f.(entities := f.entities[id := Observed(f.entities[id], source, extra)], synthetic := synthetic), id)
    else
      (f.(entities := f.entities[id := Entity(kind, value, extra.caption, extra.props, [source], extra.seed)],
          order := f.order + [id], synthetic := synthetic), id)
  }

  function Linked(f: Findings, from: EntityId, to: EntityId, kind: Id, source: Provenance): Findings {
    var key := (from, kind, to);
    if key in f.relations then
      f.(relations := f.relations[key := f.relations[key].(sources := f.relations[key].sources + [source])])
    else
      f.(relations := f.relations[key := Relation(from, kind, to, [source])], relationOrder := f.relationOrder + [key])
  }

  type Keys = map<Id, EntityId>

  /** The proposed entities folded in, with the id each key now stands for. */
  function Proposed(nm: Naming, f: Findings, keys: Keys, entities: seq<Proposal>): (Findings, Keys) {
    if entities == [] then (f, keys) else
      var (g, known) := Proposed(nm, f, keys, entities[..|entities| - 1]);
      var p := entities[|entities| - 1];
      var (h, id) := Upserted(nm, g, p.kind, p.value, p.source, Extra(p.caption, p.props, false));
      (h, known[p.key := id])
  }

  /** Both ends are known by the time the relationship is read, and are different entities. */
  predicate Joins(keys: Keys, r: Relationship) {
    r.from in keys && r.to in keys && keys[r.from] != keys[r.to]
  }

  function Related(f: Findings, keys: Keys, relationships: seq<Relationship>): Findings {
    if relationships == [] then f else
      var g := Related(f, keys, relationships[..|relationships| - 1]);
      var r := relationships[|relationships| - 1];
      if Joins(keys, r) then Linked(g, keys[r.from], keys[r.to], r.kind, r.source) else g
  }

  function Absorbed(nm: Naming, inputRef: Id, f: Findings, inputId: EntityId, result: EngineResult): Findings {
    var (g, keys) := Proposed(nm, f, map[inputRef := inputId], result.entities);
    Related(g, keys, result.relationships)
  }

  class GraphBuilder {
    const naming: Naming
    const inputRef: Id
    var entities: map<EntityId, Entity>
    var order: seq<EntityId>
    var relations: map<RelationKey, Relation>
    var relationOrder: seq<RelationKey>
    var synthetic: nat

    ghost function State(): Findings
      reads this
    {
      Findings(entities, order, relations, relationOrder, synthetic)
    }

    constructor (nm: Naming, input: Id)
      ensures naming == nm && inputRef == input && State() == NOTHING
    {
      naming, inputRef := nm, input;
      entities, order, relations, relationOrder, synthetic := map[], [], map[], [], 0;
    }

    method Upsert(kind: Id, raw: Id, source: Provenance, extra: Extra) returns (id: EntityId, created: bool)
      modifies this
      ensures (State(), id) == Upserted(naming, old(State()), kind, raw, source, extra)
      ensures created <==> id !in old(entities)
    {
      var value := naming.canonical(kind, raw);
      match naming.identity(kind, value) {
        case Some(key) =>
          id := Known(key);
        case None =>
          synthetic := synthetic + 1;
          id := Synthetic(kind, synthetic);
      }
      if id in entities {
        var e := entities[id];
        var caption := if e.caption.None? && extra.caption.Some? then extra.caption else e.caption;
        entities := entities[id := Entity(e.kind, e.value, caption, extra.props + e.props, e.sources + [source], e.seed)];
        created := false;
      } else {
        entities := entities[id := Entity(kind, value, extra.caption, extra.props, [source], extra.seed)];
        order, created := order + [id], true;
      }
    }

    method Link(from: EntityId, to: EntityId, kind: Id, source: Provenance)
      modifies this
      ensures State() == Linked(old(State()), from, to, kind, source)
    {
      var key := (from, kind, to);
      if key in relations {
        relations := relations[key := relations[key].(sources := relations[key].sources + [source])];
      } else {
        relations, relationOrder := relations[key := Relation(from, kind, to, [source])], relationOrder + [key];
      }
    }

    method Seed(kind: Id, raw: Id, source: Provenance) returns (id: EntityId)
      modifies this
      ensures (State(), id) == Upserted(naming, old(State()), kind, raw, source, Extra(None, map[], true))
    {
      var created;
      id, created := Upsert(kind, raw, source, Extra(None, map[], true));
    }

    method Absorb(inputId: EntityId, result: EngineResult) returns (created: seq<EntityId>)
      modifies this
      ensures State() == Absorbed(naming, inputRef, old(State()), inputId, result)
      ensures order == old(order) + created
    {
      var keys: Keys := map[inputRef := inputId];
      created := [];
      for i := 0 to |result.entities|
        invariant (State(), keys) == Proposed(naming, old(State()), map[inputRef := inputId], result.entities[..i])
        invariant order == old(order) + created
      {
        var p := result.entities[i];
        assert result.entities[..i + 1][..i] == result.entities[..i];
        var id, isNew := Upsert(p.kind, p.value, p.source, Extra(p.caption, p.props, false));
        keys := keys[p.key := id];
        if isNew {
          created := created + [id];
        }
      }
      assert result.entities[..|result.entities|] == result.entities;
      LinkAll(keys, result.relationships);
    }

    method LinkAll(keys: Keys, relationships: seq<Relationship>)
      modifies this
      ensures State() == Related(old(State()), keys, relationships) && order == old(order)
    {
      for i := 0 to |relationships|
        invariant State() == Related(old(State()), keys, relationships[..i]) && order == old(order)
      {
        var r := relationships[i];
        assert relationships[..i + 1][..i] == relationships[..i];
        if r.from in keys && r.to in keys && keys[r.from] != keys[r.to] {
          Link(keys[r.from], keys[r.to], r.kind, r.source);
        }
      }
      assert relationships[..|relationships|] == relationships;
    }
  }

  // ---------------------------------------------------------------- what every operation keeps

  /** A relation joins two different recorded entities, and is filed under its own ends and kind. */
  ghost predicate RelationOk(f: Findings, key: RelationKey) {
    key in f.relations ==>
      var r := f.relations[key];
      key == (r.from, r.kind, r.to) && r.from != r.to && r.from in f.entities && r.to in f.entities && r.sources != []
  }

  /** Given-out numbers are used up. */
  ghost predicate NumberUsed(f: Findings, id: EntityId) {
    id in f.entities && id.Synthetic? ==> id.number <= f.synthetic
  }

  ghost predicate Sound(f: Findings) {
    (forall key :: RelationOk(f, key)) && (forall id :: NumberUsed(f, id))
  }

  ghost predicate EntityGrows(e: Entity, g: Entity) {
    && g.kind == e.kind && g.value == e.value && g.seed == e.seed && e.sources <= g.sources
    && (e.caption.Some? ==> g.caption == e.caption)
    && forall k :: k in e.props ==> k in g.props && g.props[k] == e.props[k]
  }

  ghost predicate Remembers(f: Findings, g: Findings, id: EntityId) {
    id in f.entities ==> id in g.entities && EntityGrows(f.entities[id], g.entities[id])
  }

  ghost predicate RemembersRelation(f: Findings, g: Findings, key: RelationKey) {
    key in f.relations ==> key in g.relations && f.relations[key].sources <= g.relations[key].sources
  }

  /** Nothing recorded is lost or overwritten: sources and gaps only grow. */
  ghost predicate Grows(f: Findings, g: Findings) {
    && f.order <= g.order && f.relationOrder <= g.relationOrder
    && (forall id :: Remembers(f, g, id)) && (forall key :: RemembersRelation(f, g, key))
  }

  lemma GrowsTrans(f: Findings, g: Findings, h: Findings)
    requires Grows(f, g) && Grows(g, h)
    ensures Grows(f, h)
  {
    forall id ensures Remembers(f, h, id) {
      assert Remembers(f, g, id) && Remembers(g, h, id);
    }
    forall key ensures RemembersRelation(f, h, key) {
      assert RemembersRelation(f, g, key) && RemembersRelation(g, h, key);
    }
  }

  lemma GrowsSelf(f: Findings)
    ensures Grows(f, f)
  {
  }

  /** What an observation adds to a recorded entity: a caption if it has none, and the props it lacks. */
  ghost predicate Completes(e: Entity, g: Entity, extra: Extra) {
    && (e.caption.None? ==> g.caption == extra.caption)
    && (forall k :: k in g.props <==> k in e.props || k in extra.props)
    && forall k :: k in extra.props && k !in e.props ==> k in g.props && g.props[k] == extra.props[k]
  }

  /** A new entity is what its first observation says. */
  ghost predicate CreatedFrom(g: Entity, kind: Id, value: Id, extra: Extra) {
    && g.kind == kind && g.value == value && g.caption == extra.caption && g.seed == extra.seed
    && (forall k :: k in g.props <==> k in extra.props)
    && forall k :: k in extra.props ==> k in g.props && g.props[k] == extra.props[k]
  }

  lemma UpsertKeeps(nm: Naming, f: Findings, kind: Id, raw: Id, source: Provenance, extra: Extra)
    requires Sound(f)
    ensures var (g, id) := Upserted(nm, f, kind, raw, source, extra);
            Sound(g) && Grows(f, g) && id in g.entities && g.relations == f.relations
            && g.entities[id].sources == (if id in f.entities then f.entities[id].sources else []) + [source]
            && forall other :: other in g.entities && other != id ==> other in f.entities && g.entities[other] == f.entities[other]
    ensures var (g, id) := Upserted(nm, f, kind, raw, source, extra);
            && id == (match nm.identity(kind, nm.canonical(kind, raw))
                      case Some(key) => Known(key)
                      case None => Synthetic(kind, f.synthetic + 1))
            && id in g.entities
            && (if id in f.entities then Completes(f.entities[id], g.entities[id], extra) && g.order == f.order
                else CreatedFrom(g.entities[id], kind, nm.canonical(kind, raw), extra) && g.order == f.order + [id])
  {
    var (g, id) := Upserted(nm, f, kind, raw, source, extra);
    forall key ensures RelationOk(g, key) {
      assert RelationOk(f, key);
    }
    forall other ensures NumberUsed(g, other) {
      assert NumberUsed(f, other);
    }
  }

  /** A value without an identity is never merged with another. */
  lemma NoIdentityIsNew(nm: Naming, f: Findings, kind: Id, raw: Id, source: Provenance, extra: Extra)
    requires Sound(f) && nm.identity(kind, nm.canonical(kind, raw)).None?
    ensures var (g, id) := Upserted(nm, f, kind, raw, source, extra); id !in f.entities && g.order == f.order + [id]
  {
    assert NumberUsed(f, Synthetic(kind, f.synthetic + 1));
  }

  lemma LinkKeeps(f: Findings, from: EntityId, to: EntityId, kind: Id, source: Provenance)
    requires Sound(f) && from != to && from in f.entities && to in f.entities
    ensures var g := Linked(f, from, to, kind, source);
            Sound(g) && Grows(f, g) && g.entities == f.entities && g.relations.Keys == f.relations.Keys + {(from, kind, to)}
            && g.relations[(from, kind, to)].sources ==
               (if (from, kind, to) in f.relations then f.relations[(from, kind, to)].sources else []) + [source]
  {
    var g := Linked(f, from, to, kind, source);
    assert RelationOk(f, (from, kind, to));
    forall key ensures RelationOk(g, key) {
      assert RelationOk(f, key);
    }
    forall id ensures NumberUsed(g, id) {
      assert NumberUsed(f, id);
    }
  }

  ghost predicate KeysKnown(f: Findings, keys: Keys) {
    forall k :: k in keys ==> keys[k] in f.entities
  }

  lemma KeysStayKnown(f: Findings, g: Findings, keys: Keys)
    requires KeysKnown(f, keys) && Grows(f, g)
    ensures KeysKnown(g, keys)
  {
    forall k | k in keys ensures keys[k] in g.entities {
      assert Remembers(f, g, keys[k]);
    }
  }

  lemma {:induction false} ProposedKeeps(nm: Naming, f: Findings, keys: Keys, entities: seq<Proposal>)
    requires Sound(f) && KeysKnown(f, keys)
    ensures var (g, known) := Proposed(nm, f, keys, entities);
            Sound(g) && Grows(f, g) && KeysKnown(g, known) && g.relations == f.relations
  {
    hide Upserted;
    if entities == [] {
      GrowsSelf(f);
    } else {
      var front, p := entities[..|entities| - 1], entities[|entities| - 1];
      ProposedKeeps(nm, f, keys, front);
      var (g, known) := Proposed(nm, f, keys, front);
      UpsertKeeps(nm, g, p.kind, p.value, p.source, Extra(p.caption, p.props, false));
      var (h, id) := Upserted(nm, g, p.kind, p.value, p.source, Extra(p.caption, p.props, false));
      GrowsTrans(f, g, h);
      KeysStayKnown(g, h, known);
    }
  }

  /** The ends and kinds of the relationships that join two different known entities. */
  function Joined(keys: Keys, relationships: seq<Relationship>): set<RelationKey> {
    if relationships == [] then {} else
      var r := relationships[|relationships| - 1];
      Joined(keys, relationships[..|relationships| - 1]) +
      (if Joins(keys, r) then {(keys[r.from], r.kind, keys[r.to])} else {})
  }

  lemma {:induction false} RelatedKeeps(f: Findings, keys: Keys, relationships: seq<Relationship>)
    requires Sound(f) && KeysKnown(f, keys)
    ensures var g := Related(f, keys, relationships);
            Sound(g) && Grows(f, g) && g.entities == f.entities && g.relations.Keys == f.relations.Keys + Joined(keys, relationships)
  {
    hide Linked;
    if relationships == [] {
      GrowsSelf(f);
    } else {
      var front, r := relationships[..|relationships| - 1], relationships[|relationships| - 1];
      RelatedKeeps(f, keys, front);
      var g := Related(f, keys, front);
      if Joins(keys, r) {
        LinkKeeps(g, keys[r.from], keys[r.to], r.kind, r.source);
        GrowsTrans(f, g, Linked(g, keys[r.from], keys[r.to], r.kind, r.source));
      }
    }
  }

  /** Absorbing a result keeps the findings sound and loses nothing; it adds exactly the relations
      that join two different entities the result or its input names. */
  lemma AbsorbKeeps(nm: Naming, inputRef: Id, f: Findings, inputId: EntityId, result: EngineResult)
    requires Sound(f) && inputId in f.entities
    ensures var g := Absorbed(nm, inputRef, f, inputId, result);
            var keys := Proposed(nm, f, map[inputRef := inputId], result.entities).1;
            Sound(g) && Grows(f, g) && g.relations.Keys == f.relations.Keys + Joined(keys, result.relationships)
  {
    hide Proposed, Related;
    ProposedKeeps(nm, f, map[inputRef := inputId], result.entities);
    var (g, keys) := Proposed(nm, f, map[inputRef := inputId], result.entities);
    RelatedKeeps(g, keys, result.relationships);
    GrowsTrans(f, g, Related(g, keys, result.relationships));
  }

  // ---------------------------------------------------------------- whole runs

  datatype Event = Seeding(kind: Id, value: Id, source: Provenance) | Absorbing(inputId: EntityId, result: EngineResult)

  function Apply(nm: Naming, inputRef: Id, f: Findings, e: Event): Findings {
    match e
    case Seeding(kind, value, source) => Upserted(nm, f, kind, value, source, Extra(None, map[], true)).0
    case Absorbing(inputId, result) => Absorbed(nm, inputRef, f, inputId, result)
  }

  function Run(nm: Naming, inputRef: Id, events: seq<Event>): Findings {
    if events == [] then NOTHING else
      Apply(nm, inputRef, Run(nm, inputRef, events[..|events| - 1]), events[|events| - 1])
  }

  /** Every result comes from an entity that is in the graph when it arrives. */
  ghost predicate Legal(nm: Naming, inputRef: Id, events: seq<Event>) {
    events != [] ==>
      var front, last := events[..|events| - 1], events[|events| - 1];
      Legal(nm, inputRef, front) && (last.Absorbing? ==> last.inputId in Run(nm, inputRef, front).entities)
  }

  lemma ApplyKeeps(nm: Naming, inputRef: Id, f: Findings, e: Event)
    requires Sound(f) && (e.Absorbing? ==> e.inputId in f.entities)
    ensures Sound(Apply(nm, inputRef, f, e)) && Grows(f, Apply(nm, inputRef, f, e))
  {
    hide Upserted, Absorbed;
    match e
    case Seeding(kind, value, source) => UpsertKeeps(nm, f, kind, value, source, Extra(None, map[], true));
    case Absorbing(inputId, result) => AbsorbKeeps(nm, inputRef, f, inputId, result);
  }

  /** Over any run every relation joins two different recorded entities. */
  lemma {:induction false} RunIsSound(nm: Naming, inputRef: Id, events: seq<Event>)
    requires Legal(nm, inputRef, events)
    ensures Sound(Run(nm, inputRef, events))
  {
    hide Apply;
    if events != [] {
      var front := events[..|events| - 1];
      RunIsSound(nm, inputRef, front);
      ApplyKeeps(nm, inputRef, Run(nm, inputRef, front), events[|events| - 1]);
    }
  }

  /** Whatever comes later, what was recorded stays. */
  lemma {:induction false} RunRemembers(nm: Naming, inputRef: Id, events: seq<Event>, n: nat)
    requires Legal(nm, inputRef, events) && n <= |events|
    ensures Grows(Run(nm, inputRef, events[..n]), Run(nm, inputRef, events))
  {
    hide Apply;
    if n == |events| {
      assert events[..n] == events;
      GrowsSelf(Run(nm, inputRef, events));
    } else {
      var front := events[..|events| - 1];
      assert front[..n] == events[..n];
      RunRemembers(nm, inputRef, front, n);
      RunIsSound(nm, inputRef, front);
      ApplyKeeps(nm, inputRef, Run(nm, inputRef, front), events[|events| - 1]);
      GrowsTrans(Run(nm, inputRef, events[..n]), Run(nm, inputRef, front), Run(nm, inputRef, events));
    }
  }

  /** The confidence of an entity never falls as results arrive. */
  lemma ConfidenceNeverFalls(nm: Naming, inputRef: Id, events: seq<Event>, n: nat, id: EntityId)
    requires Legal(nm, inputRef, events) && n <= |events| && id in Run(nm, inputRef, events[..n]).entities
    requires id in Run(nm, inputRef, events).entities ==> Likely(Run(nm, inputRef, events).entities[id].sources)
    ensures id in Run(nm, inputRef, events).entities
    ensures Confidence(Run(nm, inputRef, events[..n]).entities[id].sources) <=
            Confidence(Run(nm, inputRef, events).entities[id].sources)
  {
    hide Run, Confidence;
    RunRemembers(nm, inputRef, events, n);
    assert Remembers(Run(nm, inputRef, events[..n]), Run(nm, inputRef, events), id);
    LongerNoWeaker(Run(nm, inputRef, events[..n]).entities[id].sources, Run(nm, inputRef, events).entities[id].sources);
  }
}
