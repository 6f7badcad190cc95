/** packages/query-engine/src/resolve.ts: what absorbing a result records, stated by what the keys of the
    result stand for. */
module ResolveLinks {
  import opened Graphs
  import opened Wrappers
  import opened Corroborate
  import opened Resolve

  // ---------------------------------------------------------------- what a key stands for

  function IdentityOf(nm: Naming, p: Proposal): Option<Id> {
    nm.identity(p.kind, nm.canonical(p.kind, p.value))
  }

  /** How many of the proposals have no identity. */
  function Anonymous(nm: Naming, entities: seq<Proposal>): nat {
    if entities == [] then 0 else
      Anonymous(nm, entities[..|entities| - 1]) + (if IdentityOf(nm, entities[|entities| - 1]).None? then 1 else 0)
  }

  /** The entity a proposal is about: the one of its identity, or the next numbered one. */
  function EntityOf(nm: Naming, f: Findings, entities: seq<Proposal>, i: nat): EntityId
    requires i < |entities|
  {
    match IdentityOf(nm, entities[i])
    case Some(key) => Known(key)
    case None => Synthetic(entities[i].kind, f.synthetic + Anonymous(nm, entities[..i + 1]))
  }

  /** The last proposal with this key. */
  predicate LastWith(entities: seq<Proposal>, key: Id, i: nat) {
    i < |entities| && entities[i].key == key && forall j :: i < j < |entities| ==> entities[j].key != key
  }

  /** A key stands for the entity of the last proposal that bears it; the input's key, unless a proposal
      takes it, for the entity the run was launched from. */
  ghost predicate StandsFor(nm: Naming, f: Findings, input: (Id, EntityId), entities: seq<Proposal>, key: Id, id: EntityId) {
    || (exists i :: LastWith(entities, key, i) && id == EntityOf(nm, f, entities, i))
    || ((key, id) == input && forall p :: p in entities ==> p.key != key)
  }

  /** With distinct keys, none of them the input's, the bearer of a key is unique. */
  lemma DistinctKeysStand(nm: Naming, f: Findings, input: (Id, EntityId), entities: seq<Proposal>, i: nat)
    requires forall j, k :: 0 <= j < k < |entities| ==> entities[j].key != entities[k].key
    requires forall p :: p in entities ==> p.key != input.0
    ensures StandsFor(nm, f, input, entities, input.0, input.1)
    ensures i < |entities| ==> StandsFor(nm, f, input, entities, entities[i].key, EntityOf(nm, f, entities, i))
    ensures i < |entities| && IdentityOf(nm, entities[i]).Some? ==>
      StandsFor(nm, f, input, entities, entities[i].key, Known(IdentityOf(nm, entities[i]).value))
  {
    if i < |entities| {
      assert LastWith(entities, entities[i].key, i);
    }
  }

  lemma EntityOfSnoc(nm: Naming, f: Findings, entities: seq<Proposal>, p: Proposal, i: nat)
    requires i < |entities|
    ensures EntityOf(nm, f, entities + [p], i) == EntityOf(nm, f, entities, i)
  {
    assert (entities + [p])[..i + 1] == entities[..i + 1];
  }

  lemma LastWithSnoc(entities: seq<Proposal>, p: Proposal, key: Id)
    requires p.key != key
    ensures forall i: nat :: LastWith(entities + [p], key, i) <==> LastWith(entities, key, i)
  {
    var all := entities + [p];
    forall i: nat ensures LastWith(all, key, i) <==> LastWith(entities, key, i) {
      if i < |entities| {
        assert all[i] == entities[i] && all[|entities|] == p;
        if LastWith(all, key, i) {
          forall j | i < j < |entities| ensures entities[j].key != key {
            assert all[j] == entities[j];
          }
        }
      } else {
        assert i == |entities| ==> all[i] == p;
      }
    }
  }

  lemma StandsForSnoc(nm: Naming, f: Findings, input: (Id, EntityId), entities: seq<Proposal>, p: Proposal, key: Id, id: EntityId)
    ensures StandsFor(nm, f, input, entities + [p], key, id) <==>
      if p.key == key then id == EntityOf(nm, f, entities + [p], |entities|) else StandsFor(nm, f, input, entities, key, id)
  {
    hide EntityOf;
    var all := entities + [p];
    assert p in all;
    if p.key == key {
      assert LastWith(all, key, |entities|);
      assert forall i :: LastWith(all, key, i) ==> i == |entities|;
    } else {
      LastWithSnoc(entities, p, key);
      forall i: nat | i < |entities| ensures EntityOf(nm, f, all, i) == EntityOf(nm, f, entities, i) {
        EntityOfSnoc(nm, f, entities, p, i);
      }
    }
  }

  lemma UpsertNames(nm: Naming, f: Findings, g: Findings, entities: seq<Proposal>, p: Proposal)
    requires g.synthetic == f.synthetic + Anonymous(nm, entities)
    ensures var (h, id) := Upserted(nm, g, p.kind, p.value, p.source, Extra(p.caption, p.props, false));
      id == EntityOf(nm, f, entities + [p], |entities|) && h.synthetic == f.synthetic + Anonymous(nm, entities + [p])
  {
    var all := entities + [p];
    assert all[..|entities|] == entities && all[..|entities| + 1] == all;
  }

  /** After the proposals the builder's table holds exactly what the keys stand for. */
  lemma {:induction false} KeysStandFor(nm: Naming, f: Findings, input: (Id, EntityId), entities: seq<Proposal>, key: Id, id: EntityId)
    ensures var (g, keys) := Proposed(nm, f, map[input.0 := input.1], entities);
      && g.synthetic == f.synthetic + Anonymous(nm, entities)
      && (key in keys && keys[key] == id <==> StandsFor(nm, f, input, entities, key, id))
  {
    hide Upserted, EntityOf;
    if entities != [] {
      hide StandsFor;
      var front, p := entities[..|entities| - 1], entities[|entities| - 1];
      assert entities == front + [p];
      KeysStandFor(nm, f, input, front, key, id);
      UpsertNames(nm, f, Proposed(nm, f, map[input.0 := input.1], front).0, front, p);
      StandsForSnoc(nm, f, input, front, p, key, id);
    }
  }

  // ---------------------------------------------------------------- what is recorded of the relations

  /** The relationship joins these two different entities by this kind. */
  ghost predicate Says(nm: Naming, f: Findings, input: (Id, EntityId), entities: seq<Proposal>, r: Relationship, key: RelationKey) {
    && StandsFor(nm, f, input, entities, r.from, key.0) && StandsFor(nm, f, input, entities, r.to, key.2)
    && r.kind == key.1 && key.0 != key.2
  }

  /** The sources of the relationships that say so, in order. */
  ghost function Said(nm: Naming, f: Findings, input: (Id, EntityId), result: EngineResult, key: RelationKey, n: nat): seq<Provenance>
    requires n <= |result.relationships|
  {
    if n == 0 then [] else
      Said(nm, f, input, result, key, n - 1) +
      (if Says(nm, f, input, result.entities, result.relationships[n - 1], key) then [result.relationships[n - 1].source] else [])
  }

  function RelationSources(f: Findings, key: RelationKey): seq<Provenance> {
    if key in f.relations then f.relations[key].sources else []
  }

  lemma JoinsIfSays(nm: Naming, f: Findings, input: (Id, EntityId), entities: seq<Proposal>, r: Relationship, key: RelationKey)
    ensures var keys := Proposed(nm, f, map[input.0 := input.1], entities).1;
      Joins(keys, r) && key == (keys[r.from], r.kind, keys[r.to]) <==> Says(nm, f, input, entities, r, key)
  {
    hide Proposed, StandsFor;
    KeysStandFor(nm, f, input, entities, r.from, key.0);
    KeysStandFor(nm, f, input, entities, r.to, key.2);
  }

  lemma LinkedSources(f: Findings, from: EntityId, to: EntityId, kind: Id, source: Provenance, key: RelationKey)
    ensures RelationSources(Linked(f, from, to, kind, source), key) ==
            RelationSources(f, key) + (if key == (from, kind, to) then [source] else [])
    ensures key in Linked(f, from, to, kind, source).relations <==> key in f.relations || key == (from, kind, to)
  {
  }

  lemma {:induction false} RelatedSources(nm: Naming, f: Findings, input: (Id, EntityId), result: EngineResult, h: Findings, key: RelationKey, n: nat)
    requires n <= |result.relationships|
    ensures var g := Related(h, Proposed(nm, f, map[input.0 := input.1], result.entities).1, result.relationships[..n]);
      && RelationSources(g, key) == RelationSources(h, key) + Said(nm, f, input, result, key, n)
      && (key in g.relations <==> key in h.relations || Said(nm, f, input, result, key, n) != [])
  {
    hide Proposed, Says, Linked, RelationSources;
    if n > 0 {
      var keys, r := Proposed(nm, f, map[input.0 := input.1], result.entities).1, result.relationships[n - 1];
      assert result.relationships[..n][..n - 1] == result.relationships[..n - 1];
      RelatedSources(nm, f, input, result, h, key, n - 1);
      JoinsIfSays(nm, f, input, result.entities, r, key);
      if Joins(keys, r) {
        LinkedSources(Related(h, keys, result.relationships[..n - 1]), keys[r.from], keys[r.to], r.kind, r.source, key);
      }
    }
  }

  lemma {:induction false} SaidMeaning(nm: Naming, f: Findings, input: (Id, EntityId), result: EngineResult, key: RelationKey, n: nat)
    requires n <= |result.relationships|
    ensures forall i :: 0 <= i < n && Says(nm, f, input, result.entities, result.relationships[i], key) ==>
      result.relationships[i].source in Said(nm, f, input, result, key, n)
    ensures Said(nm, f, input, result, key, n) != [] ==>
      exists i :: 0 <= i < n && Says(nm, f, input, result.entities, result.relationships[i], key)
  {
    hide Says;
    if n > 0 {
      SaidMeaning(nm, f, input, result, key, n - 1);
      if Says(nm, f, input, result.entities, result.relationships[n - 1], key) {
        var last := result.relationships[n - 1].source;
        assert Said(nm, f, input, result, key, n) == Said(nm, f, input, result, key, n - 1) + [last];
      } else {
        assert Said(nm, f, input, result, key, n) == Said(nm, f, input, result, key, n - 1);
      }
    }
  }

  /** Every relation gains exactly the sources of the relationships that join its two ends by its kind, and
      is there if it was there before or some relationship says so. */
  lemma AbsorbRelates(nm: Naming, inputRef: Id, f: Findings, inputId: EntityId, result: EngineResult, key: RelationKey)
    requires Sound(f) && inputId in f.entities
    ensures var g := Absorbed(nm, inputRef, f, inputId, result);
      var said := Said(nm, f, (inputRef, inputId), result, key, |result.relationships|);
      && RelationSources(g, key) == RelationSources(f, key) + said
      && (key in g.relations <==> key in f.relations || said != [])
  {
    hide Proposed, Related, Said, Sound;
    ProposedKeeps(nm, f, map[inputRef := inputId], result.entities);
    var (g, keys) := Proposed(nm, f, map[inputRef := inputId], result.entities);
    RelatedSources(nm, f, (inputRef, inputId), result, g, key, |result.relationships|);
    assert result.relationships[..|result.relationships|] == result.relationships;
  }

  /** A relationship whose ends stand for two different entities is recorded with its source. */
  lemma AbsorbLinks(nm: Naming, inputRef: Id, f: Findings, inputId: EntityId, result: EngineResult, r: Relationship, a: EntityId, b: EntityId)
    requires Sound(f) && inputId in f.entities && r in result.relationships && a != b
    requires StandsFor(nm, f, (inputRef, inputId), result.entities, r.from, a)
    requires StandsFor(nm, f, (inputRef, inputId), result.entities, r.to, b)
    ensures var g := Absorbed(nm, inputRef, f, inputId, result);
      (a, r.kind, b) in g.relations && r.source in g.relations[(a, r.kind, b)].sources
  {
    hide Sound, StandsFor, Absorbed;
    var key, n := (a, r.kind, b), |result.relationships|;
    AbsorbRelates(nm, inputRef, f, inputId, result, key);
    SaidMeaning(nm, f, (inputRef, inputId), result, key, n);
    var i :| 0 <= i < n && result.relationships[i] == r;
    assert Says(nm, f, (inputRef, inputId), result.entities, result.relationships[i], key);
  }

  /** No relation is new but those some relationship of the result states. */
  lemma AbsorbLinksOnly(nm: Naming, inputRef: Id, f: Findings, inputId: EntityId, result: EngineResult, key: RelationKey)
    requires Sound(f) && inputId in f.entities
    requires key in Absorbed(nm, inputRef, f, inputId, result).relations && key !in f.relations
    ensures exists r :: r in result.relationships && Says(nm, f, (inputRef, inputId), result.entities, r, key)
  {
    hide Sound, Absorbed, Says;
    var n := |result.relationships|;
    AbsorbRelates(nm, inputRef, f, inputId, result, key);
    SaidMeaning(nm, f, (inputRef, inputId), result, key, n);
    var i :| 0 <= i < n && Says(nm, f, (inputRef, inputId), result.entities, result.relationships[i], key);
    assert result.relationships[i] in result.relationships;
  }

  // ---------------------------------------------------------------- what is recorded of the entities

  /** The sources of the proposals about an entity, in order. */
  function Observations(nm: Naming, f: Findings, entities: seq<Proposal>, id: EntityId, n: nat): seq<Provenance>
    requires n <= |entities|
  {
    if n == 0 then [] else
      Observations(nm, f, entities, id, n - 1) + (if EntityOf(nm, f, entities, n - 1) == id then [entities[n - 1].source] else [])
  }

  function EntitySources(f: Findings, id: EntityId): seq<Provenance> {
    if id in f.entities then f.entities[id].sources else []
  }

  lemma UpsertSources(nm: Naming, f: Findings, g: Findings, entities: seq<Proposal>, n: nat, id: EntityId)
    requires n < |entities| && g.synthetic == f.synthetic + Anonymous(nm, entities[..n])
    ensures var p := entities[n];
      var h := Upserted(nm, g, p.kind, p.value, p.source, Extra(p.caption, p.props, false)).0;
      && EntitySources(h, id) == EntitySources(g, id) + (if EntityOf(nm, f, entities, n) == id then [p.source] else [])
      && (id in h.entities <==> id in g.entities || EntityOf(nm, f, entities, n) == id)
      && h.synthetic == f.synthetic + Anonymous(nm, entities[..n + 1])
  {
    assert entities[..n + 1][..n] == entities[..n];
  }

  lemma {:induction false} ProposedSources(nm: Naming, f: Findings, keys: Keys, entities: seq<Proposal>, id: EntityId, n: nat)
    requires n <= |entities|
    ensures var g := Proposed(nm, f, keys, entities[..n]).0;
      && g.synthetic == f.synthetic + Anonymous(nm, entities[..n])
      && EntitySources(g, id) == EntitySources(f, id) + Observations(nm, f, entities, id, n)
      && (id in g.entities <==> id in f.entities || Observations(nm, f, entities, id, n) != [])
  {
    hide Upserted, EntityOf, EntitySources;
    if n > 0 {
      assert entities[..n][..n - 1] == entities[..n - 1];
      ProposedSources(nm, f, keys, entities, id, n - 1);
      UpsertSources(nm, f, Proposed(nm, f, keys, entities[..n - 1]).0, entities, n - 1, id);
    }
  }

  /** Every entity gains exactly the sources of the proposals about it, and is there if it was there before
      or some proposal is about it. */
  lemma AbsorbObserves(nm: Naming, inputRef: Id, f: Findings, inputId: EntityId, result: EngineResult, id: EntityId)
    requires Sound(f) && inputId in f.entities
    ensures var g := Absorbed(nm, inputRef, f, inputId, result);
      var seen := Observations(nm, f, result.entities, id, |result.entities|);
      && EntitySources(g, id) == EntitySources(f, id) + seen
      && (id in g.entities <==> id in f.entities || seen != [])
  {
    hide Proposed, Related, Observations, Sound;
    var n := |result.entities|;
    assert result.entities[..n] == result.entities;
    ProposedKeeps(nm, f, map[inputRef := inputId], result.entities);
    ProposedSources(nm, f, map[inputRef := inputId], result.entities, id, n);
    var (g, keys) := Proposed(nm, f, map[inputRef := inputId], result.entities);
    RelatedKeeps(g, keys, result.relationships);
  }

  lemma {:induction false} AnonymousGrows(nm: Naming, entities: seq<Proposal>, i: nat, j: nat)
    requires i <= j <= |entities|
    ensures Anonymous(nm, entities[..i]) <= Anonymous(nm, entities[..j])
  {
    if i < j {
      assert entities[..j][..j - 1] == entities[..j - 1];
      AnonymousGrows(nm, entities, i, j - 1);
    }
  }

  /** A proposal without an identity is about an entity of its own: one that was not there and that no other
      proposal of the result is about. */
  lemma AnonymousAreNew(nm: Naming, f: Findings, entities: seq<Proposal>, i: nat, j: nat)
    requires Sound(f) && i < |entities| && j < |entities| && i != j && IdentityOf(nm, entities[i]).None?
    ensures EntityOf(nm, f, entities, i) !in f.entities
    ensures EntityOf(nm, f, entities, i) != EntityOf(nm, f, entities, j)
  {
    assert entities[..i + 1][..i] == entities[..i] && entities[..j + 1][..j] == entities[..j];
    assert NumberUsed(f, EntityOf(nm, f, entities, i));
    if i < j {
      AnonymousGrows(nm, entities, i + 1, j);
    } else {
      AnonymousGrows(nm, entities, j + 1, i);
    }
  }
}
