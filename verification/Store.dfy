/** The store object of store/store_write.go, changing its tables statement by
    statement inside a transaction, and proved to carry out the transactions
    of the EntityStore module.  Reads are tied to it as well. */
module Stores {
  import opened Basics
  import opened EntityStore
  import opened Effects
  import Traversal

  lemma {:induction false} ClaimAllSnoc(db: Db, id: Id, entityType: string, anchors: seq<AnchorQuery>, q: AnchorQuery)
    ensures var d, k := ClaimAll(db, id, entityType, anchors), Key(entityType, q);
            ClaimAll(db, id, entityType, anchors + [q])
            == d.(anchors := d.anchors[k := id], claims := d.claims + [Claimed(k, id)])
    decreases |anchors|
  {
    if anchors == [] {
      assert anchors + [q] == [q];
    } else {
      var k := Key(entityType, anchors[0]);
      var e := db.(anchors := db.anchors[k := id], claims := db.claims + [Claimed(k, id)]);
      ClaimAllSnoc(e, id, entityType, anchors[1..], q);
      assert (anchors + [q])[1..] == anchors[1..] + [q];
    }
  }

  lemma {:induction false} ApplyOpsSplit(db: Db, xs: seq<Op>, ys: seq<Op>)
    ensures ApplyOps(db, xs + ys) ==
            if ApplyOps(db, xs).Err? then ApplyOps(db, xs) else ApplyOps(ApplyOps(db, xs).value, ys)
    decreases |xs|
  {
    if xs == [] {
      assert xs + ys == ys;
    } else {
      assert (xs + ys)[0] == xs[0] && (xs + ys)[1..] == xs[1..] + ys;
      if ApplyOp(db, xs[0]).Ok? { ApplyOpsSplit(ApplyOp(db, xs[0]).value, xs[1..], ys); }
    }
  }

  lemma {:induction false} CheckAllSnoc(db: Db, pcs: seq<PreCondition>, pc: PreCondition)
    ensures CheckAll(db, pcs + [pc]) == if CheckAll(db, pcs).Some? then CheckAll(db, pcs) else Check(db, pc)
  {
    if pcs == [] {
      assert pcs + [pc] == [pc];
    } else {
      assert (pcs + [pc])[0] == pcs[0] && (pcs + [pc])[1..] == pcs[1..] + [pc];
      CheckAllSnoc(db, pcs[1..], pc);
    }
  }

  lemma {:induction false} CheckAllFails(db: Db, pcs: seq<PreCondition>, n: nat)
    requires n < |pcs| && CheckAll(db, pcs[..n]).None? && Check(db, pcs[n]).Some?
    ensures CheckAll(db, pcs) == Check(db, pcs[n])
  {
    if n > 0 {
      assert pcs[..n][0] == pcs[0] && pcs[..n][1..] == pcs[1..][..n - 1];
      CheckAllFails(db, pcs[1..], n - 1);
    }
  }

  lemma {:induction false} InvalidOpsFails(ops: seq<Op>, n: nat)
    requires n < |ops| && (forall m :: 0 <= m < n ==> Invalid(ops[m]).None?) && Invalid(ops[n]).Some?
    ensures InvalidOps(ops) == Invalid(ops[n])
  {
    if n > 0 { InvalidOpsFails(ops[1..], n - 1); }
  }

  lemma {:induction false} InvalidOpsNone(ops: seq<Op>)
    requires forall m :: 0 <= m < |ops| ==> Invalid(ops[m]).None?
    ensures InvalidOps(ops).None?
  {
    if ops != [] { InvalidOpsNone(ops[1..]); }
  }

  lemma FoundSnoc(db: Db, entityType: string, qs: seq<AnchorQuery>, q: AnchorQuery)
    ensures var k := Key(entityType, q);
            Found(db, entityType, qs + [q]) ==
            Found(db, entityType, qs) + if k in db.anchors && Live(db, db.anchors[k]) then {db.anchors[k]} else {}
  {
  }

  class Store {
    var now: int
    var entities: map<Id, Entity>
    var anchors: map<AnchorKey, Id>
    var relations: seq<Relation>
    var log: seq<Event>
    ghost var claims: seq<Claim>

    ghost function Tables(): Db
      reads this
    {
      Db(now, entities, anchors, relations, log, claims)
    }

    constructor ()
      ensures Tables() == EMPTY
    {
      now, entities, anchors, relations, log, claims := 0, map[], map[], [], [], [];
    }

    /** FindByAnchors with no filter: each live match once. */
    method FindByAnchors(entityType: string, queries: seq<AnchorQuery>) returns (result: seq<Id>)
      ensures forall id :: id in result <==> id in Found(Tables(), entityType, queries)
      ensures forall i, j :: 0 <= i < j < |result| ==> result[i] != result[j]
    {
      var seen: set<Id> := {};
      result := [];
      for n := 0 to |queries|
        invariant forall id :: id in seen <==> id in result
        invariant forall id :: id in seen <==> id in Found(Tables(), entityType, queries[..n])
        invariant forall i, j :: 0 <= i < j < |result| ==> result[i] != result[j]
      {
        var k := AnchorKey(entityType, queries[n].field, queries[n].value);
        FoundSnoc(Tables(), entityType, queries[..n], queries[n]);
        assert queries[..n + 1] == queries[..n] + [queries[n]];
        if k in anchors && anchors[k] in entities && entities[anchors[k]].deletedAt.None? && anchors[k] !in seen {
          seen := seen + {anchors[k]};
          result := result + [anchors[k]];
        }
      }
      assert queries[..|queries|] == queries;
    }

    method EntitiesHaveTag(ids: seq<Id>, tag: string) returns (has: bool)
      requires forall id :: id in ids ==> id in entities
      ensures has <==> exists id :: id in ids && tag in entities[id].tags
    {
      for n := 0 to |ids|
        invariant forall m :: 0 <= m < n ==> tag !in entities[ids[m]].tags
      {
        if tag in entities[ids[n]].tags { return true; }
      }
      return false;
    }

    method EvaluatePreCondition(pc: PreCondition) returns (err: Option<Error>)
      ensures err == Check(Tables(), pc)
    {
      if pc.mustExist && pc.mustNotExist { return Some(Contradictory); }
      var found := FindByAnchors(pc.entityType, pc.anchors);
      ghost var ids := Found(Tables(), pc.entityType, pc.anchors);
      assert |found| == 0 <==> ids == {} by {
        if |found| > 0 { assert found[0] in ids; } else { assert forall id :: id !in ids; }
      }
      if pc.mustExist && |found| == 0 { return Some(MissingMatch); }
      if pc.mustNotExist && |found| > 0 { return Some(AlreadyExists); }
      var required := EntitiesHaveTag(found, pc.tagRequired);
      var forbidden := EntitiesHaveTag(found, pc.tagForbidden);
      assert required == HasTag(Tables(), ids, pc.tagRequired);
      assert forbidden == HasTag(Tables(), ids, pc.tagForbidden);
      if pc.tagRequired != "" && !required { return Some(TagMissing); }
      if pc.tagForbidden != "" && forbidden { return Some(TagPresent); }
      return None;
    }

    method EvaluatePreConditions(pcs: seq<PreCondition>) returns (err: Option<Error>)
      ensures err == CheckAll(Tables(), pcs)
    {
      for n := 0 to |pcs|
        invariant CheckAll(Tables(), pcs[..n]).None?
      {
        err := EvaluatePreCondition(pcs[n]);
        if err.Some? {
          CheckAllFails(Tables(), pcs, n);
          return;
        }
        CheckAllSnoc(Tables(), pcs[..n], pcs[n]);
        assert pcs[..n + 1] == pcs[..n] + [pcs[n]];
      }
      assert pcs[..|pcs|] == pcs;
      return None;
    }

    method UpsertAnchors(id: Id, entityType: string, queries: seq<AnchorQuery>)
      modifies this`anchors, this`claims
      ensures Tables() == ClaimAll(old(Tables()), id, entityType, queries)
    {
      for n := 0 to |queries|
        invariant Tables() == ClaimAll(old(Tables()), id, entityType, queries[..n])
      {
        ClaimAllSnoc(old(Tables()), id, entityType, queries[..n], queries[n]);
        assert queries[..n + 1] == queries[..n] + [queries[n]];
        var k := AnchorKey(entityType, queries[n].field, queries[n].value);
        anchors := anchors[k := id];
        claims := claims + [Claimed(k, id)];
      }
      assert queries[..|queries|] == queries;
    }

    /** The standard event, then the caller's, one row each. */
    method InsertEvents(standard: Event, payloads: seq<string>, subject: Option<Id>, tags: set<string>,
                        entityType: string)
      modifies this`log
      ensures log == old(log) + [standard] + Customs(payloads, subject, tags, entityType)
    {
      log := log + [standard];
      for n := 0 to |payloads|
        invariant log == old(log) + [standard] + Customs(payloads[..n], subject, tags, entityType)
      {
        assert Customs(payloads[..n + 1], subject, tags, entityType)
            == Customs(payloads[..n], subject, tags, entityType) + [Custom(payloads[n], subject, tags, entityType)];
        log := log + [Custom(payloads[n], subject, tags, entityType)];
      }
      assert payloads[..|payloads|] == payloads;
    }

    /** Anchors and events of a write whose row is in place. */
    method FinishWrite(w: WriteOp, id: Id, kind: Kind)
      requires id in entities
      modifies this`anchors, this`claims, this`log
      ensures var d := ClaimAll(old(Tables()), id, w.entityType, w.anchors);
              var tags := entities[id].tags;
              Tables() == d.(log := d.log + [Standard(kind, id, tags, w.entityType)]
                                    + Customs(w.events, Some(id), tags, w.entityType))
    {
      UpsertAnchors(id, w.entityType, w.anchors);
      ClaimAllEffect(old(Tables()), id, w.entityType, w.anchors);
      var tags := entities[id].tags;
      InsertEvents(Standard(kind, id, tags, w.entityType), w.events, Some(id), tags, w.entityType);
    }

    method CreateEntity(w: WriteOp) returns (err: Option<Error>)
      modifies this`entities, this`anchors, this`claims, this`log
      ensures ApplyCreate(old(Tables()), w) == if err.Some? then Err(err.value) else Ok(Tables())
    {
      if w.data.None? || w.entityType == "" { return Some(BadData); }
      if w.id.Malformed? { return Some(BadId); }
      var id := if w.id.Parsed? then w.id.id else w.generated;
      if id in entities { return Some(DuplicateId); }
      var tags := set t | t in w.tags;
      entities := entities[id := Entity(w.entityType, w.data.value, w.confidence, tags, w.displayName, 0, now, None)];
      FinishWrite(w, id, Created);
      return None;
    }

    method ChangeEntity(w: WriteOp) returns (err: Option<Error>)
      requires w.action.Update? || w.action.Merge?
      modifies this`entities, this`anchors, this`claims, this`log
      ensures ApplyChange(old(Tables()), w) == if err.Some? then Err(err.value) else Ok(Tables())
    {
      if w.data.None? || w.entityType == "" { return Some(BadData); }
      if !w.matched.Parsed? { return Some(BadId); }
      var id := w.matched.id;
      if id !in entities || entities[id].deletedAt.Some? || entities[id].version != w.version {
        return Some(VersionConflict);
      }
      var e := entities[id];
      if w.action.Update? {
        e := e.(data := w.data.value);
      } else {
        e := e.(data := e.data + w.data.value);
      }
      e := e.(confidence := w.confidence, displayName := w.displayName, version := e.version + 1);
      if |w.tags| > 0 {
        e := e.(tags := e.tags + set t | t in w.tags);
      }
      entities := entities[id := e];
      assert e.tags == old(entities[id].tags) + ToSet(w.tags);
      FinishWrite(w, id, if w.action.Update? then Updated(w.version) else Merged(w.version));
      return None;
    }

    method UpsertRelation(r: RelateOp) returns (err: Option<Error>)
      modifies this`relations, this`log
      ensures ApplyRelate(old(Tables()), r) == if err.Some? then Err(err.value) else Ok(Tables())
      ensures err.None? ==>
              && r.source.Parsed? && r.target.Parsed?
              && Relation(r.source.id, r.target.id, r.relationType, r.confidence, r.urn) in relations
              && old(log) + [Linked(RelationCreated, r.source.id, r.target.id, r.relationType)] <= log
    {
      if !r.source.Parsed? || !r.target.Parsed? { return Some(BadId); }
      if r.source.id !in entities || r.target.id !in entities { return Some(MissingEndpoint); }
      var row := Relation(r.source.id, r.target.id, r.relationType, r.confidence, r.urn);
      UpsertMembers(relations, row);
      relations := Upsert(relations, row);
      InsertEvents(Linked(RelationCreated, row.source, row.target, row.relationType), r.events, None, {}, "");
      return None;
    }

    method ExecuteOp(op: Op) returns (err: Option<Error>)
      modifies this`entities, this`anchors, this`claims, this`relations, this`log
      ensures ApplyOp(old(Tables()), op) == if err.Some? then Err(err.value) else Ok(Tables())
    {
      err := EvaluatePreConditions(op.pcs);
      if err.Some? { return; }
      match op.body {
        case Write(w) =>
          match w.action {
            case Create => err := CreateEntity(w);
            case Unknown => err := Some(UnknownAction);
            case _ => err := ChangeEntity(w);
          }
        case Relate(r) => err := UpsertRelation(r);
        case Empty => err := Some(EmptyOperation);
      }
    }

    method ExecuteBatchOps(ops: seq<Op>) returns (err: Option<Error>)
      modifies this`entities, this`anchors, this`claims, this`relations, this`log
      ensures ApplyOps(old(Tables()), ops) == if err.Some? then Err(err.value) else Ok(Tables())
    {
      err := None;
      for n := 0 to |ops|
        invariant err.None? && ApplyOps(old(Tables()), ops[..n]) == Ok(Tables())
      {
        ApplyOpsSplit(old(Tables()), ops[..n], ops[n..]);
        ApplyOpsSplit(old(Tables()), ops[..n], [ops[n]]);
        assert ops[..n] + ops[n..] == ops && ops[..n] + [ops[n]] == ops[..n + 1];
        err := ExecuteOp(ops[n]);
        if err.Some? { return; }
      }
      assert ops[..|ops|] == ops;
    }

    method ValidateOps(ops: seq<Op>) returns (err: Option<Error>)
      ensures err == InvalidOps(ops)
    {
      for n := 0 to |ops|
        invariant forall m :: 0 <= m < n ==> Invalid(ops[m]).None?
      {
        if Invalid(ops[n]).Some? {
          InvalidOpsFails(ops, n);
          return Invalid(ops[n]);
        }
      }
      InvalidOpsNone(ops);
      return None;
    }

    /** One transaction: everything, or nothing. */
    method BatchWrite(ops: seq<Op>) returns (err: Option<Error>)
      modifies this
      ensures err.None? ==> Batch(old(Tables()), ops) == Ok(Tables())
      ensures err.Some? ==> Batch(old(Tables()), ops) == Err(err.value) && Tables() == old(Tables())
    {
      if |ops| > MAX_BATCH_SIZE { return Some(TooManyOps); }
      err := ValidateOps(ops);
      if err.Some? { return; }
      var e, a, r, l := entities, anchors, relations, log;
      ghost var c := claims;
      err := ExecuteBatchOps(ops);
      if err.Some? {
        entities, anchors, relations, log := e, a, r, l;
        claims := c;
      }
    }

    method DeleteEntity(id: Id) returns (err: Option<Error>)
      modifies this`entities, this`log
      ensures SoftDelete(old(Tables()), id) == if err.Some? then Err(err.value) else Ok(Tables())
      ensures err.Some? ==> Tables() == old(Tables())
      ensures err == if Live(old(Tables()), id) then None else Some(NotFound)
      ensures err.None? ==>
              && SoftDeleted(Tables(), id) && entities.Keys == old(entities).Keys
              && entities[id] == old(entities[id]).(deletedAt := Some(now))
              && (forall x :: x in entities && x != id ==> entities[x] == old(entities)[x])
              && log == old(log) + [Standard(Deleted, id, entities[id].tags, entities[id].entityType)]
    {
      if id !in entities || entities[id].deletedAt.Some? { return Some(NotFound); }
      var e := entities[id];
      entities := entities[id := e.(deletedAt := Some(now))];
      log := log + [Standard(Deleted, id, e.tags, e.entityType)];
      return None;
    }

    method HardDeleteEntity(id: Id)
      modifies this
      ensures Tables() == HardDelete(old(Tables()), id)
    {
      var live := id in entities && entities[id].deletedAt.None?;
      var tags: set<string>, entityType := {}, "";
      if live {
        tags, entityType := entities[id].tags, entities[id].entityType;
      }
      log := log + [Standard(HardDeleted, id, tags, entityType)];
      entities := entities - {id};
      anchors := map k | k in anchors && anchors[k] != id :: anchors[k];
      relations := Unlinked(relations, id);
      claims := claims + [Erased(id)];
    }
  }

  // -------------------------------------------------------------------------
  // Traversal over the tables
  // -------------------------------------------------------------------------

  function ToGraph(db: Db): Traversal.Graph
  {
    Traversal.Graph(
      map id | id in db.entities ::
        var e := db.entities[id];
        Traversal.Node(e.entityType, e.tags, e.deletedAt.Some?, e.createdAt),
      seq(|db.relations|, n requires 0 <= n < |db.relations| =>
        var r := db.relations[n];
        Traversal.Edge(r.source, r.target, r.relationType, r.confidence)))
  }

  /** After a soft delete and until a hard delete, no traversal starts at the
      entity, passes through it or returns it. */
  lemma DeletedIsNeverTraversed(db: Db, steps: seq<Step>, id: Id,
                                o: Traversal.Opts, start: Id, n: nat, x: Traversal.Row)
    requires SoftDeleted(db, id) && DoHardDelete(id) !in steps
    requires x in Traversal.Level(ToGraph(Run(db, steps)), o, start, n)
    ensures id !in x.visited
  {
    DeletedStaysFrozen(db, steps, id);
    var g := ToGraph(Run(db, steps));
    Traversal.LevelSound(g, o, start, n, x);
    forall i | 0 <= i < |x.visited| ensures x.visited[i] != id {
      if i > 0 {
        assert Traversal.Follows(g, o, x.visited[i - 1], x.path[i - 1], x.visited[i]);
      }
    }
  }

  /** So it is after every soft delete that succeeded. */
  lemma DeletedIsUnreachable(db: Db, id: Id, steps: seq<Step>, o: Traversal.Opts, start: Id, n: nat, x: Traversal.Row)
    requires Outcome(db, DoDelete(id)).Ok? && DoHardDelete(id) !in steps
    requires x in Traversal.Level(ToGraph(Run(db, [DoDelete(id)] + steps)), o, start, n)
    ensures id !in x.visited
  {
    SoftDeleteEffect(db, id);
    assert ([DoDelete(id)] + steps)[1..] == steps;
    DeletedIsNeverTraversed(Perform(db, DoDelete(id)), steps, id, o, start, n, x);
  }

  /** The graph has the columns of the tables. */
  lemma GraphColumns(db: Db, e: Traversal.Edge, v: Id)
    ensures var g := ToGraph(db);
            && (e in g.relations <==>
                  exists q :: q in db.relations && q.source == e.source && q.target == e.target
                              && q.relationType == e.relationType && q.confidence == e.confidence)
            && (v in g.entities <==> v in db.entities)
            && (v in db.entities ==>
                  && g.entities[v].entityType == db.entities[v].entityType
                  && g.entities[v].tags == db.entities[v].tags && g.entities[v].createdAt == db.entities[v].createdAt
                  && (g.entities[v].deleted <==> db.entities[v].deletedAt.Some?))
  {
    var g := ToGraph(db);
    if e in g.relations {
      var n :| 0 <= n < |g.relations| && g.relations[n] == e;
      assert db.relations[n] in db.relations;
    }
    if q :| q in db.relations && q.source == e.source && q.target == e.target
            && q.relationType == e.relationType && q.confidence == e.confidence {
      var n :| 0 <= n < |db.relations| && db.relations[n] == q;
      assert g.relations[n] == e;
    }
  }

  /** Once a relation has committed, a traversal that follows its type outbound
      gets from its source to its target in one hop, if it may enter it. */
  lemma RelatedIsAdjacent(db: Db, r: RelateOp, o: Traversal.Opts)
    requires RelateCommits(db, r)
    requires !o.direction.Inbound? && (o.relationTypes == [] || r.relationType in o.relationTypes)
    requires o.minConfidence == 0.0 || o.minConfidence <= r.confidence
    requires Traversal.MayEnter(ToGraph(db), o, r.target.id)
    ensures Traversal.Adjacent(ToGraph(ApplyBody(db, Relate(r)).value), o, r.source.id, r.target.id)
  {
    RelateEffect(db, r);
    var d := ApplyBody(db, Relate(r)).value;
    var e := Traversal.Edge(r.source.id, r.target.id, r.relationType, r.confidence);
    GraphColumns(d, e, r.target.id);
    assert Traversal.LeadsTo(ToGraph(d), o, e, r.source.id, r.target.id);
    Traversal.AdjacentIff(ToGraph(d), o, r.source.id, r.target.id);
  }
}
