/** The transactional entity store of store/store_write.go: entities, the
    anchor index, relations and the event log, changed by batches of writes,
    soft and hard deletes and tag edits.  A committed transaction is one step. */
module EntityStore {
  import opened Basics

  type Id = nat

  /** A JSON object, by its top-level fields. */
  type Data = map<string, string>

  datatype Entity = Entity(entityType: string, data: Data, confidence: real, tags: set<string>,
                           displayName: string, version: int, createdAt: int, deletedAt: Option<int>)

  datatype AnchorQuery = AnchorQuery(field: string, value: string)

  datatype AnchorKey = AnchorKey(entityType: string, field: string, value: string)

  /** `urn` is empty where the column is null. */
  datatype Relation = Relation(source: Id, target: Id, relationType: string, confidence: real, urn: string)

  /** Updates and merges carry the version they named, which the payload does
      not: it is kept here to say what the log means. */
  datatype Kind =
    | Created | Updated(expected: int) | Merged(expected: int) | Deleted | HardDeleted
    | RelationCreated | RelationDeleted

  /** A row of entity_events.  Standard events are the store's own; the others
      were handed in by a caller. */
  datatype Event =
    | Standard(kind: Kind, id: Id, tags: set<string>, entityType: string)
    | Linked(kind: Kind, source: Id, target: Id, relationType: string)
    | Custom(payload: string, subject: Option<Id>, tags: set<string>, entityType: string)

  /** History of the anchor index: who claimed which key, and who was erased. */
  datatype Claim = Claimed(key: AnchorKey, id: Id) | Erased(id: Id)

  datatype Db = Db(now: int, entities: map<Id, Entity>, anchors: map<AnchorKey, Id>, relations: seq<Relation>,
                   log: seq<Event>, claims: seq<Claim>)

  predicate Live(db: Db, id: Id)
  {
    id in db.entities && db.entities[id].deletedAt.None?
  }

  // -------------------------------------------------------------------------
  // Operations of a batch
  // -------------------------------------------------------------------------

  /** An id as the caller wrote it. */
  datatype IdText = Absent | Malformed | Parsed(id: Id)

  datatype Action = Create | Update | Merge | Unknown

  /** `generated` is the id the database would generate. */
  datatype WriteOp = WriteOp(action: Action, id: IdText, generated: Id, matched: IdText, entityType: string,
                             data: Option<Data>, confidence: real, tags: seq<string>, anchors: seq<AnchorQuery>,
                             displayName: string, version: int, events: seq<string>)

  datatype RelateOp = RelateOp(source: IdText, target: IdText, relationType: string, confidence: real, urn: string,
                               events: seq<string>)

  datatype PreCondition = PreCondition(entityType: string, anchors: seq<AnchorQuery>, mustExist: bool,
                                       mustNotExist: bool, tagRequired: string, tagForbidden: string)

  datatype Body = Write(w: WriteOp) | Relate(r: RelateOp) | Empty

  datatype Op = Op(body: Body, pcs: seq<PreCondition>)

  datatype Error =
    | TooManyOps | BadTags | BadRelationType
    | Contradictory | MissingMatch | AlreadyExists | TagMissing | TagPresent
    | BadData | BadId | DuplicateId | VersionConflict | UnknownAction | MissingEndpoint | EmptyOperation | NotFound

  const MAX_BATCH_SIZE := 1000

  predicate ValidTags(tags: seq<string>)
  {
    |tags| <= 100 && forall t :: t in tags ==> 0 < |t| <= 255
  }

  predicate ValidRelationType(t: string)
  {
    0 < |t| <= 255
  }

  function ToSet(tags: seq<string>): set<string>
  {
    set t | t in tags
  }

  // -------------------------------------------------------------------------
  // Preconditions
  // -------------------------------------------------------------------------

  function Key(entityType: string, q: AnchorQuery): AnchorKey
  {
    AnchorKey(entityType, q.field, q.value)
  }

  /** The live entities the index gives for any of the anchors. */
  function Found(db: Db, entityType: string, anchors: seq<AnchorQuery>): set<Id>
  {
    set q | q in anchors && Key(entityType, q) in db.anchors && Live(db, db.anchors[Key(entityType, q)])
      :: db.anchors[Key(entityType, q)]
  }

  predicate HasTag(db: Db, ids: set<Id>, tag: string)
  {
    exists id :: id in ids && id in db.entities && tag in db.entities[id].tags
  }

  function Check(db: Db, pc: PreCondition): Option<Error>
  {
    var found := Found(db, pc.entityType, pc.anchors);
    if pc.mustExist && pc.mustNotExist then Some(Contradictory)
    else if pc.mustExist && found == {} then Some(MissingMatch)
    else if pc.mustNotExist && found != {} then Some(AlreadyExists)
    else if pc.tagRequired != "" && !HasTag(db, found, pc.tagRequired) then Some(TagMissing)
    else if pc.tagForbidden != "" && HasTag(db, found, pc.tagForbidden) then Some(TagPresent)
    else None
  }

  /** The first violation, in order. */
  function CheckAll(db: Db, pcs: seq<PreCondition>): Option<Error>
  {
    if pcs == [] then None
    else if Check(db, pcs[0]).Some? then Check(db, pcs[0])
    else CheckAll(db, pcs[1..])
  }

  // -------------------------------------------------------------------------
  // Applying an operation
  // -------------------------------------------------------------------------

  // UpsertAnchor: the key passes to the newcomer.
  function ClaimAll(db: Db, id: Id, entityType: string, anchors: seq<AnchorQuery>): Db
    decreases |anchors|
  {
    if anchors == [] then db
    else
      var k := Key(entityType, anchors[0]);
      ClaimAll(db.(anchors := db.anchors[k := id], claims := db.claims + [Claimed(k, id)]),
               id, entityType, anchors[1..])
  }

  function Customs(payloads: seq<string>, id: Option<Id>, tags: set<string>, entityType: string): seq<Event>
  {
    seq(|payloads|, n requires 0 <= n < |payloads| => Custom(payloads[n], id, tags, entityType))
  }

  /** The rest of a write once its row is decided: anchors, then the standard
      event and the caller's, with the tags the row now has. */
  function Commit(db: Db, w: WriteOp, id: Id, e: Entity, kind: Kind): Db
  {
    var d := ClaimAll(db.(entities := db.entities[id := e]), id, w.entityType, w.anchors);
    d.(log := d.log + [Standard(kind, id, e.tags, w.entityType)] + Customs(w.events, Some(id), e.tags, w.entityType))
  }

  /** The entity a write is about. */
  function Target(w: WriteOp): Id
  {
    if w.action.Create? then (if w.id.Parsed? then w.id.id else w.generated)
    else if w.matched.Parsed? then w.matched.id else 0
  }

  function KindOf(w: WriteOp): Kind
  {
    if w.action.Create? then Created else if w.action.Update? then Updated(w.version) else Merged(w.version)
  }

  // applyCreate.
  function ApplyCreate(db: Db, w: WriteOp): Result<Db, Error>
  {
    if w.data.None? || w.entityType == "" then Err(BadData)
    else if w.id.Malformed? then Err(BadId)
    else
      var id := if w.id.Parsed? then w.id.id else w.generated;
      if id in db.entities then Err(DuplicateId)
      else
        var e := Entity(w.entityType, w.data.value, w.confidence, ToSet(w.tags), w.displayName, 0, db.now, None);
        Ok(Commit(db, w, id, e, Created))
  }

  // applyUpdateOrMerge: guarded by id, version and liveness.
  function ApplyChange(db: Db, w: WriteOp): Result<Db, Error>
    requires w.action.Update? || w.action.Merge?
  {
    if w.data.None? || w.entityType == "" then Err(BadData)
    else if !w.matched.Parsed? then Err(BadId)
    else
      var id := w.matched.id;
      if !Live(db, id) || db.entities[id].version != w.version then Err(VersionConflict)
      else
        var was := db.entities[id];
        var data := if w.action.Update? then w.data.value else was.data + w.data.value;
        var e := was.(data := data, confidence := w.confidence, displayName := w.displayName,
                      version := was.version + 1, tags := was.tags + ToSet(w.tags));
        Ok(Commit(db, w, id, e, if w.action.Update? then Updated(w.version) else Merged(w.version)))
  }

  // UpsertRelation: one row per source, target and type among those with no URN.
  function Upsert(relations: seq<Relation>, r: Relation): seq<Relation>
  {
    if relations == [] then [r]
    else if r.urn == "" && relations[0] == r.(confidence := relations[0].confidence) then [r] + relations[1..]
    else [relations[0]] + Upsert(relations[1..], r)
  }

  function ApplyRelate(db: Db, r: RelateOp): Result<Db, Error>
  {
    if !r.source.Parsed? || !r.target.Parsed? then Err(BadId)
    else if r.source.id !in db.entities || r.target.id !in db.entities then Err(MissingEndpoint)
    else
      var row := Relation(r.source.id, r.target.id, r.relationType, r.confidence, r.urn);
      Ok(db.(relations := Upsert(db.relations, row),
             log := db.log + [Linked(RelationCreated, row.source, row.target, row.relationType)]
                    + Customs(r.events, None, {}, "")))
  }

  function ApplyBody(db: Db, b: Body): Result<Db, Error>
  {
    match b
    case Write(w) =>
      if w.action.Create? then ApplyCreate(db, w)
      else if w.action.Unknown? then Err(UnknownAction)
      else ApplyChange(db, w)
    case Relate(r) => ApplyRelate(db, r)
    case Empty => Err(EmptyOperation)
  }

  function ApplyOp(db: Db, op: Op): Result<Db, Error>
  {
    if CheckAll(db, op.pcs).Some? then Err(CheckAll(db, op.pcs).value) else ApplyBody(db, op.body)
  }

  function ApplyOps(db: Db, ops: seq<Op>): Result<Db, Error>
    decreases |ops|
  {
    if ops == [] then Ok(db)
    else
      var r := ApplyOp(db, ops[0]);
      if r.Err? then r else ApplyOps(r.value, ops[1..])
  }

  function Invalid(op: Op): Option<Error>
  {
    match op.body
    case Write(w) => if ValidTags(w.tags) then None else Some(BadTags)
    case Relate(r) => if ValidRelationType(r.relationType) then None else Some(BadRelationType)
    case Empty => None
  }

  function InvalidOps(ops: seq<Op>): Option<Error>
  {
    if ops == [] then None
    else if Invalid(ops[0]).Some? then Invalid(ops[0])
    else InvalidOps(ops[1..])
  }

  // BatchWrite, on a transaction of its own.
  function Batch(db: Db, ops: seq<Op>): Result<Db, Error>
  {
    if |ops| > MAX_BATCH_SIZE then Err(TooManyOps)
    else if InvalidOps(ops).Some? then Err(InvalidOps(ops).value)
    else ApplyOps(db, ops)
  }

  // -------------------------------------------------------------------------
  // Deletes and tag edits
  // -------------------------------------------------------------------------

  // DeleteEntity.
  function SoftDelete(db: Db, id: Id): Result<Db, Error>
  {
    if !Live(db, id) then Err(NotFound)
    else
      var e := db.entities[id];
      Ok(db.(entities := db.entities[id := e.(deletedAt := Some(db.now))],
             log := db.log + [Standard(Deleted, id, e.tags, e.entityType)]))
  }

  function Unlinked(relations: seq<Relation>, id: Id): seq<Relation>
  {
    if relations == [] then []
    else (if relations[0].source == id || relations[0].target == id then [] else [relations[0]])
         + Unlinked(relations[1..], id)
  }

  // HardDeleteEntity: logs first, then the row goes and the foreign keys cascade.
  function HardDelete(db: Db, id: Id): Db
  {
    var tags := if Live(db, id) then db.entities[id].tags else {};
    var entityType := if Live(db, id) then db.entities[id].entityType else "";
    db.(log := db.log + [Standard(HardDeleted, id, tags, entityType)],
        entities := db.entities - {id},
        anchors := map k | k in db.anchors && db.anchors[k] != id :: db.anchors[k],
        relations := Unlinked(db.relations, id),
        claims := db.claims + [Erased(id)])
  }

  datatype TagEdit = SetTags(tags: seq<string>) | AddTags(tags: seq<string>) | RemoveTag(tag: string)

  function Edited(tags: set<string>, edit: TagEdit): set<string>
  {
    match edit
    case SetTags(new') => ToSet(new')
    case AddTags(more) => tags + ToSet(more)
    case RemoveTag(t) => tags - {t}
  }

  // SetTags, AddTags, RemoveTag: no liveness guard, no event.
  function EditTags(db: Db, id: Id, edit: TagEdit): Result<Db, Error>
  {
    if !edit.RemoveTag? && !ValidTags(edit.tags) then Err(BadTags)
    else if id !in db.entities then Ok(db)
    else
      var e := db.entities[id];
      Ok(db.(entities := db.entities[id := e.(tags := Edited(e.tags, edit))]))
  }

  function Pruned(relations: seq<Relation>, source: Id, target: Id, relationType: string): seq<Relation>
  {
    if relations == [] then []
    else
      var r := relations[0];
      (if r.source == source && r.target == target && r.relationType == relationType then [] else [r])
      + Pruned(relations[1..], source, target, relationType)
  }

  // DeleteRelationByKey.
  function Unrelate(db: Db, source: Id, target: Id, relationType: string): Result<Db, Error>
  {
    if !ValidRelationType(relationType) then Err(BadRelationType)
    else Ok(db.(relations := Pruned(db.relations, source, target, relationType),
                log := db.log + [Linked(RelationDeleted, source, target, relationType)]))
  }

  // -------------------------------------------------------------------------
  // Runs
  // -------------------------------------------------------------------------

  datatype Step =
    | DoBatch(ops: seq<Op>)
    | DoDelete(id: Id)
    | DoHardDelete(id: Id)
    | DoTags(id: Id, edit: TagEdit)
    | DoUnrelate(source: Id, target: Id, relationType: string)
    | Pass(dt: nat)

  function Outcome(db: Db, t: Step): Result<Db, Error>
  {
    match t
    case DoBatch(ops) => Batch(db, ops)
    case DoDelete(id) => SoftDelete(db, id)
    case DoHardDelete(id) => Ok(HardDelete(db, id))
    case DoTags(id, edit) => EditTags(db, id, edit)
    case DoUnrelate(s, u, r) => Unrelate(db, s, u, r)
    case Pass(dt) => Ok(db.(now := db.now + dt))
  }

  /** A failed transaction is rolled back. */
  function Perform(db: Db, t: Step): Db
  {
    var r := Outcome(db, t);
    if r.Ok? then r.value else db
  }

  function Run(db: Db, steps: seq<Step>): Db
    decreases |steps|
  {
    if steps == [] then db else Run(Perform(db, steps[0]), steps[1..])
  }

  const EMPTY := Db(0, map[], map[], [], [], [])

  // -------------------------------------------------------------------------
  // What the log says about an entity
  // -------------------------------------------------------------------------

  datatype Status = Gone | Present(version: int, deleted: bool)

  function Evolve(s: Status, e: Event, id: Id): Status
  {
    if !e.Standard? || e.id != id then s
    else
      match e.kind
      case Created => Present(0, false)
      case Updated(_) => if s.Present? then s.(version := s.version + 1) else s
      case Merged(_) => if s.Present? then s.(version := s.version + 1) else s
      case Deleted => if s.Present? then s.(deleted := true) else s
      case HardDeleted => Gone
      case _ => s
  }

  /** The status of `id` as replayed from the log alone. */
  function Replay(log: seq<Event>, id: Id): Status
  {
    if log == [] then Gone else Evolve(Replay(log[..|log| - 1], id), log[|log| - 1], id)
  }

  function StatusOf(db: Db, id: Id): Status
  {
    if id in db.entities then Present(db.entities[id].version, db.entities[id].deletedAt.Some?) else Gone
  }

  /** The event fits the log before it: an entity is created only when absent,
      and changed only when live and at the version named. */
  ghost predicate Fits(log: seq<Event>, e: Event)
  {
    e.Standard? ==>
      match e.kind
      case Created => Replay(log, e.id) == Gone
      case Updated(v) => Replay(log, e.id) == Present(v, false)
      case Merged(v) => Replay(log, e.id) == Present(v, false)
      case Deleted => Replay(log, e.id).Present? && !Replay(log, e.id).deleted
      case _ => true
  }

  ghost predicate Coherent(log: seq<Event>)
  {
    forall n :: 0 <= n < |log| ==> Fits(log[..n], log[n])
  }

  /** The table is the replay of the log. */
  ghost predicate Recorded(db: Db)
  {
    Coherent(db.log) && forall id :: StatusOf(db, id) == Replay(db.log, id)
  }

  lemma AppendEvent(log: seq<Event>, e: Event)
    requires Coherent(log) && Fits(log, e)
    ensures Coherent(log + [e])
    ensures forall id :: Replay(log + [e], id) == Evolve(Replay(log, id), e, id)
  {
    assert (log + [e])[..|log|] == log;
    forall n | 0 <= n < |log + [e]| ensures Fits((log + [e])[..n], (log + [e])[n]) {
      if n < |log| {
        assert (log + [e])[..n] == log[..n];
      }
    }
  }

  /** Events of callers and of relations leave every status alone. */
  lemma {:induction false} AppendOthers(log: seq<Event>, es: seq<Event>)
    requires Coherent(log) && forall e :: e in es ==> !e.Standard?
    ensures Coherent(log + es) && forall id :: Replay(log + es, id) == Replay(log, id)
    decreases |es|
  {
    if es == [] {
      assert log + es == log;
    } else {
      AppendEvent(log, es[0]);
      AppendOthers(log + [es[0]], es[1..]);
      assert log + es == log + [es[0]] + es[1..];
    }
  }

  lemma {:induction false} ClaimAllEffect(db: Db, id: Id, entityType: string, anchors: seq<AnchorQuery>)
    ensures var d := ClaimAll(db, id, entityType, anchors);
            d == db.(anchors := d.anchors, claims := d.claims)
    decreases |anchors|
  {
    if anchors != [] {
      var k := Key(entityType, anchors[0]);
      ClaimAllEffect(db.(anchors := db.anchors[k := id], claims := db.claims + [Claimed(k, id)]),
                     id, entityType, anchors[1..]);
    }
  }

  /** One standard event for the entity whose row changed, then others. */
  lemma RecordedAfter(db: Db, d: Db, e: Event, rest: seq<Event>)
    requires Recorded(db) && e.Standard? && Fits(db.log, e)
    requires d.log == db.log + [e] + rest && (forall x :: x in rest ==> !x.Standard?)
    requires StatusOf(d, e.id) == Evolve(StatusOf(db, e.id), e, e.id)
    requires forall id :: id != e.id ==> StatusOf(d, id) == StatusOf(db, id)
    ensures Recorded(d)
  {
    AppendEvent(db.log, e);
    AppendOthers(db.log + [e], rest);
  }

  /** What a committed write did: one row, its anchors, its events. */
  lemma WriteEffect(db: Db, w: WriteOp)
    requires ApplyBody(db, Write(w)).Ok?
    ensures var d, id := ApplyBody(db, Write(w)).value, Target(w);
            && id in d.entities
            && d == Commit(db, w, id, d.entities[id], KindOf(w))
            && d == db.(entities := db.entities[id := d.entities[id]], anchors := d.anchors, claims := d.claims,
                        log := db.log + [Standard(KindOf(w), id, d.entities[id].tags, w.entityType)]
                               + Customs(w.events, Some(id), d.entities[id].tags, w.entityType))
            && if w.action.Create? then
                 id !in db.entities && d.entities[id].version == 0 && d.entities[id].deletedAt.None?
               else
                 && Live(db, id) && db.entities[id].version == w.version
                 && d.entities[id].version == w.version + 1 && d.entities[id].deletedAt.None?
  {
    var id := Target(w);
    if w.action.Create? {
      var e := Entity(w.entityType, w.data.value, w.confidence, ToSet(w.tags), w.displayName, 0, db.now, None);
      ClaimAllEffect(db.(entities := db.entities[id := e]), id, w.entityType, w.anchors);
    } else {
      var was := db.entities[id];
      var data := if w.action.Update? then w.data.value else was.data + w.data.value;
      var e := was.(data := data, confidence := w.confidence, displayName := w.displayName,
                    version := was.version + 1, tags := was.tags + ToSet(w.tags));
      ClaimAllEffect(db.(entities := db.entities[id := e]), id, w.entityType, w.anchors);
    }
  }

  lemma WriteRecorded(db: Db, w: WriteOp)
    requires Recorded(db) && ApplyBody(db, Write(w)).Ok?
    ensures Recorded(ApplyBody(db, Write(w)).value)
  {
    var d, id := ApplyBody(db, Write(w)).value, Target(w);
    WriteEffect(db, w);
    assert StatusOf(db, id) == Replay(db.log, id);
    var e := d.entities[id];
    RecordedAfter(db, d, Standard(KindOf(w), id, e.tags, w.entityType),
                  Customs(w.events, Some(id), e.tags, w.entityType));
  }

  lemma RelateRecorded(db: Db, r: RelateOp)
    requires Recorded(db) && ApplyRelate(db, r).Ok?
    ensures Recorded(ApplyRelate(db, r).value)
  {
    var d := ApplyRelate(db, r).value;
    var es := [Linked(RelationCreated, r.source.id, r.target.id, r.relationType)] + Customs(r.events, None, {}, "");
    AppendOthers(db.log, es);
    assert d.log == db.log + es;
  }

  lemma {:induction false} OpsRecorded(db: Db, ops: seq<Op>)
    requires Recorded(db) && ApplyOps(db, ops).Ok?
    ensures Recorded(ApplyOps(db, ops).value)
    decreases |ops|
  {
    if ops != [] {
      if ops[0].body.Write? { WriteRecorded(db, ops[0].body.w); } else { RelateRecorded(db, ops[0].body.r); }
      OpsRecorded(ApplyOp(db, ops[0]).value, ops[1..]);
    }
  }

  lemma DeleteRecorded(db: Db, id: Id)
    requires Recorded(db)
    ensures Live(db, id) ==> Recorded(SoftDelete(db, id).value)
    ensures Recorded(HardDelete(db, id))
  {
    assert StatusOf(db, id) == Replay(db.log, id);
    if Live(db, id) {
      var e := db.entities[id];
      RecordedAfter(db, SoftDelete(db, id).value, Standard(Deleted, id, e.tags, e.entityType), []);
    }
    var h := HardDelete(db, id);
    RecordedAfter(db, h, h.log[|db.log|], []);
  }

  lemma PerformRecorded(db: Db, t: Step)
    requires Recorded(db)
    ensures Recorded(Perform(db, t))
  {
    match t
    case DoBatch(ops) => if Batch(db, ops).Ok? { OpsRecorded(db, ops); }
    case DoDelete(id) => DeleteRecorded(db, id);
    case DoHardDelete(id) => DeleteRecorded(db, id);
    case DoTags(id, edit) =>
      var d := Perform(db, t);
      forall x ensures StatusOf(d, x) == StatusOf(db, x) {}
    case DoUnrelate(s, u, r) => AppendOthers(db.log, [Linked(RelationDeleted, s, u, r)]);
    case Pass(_) =>
      var d := Perform(db, t);
      forall x ensures StatusOf(d, x) == StatusOf(db, x) {}
  }

  /** After any run, which entities exist, their versions and whether they are
      deleted are what the log says, and every logged change named the
      version the entity had. */
  lemma {:induction false} RunRecorded(db: Db, steps: seq<Step>)
    requires Recorded(db)
    ensures Recorded(Run(db, steps))
    decreases |steps|
  {
    if steps != [] {
      PerformRecorded(db, steps[0]);
      RunRecorded(Perform(db, steps[0]), steps[1..]);
    }
  }

  // -------------------------------------------------------------------------
  // Versions
  // -------------------------------------------------------------------------

  predicate IsChange(e: Event, id: Id)
  {
    e.Standard? && e.id == id && (e.kind.Updated? || e.kind.Merged?)
  }

  function Expected(e: Event): int
    requires e.Standard? && (e.kind.Updated? || e.kind.Merged?)
  {
    e.kind.expected
  }

  /** `c` is where the present incarnation of `id` was created. */
  ghost predicate IsBirth(log: seq<Event>, id: Id, c: int)
  {
    && 0 <= c < |log| && log[c].Standard? && log[c].id == id && log[c].kind.Created?
    && forall n :: c < n < |log| && log[n].Standard? && log[n].id == id ==>
                   !log[n].kind.Created? && !log[n].kind.HardDeleted?
  }

  ghost function ChangesSince(log: seq<Event>, id: Id, c: int): set<int>
  {
    set n | c < n < |log| && 0 <= n && IsChange(log[n], id)
  }

  lemma CoherentPrefix(log: seq<Event>, n: nat)
    requires Coherent(log) && n <= |log|
    ensures Coherent(log[..n])
  {
    forall m | 0 <= m < n ensures Fits(log[..n][..m], log[..n][m]) {
      assert log[..n][..m] == log[..m];
    }
  }

  /** One more event, of the same incarnation. */
  lemma BirthKept(log: seq<Event>, e: Event, id: Id, c: int)
    requires IsBirth(log, id, c)
    requires e.Standard? && e.id == id ==> !e.kind.Created? && !e.kind.HardDeleted?
    ensures IsBirth(log + [e], id, c)
    ensures |ChangesSince(log + [e], id, c)| == |ChangesSince(log, id, c)| + if IsChange(e, id) then 1 else 0
  {
    var n := |log|;
    assert forall m :: 0 <= m < n ==> (log + [e])[m] == log[m];
    assert ChangesSince(log + [e], id, c) == ChangesSince(log, id, c) + if IsChange(e, id) then {n} else {};
  }

  /** A version counts the standard updates and merges logged since creation. */
  lemma {:induction false} VersionCountsChanges(log: seq<Event>, id: Id) returns (c: int)
    requires Coherent(log) && Replay(log, id).Present?
    ensures IsBirth(log, id, c) && Replay(log, id).version == |ChangesSince(log, id, c)|
  {
    var n := |log| - 1;
    var prefix, e := log[..n], log[n];
    assert log == prefix + [e] && Fits(prefix, e);
    if e.Standard? && e.id == id && e.kind.Created? {
      c := n;
      assert ChangesSince(log, id, c) == {};
    } else {
      CoherentPrefix(log, n);
      c := VersionCountsChanges(prefix, id);
      BirthKept(prefix, e, id, c);
    }
  }

  /** The version column counts the standard changes since the creation event. */
  lemma VersionIsCount(db: Db, steps: seq<Step>, id: Id) returns (c: int)
    requires Recorded(db) && id in Run(db, steps).entities
    ensures var d := Run(db, steps);
            IsBirth(d.log, id, c) && d.entities[id].version == |ChangesSince(d.log, id, c)|
  {
    RunRecorded(db, steps);
    var d := Run(db, steps);
    assert StatusOf(d, id) == Replay(d.log, id);
    c := VersionCountsChanges(d.log, id);
  }

  ghost predicate HardDeletedBetween(log: seq<Event>, id: Id, i: int, j: int)
  {
    exists k :: 0 <= k < |log| && i < k < j && log[k].Standard? && log[k].id == id && log[k].kind.HardDeleted?
  }

  /** Until a hard delete, a version never goes down. */
  lemma {:induction false} VersionRises(log: seq<Event>, id: Id, i: nat, n: nat)
    requires Coherent(log) && i < n <= |log| && !HardDeletedBetween(log, id, i, n)
    requires Replay(log[..i + 1], id).Present?
    ensures Replay(log[..n], id).Present? && Replay(log[..n], id).version >= Replay(log[..i + 1], id).version
    decreases n
  {
    if i + 1 < n {
      assert !HardDeletedBetween(log, id, i, n - 1);
      VersionRises(log, id, i, n - 1);
      assert log[..n][..n - 1] == log[..n - 1];
      assert Fits(log[..n - 1], log[n - 1]);
    }
  }

  /** Two changes of `id` that named the same version. */
  predicate SameVersion(e: Event, f: Event, id: Id)
  {
    IsChange(e, id) && IsChange(f, id) && Expected(e) == Expected(f)
  }

  /** Of the writes that name the same version of the same incarnation, at
      most one commits: two in one log have a hard delete between them. */
  lemma OneCommitPerVersion(log: seq<Event>, id: Id, i: nat, j: nat)
    requires Coherent(log) && i < j < |log|
    requires SameVersion(log[i], log[j], id)
    ensures HardDeletedBetween(log, id, i, j)
  {
    assert Fits(log[..i], log[i]) && Fits(log[..j], log[j]);
    assert log[..i + 1][..i] == log[..i];
    if !HardDeletedBetween(log, id, i, j) {
      VersionRises(log, id, i, j);
    }
  }

  // -------------------------------------------------------------------------
  // Anchors
  // -------------------------------------------------------------------------

  /** Entry `n` of the history is the claim of `k` by `id` that still stands. */
  ghost predicate Stands(claims: seq<Claim>, n: int, k: AnchorKey, id: Id)
  {
    && 0 <= n < |claims| && claims[n] == Claimed(k, id)
    && forall m :: n < m < |claims| ==> !(claims[m].Claimed? && claims[m].key == k) && claims[m] != Erased(id)
  }

  /** `id` was the latest to claim `k` and has not been erased since. */
  ghost predicate Owner(claims: seq<Claim>, k: AnchorKey, id: Id)
  {
    exists n :: Stands(claims, n, k, id)
  }

  /** A standing claim survives any entry but a rival claim or an erasure. */
  lemma StandsAppend(claims: seq<Claim>, c: Claim, n: int, k: AnchorKey, id: Id)
    requires n < |claims|
    ensures Stands(claims + [c], n, k, id) <==>
            Stands(claims, n, k, id) && !(c.Claimed? && c.key == k) && c != Erased(id)
  {
    var more := claims + [c];
    assert forall m :: 0 <= m < |claims| ==> more[m] == claims[m];
    assert more[|claims|] == c;
  }

  lemma OwnerAppend(claims: seq<Claim>, c: Claim, k: AnchorKey, id: Id)
    ensures Owner(claims + [c], k, id) <==>
            if c.Claimed? && c.key == k then c.id == id
            else Owner(claims, k, id) && c != Erased(id)
  {
    var more := claims + [c];
    forall n | n < |claims|
      ensures Stands(more, n, k, id) <==> Stands(claims, n, k, id) && !(c.Claimed? && c.key == k) && c != Erased(id)
    {
      StandsAppend(claims, c, n, k, id);
    }
    assert Stands(more, |claims|, k, id) <==> c == Claimed(k, id);
    if Owner(claims, k, id) {
      var n :| Stands(claims, n, k, id);
      assert Stands(more, n, k, id) <==> !(c.Claimed? && c.key == k) && c != Erased(id);
    }
  }

  /** The index says exactly who owns what, and owners have a row. */
  ghost predicate Indexed(db: Db)
  {
    && (forall k, id :: k in db.anchors && db.anchors[k] == id <==> Owner(db.claims, k, id))
    && (forall k :: k in db.anchors ==> db.anchors[k] in db.entities)
  }

  lemma {:induction false} ClaimAllIndexed(db: Db, id: Id, entityType: string, anchors: seq<AnchorQuery>)
    requires Indexed(db) && id in db.entities
    ensures Indexed(ClaimAll(db, id, entityType, anchors))
    decreases |anchors|
  {
    if anchors != [] {
      var k := Key(entityType, anchors[0]);
      var d := db.(anchors := db.anchors[k := id], claims := db.claims + [Claimed(k, id)]);
      forall x, y ensures x in d.anchors && d.anchors[x] == y <==> Owner(d.claims, x, y) {
        OwnerAppend(db.claims, Claimed(k, id), x, y);
      }
      ClaimAllIndexed(d, id, entityType, anchors[1..]);
    }
  }

  lemma HardDeleteIndexed(db: Db, id: Id)
    requires Indexed(db)
    ensures Indexed(HardDelete(db, id))
  {
    var d := HardDelete(db, id);
    forall x, y ensures x in d.anchors && d.anchors[x] == y <==> Owner(d.claims, x, y) {
      OwnerAppend(db.claims, Erased(id), x, y);
    }
  }

  lemma OpIndexed(db: Db, op: Op)
    requires Indexed(db) && ApplyOp(db, op).Ok?
    ensures Indexed(ApplyOp(db, op).value)
  {
    if op.body.Write? {
      var w := op.body.w;
      var d := ApplyOp(db, op).value;
      WriteEffect(db, w);
      var id := Target(w);
      ClaimAllIndexed(db.(entities := db.entities[id := d.entities[id]]), id, w.entityType, w.anchors);
    }
  }

  lemma {:induction false} OpsIndexed(db: Db, ops: seq<Op>)
    requires Indexed(db) && ApplyOps(db, ops).Ok?
    ensures Indexed(ApplyOps(db, ops).value)
    decreases |ops|
  {
    if ops != [] {
      OpIndexed(db, ops[0]);
      OpsIndexed(ApplyOp(db, ops[0]).value, ops[1..]);
    }
  }

  lemma PerformIndexed(db: Db, t: Step)
    requires Indexed(db)
    ensures Indexed(Perform(db, t))
  {
    match t
    case DoBatch(ops) => if Batch(db, ops).Ok? { OpsIndexed(db, ops); }
    case DoHardDelete(id) => HardDeleteIndexed(db, id);
    case _ =>
  }

  lemma {:induction false} RunIndexed(db: Db, steps: seq<Step>)
    requires Indexed(db)
    ensures Indexed(Run(db, steps))
    decreases |steps|
  {
    if steps != [] {
      PerformIndexed(db, steps[0]);
      RunIndexed(Perform(db, steps[0]), steps[1..]);
    }
  }

  /** After any run an unfiltered anchor lookup finds exactly the live
      entities that were the latest to claim one of the keys asked for. */
  lemma FoundAreLatestClaimants(db: Db, steps: seq<Step>, entityType: string, anchors: seq<AnchorQuery>, id: Id)
    requires Indexed(db)
    ensures var d := Run(db, steps);
            id in Found(d, entityType, anchors) <==>
            Live(d, id) && exists q :: q in anchors && Owner(d.claims, Key(entityType, q), id)
  {
    RunIndexed(db, steps);
    var d := Run(db, steps);
    if Live(d, id) {
      forall q | q in anchors && Owner(d.claims, Key(entityType, q), id) ensures id in Found(d, entityType, anchors) {
        assert d.anchors[Key(entityType, q)] == id;
      }
    }
  }

  // -------------------------------------------------------------------------
  // Types of keys
  // -------------------------------------------------------------------------

  /** Every key of the index has the type its owner is stored under. */
  ghost predicate KeyTypes(db: Db)
  {
    forall k :: k in db.anchors && db.anchors[k] in db.entities ==>
                k.entityType == db.entities[db.anchors[k]].entityType
  }

  predicate Named(entityType: string, anchors: seq<AnchorQuery>, k: AnchorKey)
  {
    k.entityType == entityType && AnchorQuery(k.field, k.value) in anchors
  }

  lemma {:induction false} ClaimAllOwners(db: Db, id: Id, entityType: string, anchors: seq<AnchorQuery>)
    ensures var d := ClaimAll(db, id, entityType, anchors);
            && d.entities == db.entities
            && (forall k :: k in d.anchors <==> k in db.anchors || Named(entityType, anchors, k))
            && (forall k :: k in d.anchors ==>
                  d.anchors[k] == if Named(entityType, anchors, k) then id else db.anchors[k])
    decreases |anchors|
  {
    if anchors != [] {
      var k := Key(entityType, anchors[0]);
      var d := db.(anchors := db.anchors[k := id], claims := db.claims + [Claimed(k, id)]);
      ClaimAllOwners(d, id, entityType, anchors[1..]);
      assert anchors == [anchors[0]] + anchors[1..];
      forall x: AnchorKey
        ensures Named(entityType, anchors, x) <==> x == k || Named(entityType, anchors[1..], x)
      {
      }
    }
  }

  /** The write claims no key under a type other than the stored one. */
  predicate NamesStoredType(db: Db, w: WriteOp)
  {
    w.action.Create? || w.anchors == [] ||
    (Target(w) in db.entities && w.entityType == db.entities[Target(w)].entityType)
  }

  lemma WriteOwners(db: Db, w: WriteOp)
    requires Indexed(db) && ApplyBody(db, Write(w)).Ok?
    ensures var d, id := ApplyBody(db, Write(w)).value, Target(w);
            && id in d.entities && d.entities == db.entities[id := d.entities[id]]
            && d.entities[id].entityType == (if w.action.Create? then w.entityType else db.entities[id].entityType)
            && (w.action.Create? <==> id !in db.entities)
            && (forall k :: k in d.anchors <==> k in db.anchors || Named(w.entityType, w.anchors, k))
            && (forall k :: k in d.anchors ==>
                  d.anchors[k] == if Named(w.entityType, w.anchors, k) then id else db.anchors[k])
  {
    WriteEffect(db, w);
    WriteRow(db, w);
    var d, id := ApplyBody(db, Write(w)).value, Target(w);
    ClaimAllOwners(db.(entities := db.entities[id := d.entities[id]]), id, w.entityType, w.anchors);
  }

  /** A committed write keeps key types exactly when it is a create, claims
      nothing, or names the type the entity is stored under. */
  lemma WriteKeepsTypesIff(db: Db, w: WriteOp)
    requires Indexed(db) && KeyTypes(db) && ApplyBody(db, Write(w)).Ok?
    ensures KeyTypes(ApplyBody(db, Write(w)).value) <==> NamesStoredType(db, w)
  {
    var d, id := ApplyBody(db, Write(w)).value, Target(w);
    WriteOwners(db, w);
    if !NamesStoredType(db, w) {
      var k := Key(w.entityType, w.anchors[0]);
      assert AnchorQuery(k.field, k.value) == w.anchors[0];
      assert Named(w.entityType, w.anchors, k);
      assert d.anchors[k] == id;
    }
  }

  lemma OpKeepsTypesIff(db: Db, op: Op)
    requires Indexed(db) && KeyTypes(db) && ApplyOp(db, op).Ok?
    ensures KeyTypes(ApplyOp(db, op).value) <==> (op.body.Write? ==> NamesStoredType(db, op.body.w))
  {
    if op.body.Write? { WriteKeepsTypesIff(db, op.body.w); }
  }

  /** Key types hold before, between and after the ops of a batch. */
  ghost predicate OpsKeyTyped(db: Db, ops: seq<Op>)
    requires ApplyOps(db, ops).Ok?
    decreases |ops|
  {
    KeyTypes(db) && (ops == [] || OpsKeyTyped(ApplyOp(db, ops[0]).value, ops[1..]))
  }

  predicate OpsNameTypes(db: Db, ops: seq<Op>)
    requires ApplyOps(db, ops).Ok?
    decreases |ops|
  {
    ops == [] ||
    (&& (ops[0].body.Write? ==> NamesStoredType(db, ops[0].body.w))
     && OpsNameTypes(ApplyOp(db, ops[0]).value, ops[1..]))
  }

  lemma {:induction false} OpsKeepTypesIff(db: Db, ops: seq<Op>)
    requires Indexed(db) && KeyTypes(db) && ApplyOps(db, ops).Ok?
    ensures OpsKeyTyped(db, ops) <==> OpsNameTypes(db, ops)
    ensures OpsKeyTyped(db, ops) ==> KeyTypes(ApplyOps(db, ops).value)
    decreases |ops|
  {
    if ops != [] {
      OpKeepsTypesIff(db, ops[0]);
      OpIndexed(db, ops[0]);
      var d := ApplyOp(db, ops[0]).value;
      if KeyTypes(d) {
        OpsKeepTypesIff(d, ops[1..]);
      } else {
        assert !OpsKeyTyped(d, ops[1..]);
      }
    }
  }

  /** Key types hold in every state of the run, inside batches too. */
  ghost predicate RunKeyTyped(db: Db, steps: seq<Step>)
    decreases |steps|
  {
    KeyTypes(db) &&
    (steps == [] ||
     (&& (steps[0].DoBatch? && Outcome(db, steps[0]).Ok? ==> OpsKeyTyped(db, steps[0].ops))
      && RunKeyTyped(Perform(db, steps[0]), steps[1..])))
  }

  /** Every committed write that claims anchors names the stored type. */
  predicate RunNamesTypes(db: Db, steps: seq<Step>)
    decreases |steps|
  {
    steps == [] ||
    (&& (steps[0].DoBatch? && Outcome(db, steps[0]).Ok? ==> OpsNameTypes(db, steps[0].ops))
     && RunNamesTypes(Perform(db, steps[0]), steps[1..]))
  }

  lemma StepKeepsTypes(db: Db, t: Step)
    requires Indexed(db) && KeyTypes(db)
    requires t.DoBatch? && Outcome(db, t).Ok? ==> OpsNameTypes(db, t.ops)
    ensures KeyTypes(Perform(db, t))
  {
    if t.DoBatch? && Outcome(db, t).Ok? { OpsKeepTypesIff(db, t.ops); }
  }

  /** The index keeps its key types in every state of a run if and only if
      every committed update or merge that claims anchors names the type the
      entity is stored under. */
  lemma {:induction false} RunKeepsTypesIff(db: Db, steps: seq<Step>)
    requires Indexed(db) && KeyTypes(db)
    ensures RunKeyTyped(db, steps) <==> RunNamesTypes(db, steps)
    ensures RunNamesTypes(db, steps) ==> KeyTypes(Run(db, steps))
    decreases |steps|
  {
    if steps != [] {
      var t := steps[0];
      if t.DoBatch? && Outcome(db, t).Ok? { OpsKeepTypesIff(db, t.ops); }
      if t.DoBatch? && Outcome(db, t).Ok? ==> OpsNameTypes(db, t.ops) {
        StepKeepsTypes(db, t);
        PerformIndexed(db, t);
        RunKeepsTypesIff(Perform(db, t), steps[1..]);
      }
    }
  }

  /** Then a lookup by type finds entities of that type only. */
  lemma FoundHaveType(steps: seq<Step>, entityType: string, anchors: seq<AnchorQuery>, id: Id)
    requires RunNamesTypes(EMPTY, steps) && id in Found(Run(EMPTY, steps), entityType, anchors)
    ensures Run(EMPTY, steps).entities[id].entityType == entityType
  {
    EmptyIsSound();
    RunKeepsTypesIff(EMPTY, steps);
  }

  const MAIL := AnchorQuery("mail", "m")

  const CREATED := WriteOp(Create, Parsed(1), 0, Absent, "A", Some(map[]), 1.0, [], [], "", 0, [])

  /** An update under another type, with an anchor. */
  const RETYPED := WriteOp(Update, Absent, 0, Parsed(1), "B", Some(map[]), 1.0, [], [MAIL], "", 0, [])

  function Single(w: WriteOp): Step
  {
    DoBatch([Op(Write(w), [])])
  }

  lemma SingleCommits(db: Db, w: WriteOp)
    requires ValidTags(w.tags) && ApplyBody(db, Write(w)).Ok?
    ensures var op := Op(Write(w), []);
            && Outcome(db, Single(w)) == ApplyOps(db, [op]) == ApplyBody(db, Write(w))
            && (OpsNameTypes(db, [op]) ==> NamesStoredType(db, w))
  {
    var op := Op(Write(w), []);
    assert ApplyOp(db, op) == ApplyBody(db, Write(w));
    assert [op][1..] == [] && [op][0] == op;
    assert InvalidOps([op]) == InvalidOps([op][1..]) == None;
  }

  /** The condition is needed: in this run from the empty store a lookup of
      the new type finds an entity stored under the old one. */
  lemma RetypedExample()
    ensures var steps := [Single(CREATED), Single(RETYPED)];
            var d := Run(EMPTY, steps);
            && !RunNamesTypes(EMPTY, steps) && !KeyTypes(d)
            && 1 in Found(d, "B", [MAIL]) && d.entities[1].entityType == "A"
  {
    var steps := [Single(CREATED), Single(RETYPED)];
    EmptyIsSound();
    SingleCommits(EMPTY, CREATED);
    var d0 := Perform(EMPTY, steps[0]);
    WriteRow(EMPTY, CREATED);
    WriteEffect(EMPTY, CREATED);
    WriteKeepsTypesIff(EMPTY, CREATED);
    PerformIndexed(EMPTY, steps[0]);
    SingleCommits(d0, RETYPED);
    WriteOwners(d0, RETYPED);
    WriteEffect(d0, RETYPED);
    var d := Perform(d0, steps[1]);
    assert steps[1..] == [steps[1]] && steps[1..][1..] == [];
    assert Run(EMPTY, steps) == Run(d0, steps[1..]) == Run(d, steps[1..][1..]) == d;
    assert Named("B", [MAIL], Key("B", MAIL));
    assert d.anchors[Key("B", MAIL)] == 1;
  }

  lemma {:induction false} ClaimAllAppends(db: Db, id: Id, entityType: string, anchors: seq<AnchorQuery>)
    ensures db.claims <= ClaimAll(db, id, entityType, anchors).claims
    decreases |anchors|
  {
    if anchors != [] {
      var k := Key(entityType, anchors[0]);
      ClaimAllAppends(db.(anchors := db.anchors[k := id], claims := db.claims + [Claimed(k, id)]),
                      id, entityType, anchors[1..]);
    }
  }

  lemma {:induction false} OpsAppendClaims(db: Db, ops: seq<Op>)
    requires ApplyOps(db, ops).Ok?
    ensures db.claims <= ApplyOps(db, ops).value.claims
    decreases |ops|
  {
    if ops != [] {
      if ops[0].body.Write? {
        var w := ops[0].body.w;
        var d := ApplyOp(db, ops[0]).value;
        WriteEffect(db, w);
        ClaimAllAppends(db.(entities := db.entities[Target(w) := d.entities[Target(w)]]),
                        Target(w), w.entityType, w.anchors);
      }
      OpsAppendClaims(ApplyOp(db, ops[0]).value, ops[1..]);
    }
  }

  lemma {:induction false} RunAppendsClaims(db: Db, steps: seq<Step>)
    ensures db.claims <= Run(db, steps).claims
    decreases |steps|
  {
    if steps != [] {
      if steps[0].DoBatch? && Batch(db, steps[0].ops).Ok? { OpsAppendClaims(db, steps[0].ops); }
      RunAppendsClaims(Perform(db, steps[0]), steps[1..]);
    }
  }

  /** A key never falls back to an earlier claimant: whoever owns it after a
      run and did not before has claimed it during the run. */
  lemma NoKeyReturns(db: Db, steps: seq<Step>, k: AnchorKey, id: Id)
    requires Indexed(db)
    requires k in Run(db, steps).anchors && Run(db, steps).anchors[k] == id
    requires !(k in db.anchors && db.anchors[k] == id)
    ensures exists n :: |db.claims| <= n < |Run(db, steps).claims| && Run(db, steps).claims[n] == Claimed(k, id)
  {
    RunIndexed(db, steps);
    RunAppendsClaims(db, steps);
    var d := Run(db, steps);
    assert Owner(d.claims, k, id) && !Owner(db.claims, k, id);
    var n :| Stands(d.claims, n, k, id);
    assert !Stands(db.claims, n, k, id);
    if n < |db.claims| {
      assert forall m :: 0 <= m < |db.claims| ==> d.claims[m] == db.claims[m];
    }
  }

  // -------------------------------------------------------------------------
  // Soft deletes
  // -------------------------------------------------------------------------

  predicate SoftDeleted(db: Db, id: Id)
  {
    id in db.entities && db.entities[id].deletedAt.Some?
  }

  /** The row is as it was, up to tags. */
  predicate SameButTags(d: Db, db: Db, id: Id)
  {
    id in d.entities && id in db.entities && d.entities[id] == db.entities[id].(tags := d.entities[id].tags)
  }

  /** A batch with a write that names a soft-deleted entity fails: it can be
      neither changed nor created again. */
  lemma {:induction false} DeletedIsUntouchable(db: Db, ops: seq<Op>, id: Id)
    requires SoftDeleted(db, id)
    ensures ApplyOps(db, ops).Ok? ==>
            && SameButTags(ApplyOps(db, ops).value, db, id)
            && forall n :: 0 <= n < |ops| && ops[n].body.Write? ==> Target(ops[n].body.w) != id
    decreases |ops|
  {
    if ops != [] && ApplyOps(db, ops).Ok? {
      if ops[0].body.Write? { WriteEffect(db, ops[0].body.w); }
      DeletedIsUntouchable(ApplyOp(db, ops[0]).value, ops[1..], id);
      forall n | 0 <= n < |ops| && ops[n].body.Write? ensures Target(ops[n].body.w) != id {
        if n > 0 { assert ops[n] == ops[1..][n - 1]; }
      }
    }
  }

  /** From a soft delete until a hard delete, whatever else runs, the entity's
      row changes in its tags only, so it stays deleted and unreadable. */
  lemma {:induction false} DeletedStaysFrozen(db: Db, steps: seq<Step>, id: Id)
    requires SoftDeleted(db, id) && DoHardDelete(id) !in steps
    ensures SameButTags(Run(db, steps), db, id)
    ensures !Live(Run(db, steps), id)
    ensures forall t, anchors :: id !in Found(Run(db, steps), t, anchors)
    decreases |steps|
  {
    if steps != [] {
      if steps[0].DoBatch? { DeletedIsUntouchable(db, steps[0].ops, id); }
      DeletedStaysFrozen(Perform(db, steps[0]), steps[1..], id);
    }
  }

  // -------------------------------------------------------------------------
  // Batches
  // -------------------------------------------------------------------------

  /** The precondition, in the words of its documentation. */
  predicate Holds(db: Db, pc: PreCondition)
  {
    var found := Found(db, pc.entityType, pc.anchors);
    && !(pc.mustExist && pc.mustNotExist)
    && (pc.mustExist ==> exists id :: id in found)
    && (pc.mustNotExist ==> forall id :: id !in found)
    && (pc.tagRequired != "" ==> exists id :: id in found && pc.tagRequired in db.entities[id].tags)
    && (pc.tagForbidden != "" ==> forall id :: id in found ==> pc.tagForbidden !in db.entities[id].tags)
  }

  lemma CheckIsHolds(db: Db, pc: PreCondition)
    ensures Check(db, pc).None? <==> Holds(db, pc)
  {
  }

  lemma {:induction false} ChecksHold(db: Db, pcs: seq<PreCondition>)
    ensures CheckAll(db, pcs).None? <==> forall pc :: pc in pcs ==> Holds(db, pc)
  {
    if pcs != [] {
      CheckIsHolds(db, pcs[0]);
      ChecksHold(db, pcs[1..]);
      assert pcs == [pcs[0]] + pcs[1..];
    }
  }

  /** The states a batch goes through. */
  function States(db: Db, ops: seq<Op>): seq<Db>
    requires ApplyOps(db, ops).Ok?
    decreases |ops|
  {
    if ops == [] then [db] else [db] + States(ApplyOp(db, ops[0]).value, ops[1..])
  }

  /** The rows an operation adds to the log, one by one: after those that were
      there the standard one, naming what was done and to what, and then one for
      each of the caller's payloads in their order. */
  ghost predicate OpLogged(op: Op, before: Db, after: Db)
  {
    var n := |before.log|;
    && before.log <= after.log
    && match op.body
       case Write(w) =>
         var id := Target(w);
         && id in after.entities && |after.log| == n + 1 + |w.events|
         && after.log[n].Standard? && after.log[n].id == id
         && after.log[n].tags == after.entities[id].tags && after.log[n].entityType == w.entityType
         && (w.action.Create? ==> after.log[n].kind.Created?)
         && (w.action.Update? ==> after.log[n].kind == Updated(w.version))
         && (w.action.Merge? ==> after.log[n].kind == Merged(w.version))
         && (forall m :: 0 <= m < |w.events| ==>
               after.log[n + 1 + m] == Custom(w.events[m], Some(id), after.entities[id].tags, w.entityType))
       case Relate(r) =>
         && r.source.Parsed? && r.target.Parsed? && |after.log| == n + 1 + |r.events|
         && after.log[n] == Linked(RelationCreated, r.source.id, r.target.id, r.relationType)
         && (forall m :: 0 <= m < |r.events| ==> after.log[n + 1 + m] == Custom(r.events[m], None, {}, ""))
       case Empty => false
  }

  lemma OpLogs(db: Db, op: Op)
    requires ApplyOp(db, op).Ok?
    ensures var d := ApplyOp(db, op).value;
            OpLogged(op, db, d) && forall pc :: pc in op.pcs ==> Holds(db, pc)
  {
    ChecksHold(db, op.pcs);
    if op.body.Write? { WriteEffect(db, op.body.w); }
  }

  /** A batch that commits had each operation's preconditions true in the
      state its predecessors left, and logged one standard event and then the
      caller's events for each operation, in order. */
  lemma {:induction false} BatchTrace(db: Db, ops: seq<Op>)
    requires ApplyOps(db, ops).Ok?
    ensures var ss := States(db, ops);
            && |ss| == |ops| + 1 && ss[0] == db && ss[|ops|] == ApplyOps(db, ops).value
            && forall n :: 0 <= n < |ops| ==>
                 && (forall pc :: pc in ops[n].pcs ==> Holds(ss[n], pc))
                 && OpLogged(ops[n], ss[n], ss[n + 1])
    decreases |ops|
  {
    if ops != [] {
      var d := ApplyOp(db, ops[0]).value;
      OpLogs(db, ops[0]);
      BatchTrace(d, ops[1..]);
      var ss, rest := States(db, ops), States(d, ops[1..]);
      forall n | 0 <= n < |ops|
        ensures forall pc :: pc in ops[n].pcs ==> Holds(ss[n], pc)
        ensures OpLogged(ops[n], ss[n], ss[n + 1])
      {
        assert ss[n + 1] == rest[n];
        if n > 0 {
          assert ops[n] == ops[1..][n - 1] && ss[n] == rest[n - 1];
        }
      }
    }
  }

  /** The row a write leaves behind.  An update replaces the data; a merge
      overlays it, field by field; tags only accumulate; the type is fixed at
      creation; no other entity changes. */
  lemma WriteRow(db: Db, w: WriteOp)
    requires ApplyBody(db, Write(w)).Ok?
    ensures w.data.Some? && Target(w) in ApplyBody(db, Write(w)).value.entities
    ensures var d, id := ApplyBody(db, Write(w)).value, Target(w);
            var e, new' := d.entities[id], w.data.value;
            && e.confidence == w.confidence && e.displayName == w.displayName
            && (forall k :: k in new' ==> k in e.data && e.data[k] == new'[k])
            && (forall t :: t in w.tags ==> t in e.tags)
            && (forall x :: x != id ==> (x in d.entities <==> x in db.entities))
            && (forall x :: x != id && x in db.entities ==> d.entities[x] == db.entities[x])
            && (w.action.Create? || w.action.Update? ==> e.data.Keys == new'.Keys)
            && (w.action.Create? ==>
                  && e.entityType == w.entityType && e.createdAt == db.now
                  && forall t :: t in e.tags ==> t in w.tags)
            && (!w.action.Create? ==>
                  && id in db.entities && e.entityType == db.entities[id].entityType
                  && e.createdAt == db.entities[id].createdAt
                  && forall t :: t in e.tags <==> t in db.entities[id].tags || t in w.tags)
            && (w.action.Merge? ==>
                  && e.data.Keys == new'.Keys + db.entities[id].data.Keys
                  && forall k :: k in db.entities[id].data && k !in new' ==> e.data[k] == db.entities[id].data[k])
  {
    WriteEffect(db, w);
    var d, id := ApplyBody(db, Write(w)).value, Target(w);
    if w.action.Create? {
      var e := Entity(w.entityType, w.data.value, w.confidence, ToSet(w.tags), w.displayName, 0, db.now, None);
      ClaimAllEffect(db.(entities := db.entities[id := e]), id, w.entityType, w.anchors);
    } else {
      var was := db.entities[id];
      var data := if w.action.Update? then w.data.value else was.data + w.data.value;
      var e := was.(data := data, confidence := w.confidence, displayName := w.displayName,
                    version := was.version + 1, tags := was.tags + ToSet(w.tags));
      ClaimAllEffect(db.(entities := db.entities[id := e]), id, w.entityType, w.anchors);
    }
  }

  // -------------------------------------------------------------------------
  // Relations
  // -------------------------------------------------------------------------

  predicate SameLink(r: Relation, q: Relation)
  {
    r.source == q.source && r.target == q.target && r.relationType == q.relationType
  }

  /** Relations join entities that have a row, and those without a URN are
      unique for their source, target and type. */
  ghost predicate Joined(db: Db)
  {
    && (forall r :: r in db.relations ==> r.source in db.entities && r.target in db.entities)
    && UniqueLinks(db.relations)
  }

  ghost predicate UniqueLinks(rs: seq<Relation>)
  {
    forall i, j :: 0 <= i < j < |rs| && rs[i].urn == "" && rs[j].urn == "" ==> !SameLink(rs[i], rs[j])
  }

  lemma {:induction false} UpsertMembers(rs: seq<Relation>, r: Relation)
    ensures r in Upsert(rs, r)
    ensures forall q :: q in Upsert(rs, r) ==> q == r || q in rs
    ensures forall q :: q in rs && !Clash(r, q) ==> q in Upsert(rs, r)
  {
    if rs != [] {
      assert rs == [rs[0]] + rs[1..];
      UpsertMembers(rs[1..], r);
    }
  }

  predicate Clash(r: Relation, q: Relation)
  {
    r.urn == "" && q.urn == "" && SameLink(r, q)
  }

  lemma UniqueTail(rs: seq<Relation>)
    requires UniqueLinks(rs) && rs != []
    ensures UniqueLinks(rs[1..]) && forall q :: q in rs[1..] ==> !Clash(rs[0], q)
  {
  }

  lemma UniqueCons(h: Relation, rest: seq<Relation>)
    requires UniqueLinks(rest) && forall q :: q in rest ==> !Clash(h, q)
    ensures UniqueLinks([h] + rest)
  {
    var rs := [h] + rest;
    forall i, j | 0 <= i < j < |rs| && rs[i].urn == "" && rs[j].urn == "" ensures !SameLink(rs[i], rs[j]) {
      assert rs[j] == rest[j - 1] && rest[j - 1] in rest;
      if i > 0 { assert rs[i] == rest[i - 1]; }
    }
  }

  lemma {:induction false} UpsertUnique(rs: seq<Relation>, r: Relation)
    requires UniqueLinks(rs)
    ensures UniqueLinks(Upsert(rs, r))
  {
    if rs != [] {
      UniqueTail(rs);
      if r.urn == "" && rs[0] == r.(confidence := rs[0].confidence) {
        UniqueCons(r, rs[1..]);
      } else {
        UpsertUnique(rs[1..], r);
        UpsertMembers(rs[1..], r);
        UniqueCons(rs[0], Upsert(rs[1..], r));
      }
    }
  }

  lemma {:induction false} UnlinkedEffect(rs: seq<Relation>, id: Id)
    ensures forall q :: q in Unlinked(rs, id) <==> q in rs && q.source != id && q.target != id
    ensures UniqueLinks(rs) ==> UniqueLinks(Unlinked(rs, id))
  {
    if rs != [] {
      var rest := Unlinked(rs[1..], id);
      UnlinkedEffect(rs[1..], id);
      assert rs == [rs[0]] + rs[1..];
      assert Unlinked(rs, id) == rest || Unlinked(rs, id) == [rs[0]] + rest;
      if UniqueLinks(rs) {
        UniqueTail(rs);
        UniqueCons(rs[0], rest);
      }
    }
  }

  lemma {:induction false} PrunedEffect(rs: seq<Relation>, source: Id, target: Id, relationType: string)
    ensures forall q :: q in Pruned(rs, source, target, relationType) <==>
                        q in rs && !(q.source == source && q.target == target && q.relationType == relationType)
    ensures UniqueLinks(rs) ==> UniqueLinks(Pruned(rs, source, target, relationType))
  {
    if rs != [] {
      var rest := Pruned(rs[1..], source, target, relationType);
      PrunedEffect(rs[1..], source, target, relationType);
      assert rs == [rs[0]] + rs[1..];
      var kept := Pruned(rs, source, target, relationType);
      assert kept == rest || kept == [rs[0]] + rest;
      if UniqueLinks(rs) {
        UniqueTail(rs);
        UniqueCons(rs[0], rest);
      }
    }
  }

  lemma OpJoined(db: Db, op: Op)
    requires Joined(db) && ApplyOp(db, op).Ok?
    ensures Joined(ApplyOp(db, op).value)
  {
    if op.body.Write? {
      WriteEffect(db, op.body.w);
    } else {
      var r := op.body.r;
      var row := Relation(r.source.id, r.target.id, r.relationType, r.confidence, r.urn);
      UpsertUnique(db.relations, row);
      UpsertMembers(db.relations, row);
    }
  }

  lemma {:induction false} OpsJoined(db: Db, ops: seq<Op>)
    requires Joined(db) && ApplyOps(db, ops).Ok?
    ensures Joined(ApplyOps(db, ops).value)
    decreases |ops|
  {
    if ops != [] {
      OpJoined(db, ops[0]);
      OpsJoined(ApplyOp(db, ops[0]).value, ops[1..]);
    }
  }

  lemma PerformJoined(db: Db, t: Step)
    requires Joined(db)
    ensures Joined(Perform(db, t))
  {
    match t
    case DoBatch(ops) => if Batch(db, ops).Ok? { OpsJoined(db, ops); }
    case DoHardDelete(id) => UnlinkedEffect(db.relations, id);
    case DoUnrelate(s, u, r) => PrunedEffect(db.relations, s, u, r);
    case _ =>
  }

  /** After any run, no relation dangles and none is doubled. */
  lemma {:induction false} RunJoined(db: Db, steps: seq<Step>)
    requires Joined(db)
    ensures Joined(Run(db, steps))
    decreases |steps|
  {
    if steps != [] {
      PerformJoined(db, steps[0]);
      RunJoined(Perform(db, steps[0]), steps[1..]);
    }
  }

  /** The empty store satisfies every invariant the runs keep. */
  lemma EmptyIsSound()
    ensures Recorded(EMPTY) && Indexed(EMPTY) && KeyTypes(EMPTY) && Joined(EMPTY)
  {
  }

  /** In every run from the empty store, of the writes that named one version
      of one incarnation at most one committed, and a version counts the
      changes since creation. */
  lemma VersionsFromEmpty(steps: seq<Step>, id: Id) returns (c: int)
    ensures var d := Run(EMPTY, steps);
            && (id in d.entities ==> IsBirth(d.log, id, c) && d.entities[id].version == |ChangesSince(d.log, id, c)|)
            && forall i, j :: 0 <= i < j < |d.log| && SameVersion(d.log[i], d.log[j], id) ==>
                              HardDeletedBetween(d.log, id, i, j)
  {
    EmptyIsSound();
    RunRecorded(EMPTY, steps);
    var d := Run(EMPTY, steps);
    c := 0;
    if id in d.entities { c := VersionIsCount(EMPTY, steps, id); }
    forall i, j | 0 <= i < j < |d.log| && SameVersion(d.log[i], d.log[j], id)
      ensures HardDeletedBetween(d.log, id, i, j)
    {
      OneCommitPerVersion(d.log, id, i, j);
    }
  }

  /** In every run from the empty store, an anchor lookup finds exactly the
      live latest claimants, and no relation dangles or is doubled. */
  lemma LookupsFromEmpty(steps: seq<Step>, entityType: string, anchors: seq<AnchorQuery>, id: Id)
    ensures var d := Run(EMPTY, steps);
            id in Found(d, entityType, anchors) <==>
            Live(d, id) && exists q :: q in anchors && Owner(d.claims, Key(entityType, q), id)
    ensures Joined(Run(EMPTY, steps))
  {
    EmptyIsSound();
    FoundAreLatestClaimants(EMPTY, steps, entityType, anchors, id);
    RunJoined(EMPTY, steps);
  }

  /** The event of a hard delete names the entity's type and tags exactly if
      the entity was live: a soft-deleted one is logged without either. */
  lemma HardDeleteEvent(db: Db, id: Id)
    requires id in db.entities && db.entities[id].entityType != ""
    ensures |HardDelete(db, id).log| == |db.log| + 1
    ensures var e, was := HardDelete(db, id).log[|db.log|], db.entities[id];
            && e.Standard? && e.kind.HardDeleted? && e.id == id
            && (e.entityType == was.entityType <==> Live(db, id))
            && e.tags == if Live(db, id) then was.tags else {}
  {
  }

  /** A tag edit decides each tag as asked, and touches nothing else: no other
      column, no other entity and not the log. */
  lemma TagEdits(db: Db, id: Id, edit: TagEdit, t: string)
    requires EditTags(db, id, edit).Ok? && id in db.entities
    ensures var d := EditTags(db, id, edit).value;
            && SameButTags(d, db, id) && d == db.(entities := d.entities)
            && (forall x :: x != id ==> (x in d.entities <==> x in db.entities))
            && (forall x :: x != id && x in db.entities ==> d.entities[x] == db.entities[x])
            && (t in d.entities[id].tags <==>
                  match edit
                  case SetTags(new') => t in new'
                  case AddTags(more) => t in db.entities[id].tags || t in more
                  case RemoveTag(gone) => t in db.entities[id].tags && t != gone)
  {
  }
}
