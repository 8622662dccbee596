/** When the transactions of store/store_write.go commit, and what each leaves
    in the tables, column by column. */
module Effects {
  import opened Basics
  import opened EntityStore

  // -------------------------------------------------------------------------
  // Writes
  // -------------------------------------------------------------------------

  /** A create needs data, a type, no malformed id and an id not in use; an
      update or merge needs data, a type, and a live entity at the version named. */
  predicate WriteCommits(db: Db, w: WriteOp)
  {
    && w.data.Some? && |w.entityType| > 0 && !w.action.Unknown?
    && (w.action.Create? ==>
          !w.id.Malformed? && (if w.id.Parsed? then w.id.id else w.generated) !in db.entities)
    && (w.action.Update? || w.action.Merge? ==>
          && w.matched.Parsed? && w.matched.id in db.entities
          && db.entities[w.matched.id].deletedAt == None && db.entities[w.matched.id].version == w.version)
  }

  lemma WriteCommitsIff(db: Db, w: WriteOp)
    ensures ApplyBody(db, Write(w)).Ok? <==> WriteCommits(db, w)
  {
  }

  /** Otherwise the first of its faults is reported. */
  lemma WriteErrors(db: Db, w: WriteOp)
    requires !WriteCommits(db, w)
    ensures ApplyBody(db, Write(w)) ==
            if w.action.Unknown? then Err(UnknownAction)
            else if w.data == None || w.entityType == "" then Err(BadData)
            else if w.action.Create? then Err(if w.id.Malformed? then BadId else DuplicateId)
            else Err(if w.matched.Parsed? then VersionConflict else BadId)
  {
  }

  // -------------------------------------------------------------------------
  // Relations
  // -------------------------------------------------------------------------

  predicate RelateCommits(db: Db, r: RelateOp)
  {
    r.source.Parsed? && r.target.Parsed? && r.source.id in db.entities && r.target.id in db.entities
  }

  /** A relation commits if both its ends exist, deleted or not.  Then the table
      holds the row exactly as asked for, every other row but one it stands in
      for, and nothing else; no other table but the log changes. */
  lemma RelateEffect(db: Db, r: RelateOp)
    ensures ApplyBody(db, Relate(r)).Ok? <==> RelateCommits(db, r)
    ensures RelateCommits(db, r) ==>
            var d := ApplyBody(db, Relate(r)).value;
            && d == db.(relations := d.relations, log := d.log)
            && (exists q :: q in d.relations && q.source == r.source.id && q.target == r.target.id
                            && q.relationType == r.relationType && q.confidence == r.confidence && q.urn == r.urn)
            && (forall q :: q in db.relations && !StandsInFor(r, q) ==> q in d.relations)
            && (forall q :: q in d.relations && q !in db.relations ==>
                  && q.source == r.source.id && q.target == r.target.id && q.relationType == r.relationType
                  && q.confidence == r.confidence && q.urn == r.urn)
            && (UniqueLinks(db.relations) ==> UniqueLinks(d.relations))
  {
    if RelateCommits(db, r) {
      var row := Relation(r.source.id, r.target.id, r.relationType, r.confidence, r.urn);
      UpsertMembers(db.relations, row);
      if UniqueLinks(db.relations) { UpsertUnique(db.relations, row); }
      assert forall q :: Clash(row, q) <==> StandsInFor(r, q);
    }
  }

  /** Neither has a URN, and they relate the same two entities in the same way. */
  predicate StandsInFor(r: RelateOp, q: Relation)
  {
    && r.urn == "" && q.urn == "" && r.source == Parsed(q.source) && r.target == Parsed(q.target)
    && r.relationType == q.relationType
  }

  // -------------------------------------------------------------------------
  // Batches
  // -------------------------------------------------------------------------

  predicate BodyCommits(db: Db, b: Body)
  {
    match b
    case Write(w) => WriteCommits(db, w)
    case Relate(r) => RelateCommits(db, r)
    case Empty => false
  }

  /** Each op in turn has its preconditions true and commits. */
  ghost predicate AllCommit(db: Db, ops: seq<Op>)
    decreases |ops|
  {
    ops == [] ||
    (&& (forall pc :: pc in ops[0].pcs ==> Holds(db, pc)) && BodyCommits(db, ops[0].body)
     && ApplyOp(db, ops[0]).Ok? && AllCommit(ApplyOp(db, ops[0]).value, ops[1..]))
  }

  lemma OpCommitsIff(db: Db, op: Op)
    ensures ApplyOp(db, op).Ok? <==> (forall pc :: pc in op.pcs ==> Holds(db, pc)) && BodyCommits(db, op.body)
  {
    ChecksHold(db, op.pcs);
    match op.body
    case Write(w) => WriteCommitsIff(db, w);
    case Relate(r) => RelateEffect(db, r);
    case Empty =>
  }

  lemma {:induction false} OpsCommitIff(db: Db, ops: seq<Op>)
    ensures ApplyOps(db, ops).Ok? <==> AllCommit(db, ops)
    decreases |ops|
  {
    if ops != [] {
      OpCommitsIff(db, ops[0]);
      if ApplyOp(db, ops[0]).Ok? { OpsCommitIff(ApplyOp(db, ops[0]).value, ops[1..]); }
    }
  }

  /** At most a hundred tags, each of 1 to 255 characters; relation types of 1
      to 255 characters. */
  ghost predicate WellFormed(op: Op)
  {
    match op.body
    case Write(w) => |w.tags| <= 100 && forall n :: 0 <= n < |w.tags| ==> 1 <= |w.tags[n]| <= 255
    case Relate(r) => 1 <= |r.relationType| <= 255
    case Empty => true
  }

  lemma {:induction false} ValidIff(ops: seq<Op>)
    ensures InvalidOps(ops).None? <==> forall n :: 0 <= n < |ops| ==> WellFormed(ops[n])
  {
    if ops != [] {
      ValidIff(ops[1..]);
      assert Invalid(ops[0]).None? <==> WellFormed(ops[0]);
      assert forall n :: 0 < n < |ops| ==> ops[n] == ops[1..][n - 1];
      if forall n :: 0 <= n < |ops| ==> WellFormed(ops[n]) {
        assert forall n :: 0 <= n < |ops[1..]| ==> ops[1..][n] == ops[n + 1];
      }
    }
  }

  /** A batch commits exactly if it has at most a thousand ops, all well formed,
      and each commits in the state the ones before it leave. */
  lemma BatchCommitsIff(db: Db, ops: seq<Op>)
    ensures Batch(db, ops).Ok? <==>
            |ops| <= 1000 && (forall n :: 0 <= n < |ops| ==> WellFormed(ops[n])) && AllCommit(db, ops)
    ensures |ops| > 1000 ==> Batch(db, ops) == Err(TooManyOps)
  {
    ValidIff(ops);
    OpsCommitIff(db, ops);
  }

  /** What a failed precondition is reported as: the first of these that applies. */
  lemma CheckErrors(db: Db, pc: PreCondition)
    requires !Holds(db, pc)
    ensures var found := Found(db, pc.entityType, pc.anchors);
            Check(db, pc) == Some(
              if pc.mustExist && pc.mustNotExist then Contradictory
              else if pc.mustExist && |found| == 0 then MissingMatch
              else if pc.mustNotExist && |found| > 0 then AlreadyExists
              else if |pc.tagRequired| > 0 && !exists id :: id in found && pc.tagRequired in db.entities[id].tags
              then TagMissing
              else TagPresent)
  {
    var found := Found(db, pc.entityType, pc.anchors);
    assert |found| == 0 <==> found == {};
  }

  // -------------------------------------------------------------------------
  // Deletes and tags
  // -------------------------------------------------------------------------

  /** A soft delete is for a live entity.  It stamps the row with the clock and
      logs one event with the row's tags and type; nothing else changes. */
  lemma SoftDeleteEffect(db: Db, id: Id)
    ensures SoftDelete(db, id).Ok? <==> Live(db, id)
    ensures !Live(db, id) ==> SoftDelete(db, id) == Err(NotFound)
    ensures Live(db, id) ==>
            var d := SoftDelete(db, id).value;
            && SoftDeleted(d, id) && d.entities[id].deletedAt == Some(db.now)
            && d.entities[id].(deletedAt := None) == db.entities[id]
            && d.entities.Keys == db.entities.Keys
            && (forall x :: x in db.entities && x != id ==> d.entities[x] == db.entities[x])
            && d == db.(entities := d.entities, log := d.log)
            && |d.log| == |db.log| + 1 && db.log <= d.log
            && d.log[|db.log|] == Standard(Deleted, id, db.entities[id].tags, db.entities[id].entityType)
  {
  }

  /** After a soft delete that succeeded and until a hard delete, whatever else
      runs, the row stays but for its tags, and no anchor lookup finds it. */
  lemma DeletedIsHidden(db: Db, id: Id, steps: seq<Step>)
    requires Outcome(db, DoDelete(id)).Ok? && DoHardDelete(id) !in steps
    ensures var d := Run(db, [DoDelete(id)] + steps);
            && SoftDeleted(d, id) && d.entities[id].deletedAt == Some(db.now)
            && d.entities[id].data == db.entities[id].data && d.entities[id].version == db.entities[id].version
            && forall t, anchors :: id !in Found(d, t, anchors)
  {
    SoftDeleteEffect(db, id);
    var d := Perform(db, DoDelete(id));
    assert ([DoDelete(id)] + steps)[1..] == steps;
    DeletedStaysFrozen(d, steps, id);
  }

  /** A hard delete takes the row, its anchors and its relations, and leaves
      every other row, anchor and relation as it was. */
  lemma HardDeleteEffect(db: Db, id: Id)
    ensures var d := HardDelete(db, id);
            && id !in d.entities
            && (forall x :: x != id ==> (x in d.entities <==> x in db.entities))
            && (forall x :: x in d.entities ==> d.entities[x] == db.entities[x])
            && (forall k :: k in d.anchors <==> k in db.anchors && db.anchors[k] != id)
            && (forall k :: k in d.anchors ==> d.anchors[k] == db.anchors[k])
            && (forall q :: q in d.relations <==> q in db.relations && q.source != id && q.target != id)
            && |d.log| == |db.log| + 1 && db.log <= d.log && d.now == db.now
  {
    UnlinkedEffect(db.relations, id);
  }

  /** Tags can be removed always, and set or added if well formed; an id without
      a row is no error. */
  lemma TagEditsIff(db: Db, id: Id, edit: TagEdit)
    ensures EditTags(db, id, edit).Ok? <==>
            edit.RemoveTag? || (|edit.tags| <= 100 && forall n :: 0 <= n < |edit.tags| ==> 1 <= |edit.tags[n]| <= 255)
    ensures EditTags(db, id, edit).Ok? && id !in db.entities ==> EditTags(db, id, edit).value == db
  {
    if !edit.RemoveTag? {
      assert forall n :: 0 <= n < |edit.tags| ==> edit.tags[n] in edit.tags;
    }
  }
}
