/** Relations of store/store_write.go over whole runs: which ones are in the
    table is what the event log says. */
module Links {
  import opened Basics
  import opened EntityStore
  import opened Effects

  /** Some row relates the two in this way. */
  ghost predicate HasLink(db: Db, source: Id, target: Id, relationType: string)
  {
    exists q :: q in db.relations && q.source == source && q.target == target && q.relationType == relationType
  }

  /** The event ends the link: its deletion, or the hard delete of an end. */
  predicate Ends(e: Event, source: Id, target: Id, relationType: string)
  {
    || e == Linked(RelationDeleted, source, target, relationType)
    || (e.Standard? && e.kind.HardDeleted? && (e.id == source || e.id == target))
  }

  /** Event `n` made the link and none after it ended it. */
  ghost predicate MadeAt(log: seq<Event>, n: int, source: Id, target: Id, relationType: string)
  {
    && 0 <= n < |log| && log[n] == Linked(RelationCreated, source, target, relationType)
    && forall m :: n < m < |log| ==> !Ends(log[m], source, target, relationType)
  }

  ghost predicate Stands(log: seq<Event>, source: Id, target: Id, relationType: string)
  {
    exists n :: MadeAt(log, n, source, target, relationType)
  }

  lemma MadeAtAppend(log: seq<Event>, e: Event, n: int, a: Id, b: Id, t: string)
    requires n < |log|
    ensures MadeAt(log + [e], n, a, b, t) <==> MadeAt(log, n, a, b, t) && !Ends(e, a, b, t)
  {
    var more := log + [e];
    assert forall m :: 0 <= m < |log| ==> more[m] == log[m];
    assert more[|log|] == e;
  }

  lemma StandsAppend(log: seq<Event>, e: Event, a: Id, b: Id, t: string)
    ensures Stands(log + [e], a, b, t) <==>
            e == Linked(RelationCreated, a, b, t) || (Stands(log, a, b, t) && !Ends(e, a, b, t))
  {
    var more := log + [e];
    assert MadeAt(more, |log|, a, b, t) <==> e == Linked(RelationCreated, a, b, t);
    if n :| MadeAt(log, n, a, b, t) { MadeAtAppend(log, e, n, a, b, t); }
    if n :| MadeAt(more, n, a, b, t) && n < |log| { MadeAtAppend(log, e, n, a, b, t); }
  }

  /** Events that neither make nor end links. */
  predicate Neutral(e: Event)
  {
    e.Custom? || (e.Standard? && !e.kind.HardDeleted?)
  }

  lemma {:induction false} StandsNeutral(log: seq<Event>, es: seq<Event>, a: Id, b: Id, t: string)
    requires forall e :: e in es ==> Neutral(e)
    ensures Stands(log + es, a, b, t) <==> Stands(log, a, b, t)
    decreases |es|
  {
    if es == [] {
      assert log + es == log;
    } else {
      assert Neutral(es[0]);
      StandsAppend(log, es[0], a, b, t);
      StandsNeutral(log + [es[0]], es[1..], a, b, t);
      assert log + es == log + [es[0]] + es[1..];
    }
  }

  /** The table has exactly the links that stand in the log. */
  ghost predicate LinksLogged(db: Db)
  {
    forall a, b, t :: HasLink(db, a, b, t) <==> Stands(db.log, a, b, t)
  }

  lemma NeutralKeeps(db: Db, d: Db, es: seq<Event>)
    requires LinksLogged(db) && d.relations == db.relations && d.log == db.log + es
    requires forall e :: e in es ==> Neutral(e)
    ensures LinksLogged(d)
  {
    forall a, b, t ensures HasLink(d, a, b, t) <==> Stands(d.log, a, b, t) {
      StandsNeutral(db.log, es, a, b, t);
      assert HasLink(d, a, b, t) <==> HasLink(db, a, b, t);
    }
  }

  lemma WriteKeeps(db: Db, w: WriteOp)
    requires LinksLogged(db) && ApplyBody(db, Write(w)).Ok?
    ensures LinksLogged(ApplyBody(db, Write(w)).value)
  {
    var d := ApplyBody(db, Write(w)).value;
    WriteEffect(db, w);
    var e := d.entities[Target(w)];
    var es := [Standard(KindOf(w), Target(w), e.tags, w.entityType)]
              + Customs(w.events, Some(Target(w)), e.tags, w.entityType);
    assert d.log == db.log + es;
    NeutralKeeps(db, d, es);
  }

  /** One more link, and the others as before. */
  lemma RelateLinks(db: Db, r: RelateOp, a: Id, b: Id, t: string)
    requires RelateCommits(db, r)
    ensures var d := ApplyRelate(db, r).value;
            HasLink(d, a, b, t) <==>
            HasLink(db, a, b, t) || (a == r.source.id && b == r.target.id && t == r.relationType)
  {
    RelateEffect(db, r);
    var d := ApplyRelate(db, r).value;
    assert ApplyBody(db, Relate(r)) == ApplyRelate(db, r);
    if q :| q in db.relations && q.source == a && q.target == b && q.relationType == t {
      if q !in d.relations { assert StandsInFor(r, q); }
    }
  }

  lemma RelateKeeps(db: Db, r: RelateOp)
    requires LinksLogged(db) && RelateCommits(db, r)
    ensures LinksLogged(ApplyRelate(db, r).value)
  {
    var d := ApplyRelate(db, r).value;
    var made := Linked(RelationCreated, r.source.id, r.target.id, r.relationType);
    var rest := Customs(r.events, None, {}, "");
    assert d.log == db.log + [made] + rest;
    forall a, b, t ensures HasLink(d, a, b, t) <==> Stands(d.log, a, b, t) {
      RelateLinks(db, r, a, b, t);
      StandsAppend(db.log, made, a, b, t);
      StandsNeutral(db.log + [made], rest, a, b, t);
    }
  }

  lemma {:induction false} OpsKeep(db: Db, ops: seq<Op>)
    requires LinksLogged(db) && ApplyOps(db, ops).Ok?
    ensures LinksLogged(ApplyOps(db, ops).value)
    decreases |ops|
  {
    if ops != [] {
      if ops[0].body.Write? {
        WriteKeeps(db, ops[0].body.w);
      } else {
        OpCommitsIff(db, ops[0]);
        RelateKeeps(db, ops[0].body.r);
      }
      OpsKeep(ApplyOp(db, ops[0]).value, ops[1..]);
    }
  }

  lemma HardDeleteKeeps(db: Db, id: Id)
    requires LinksLogged(db)
    ensures LinksLogged(HardDelete(db, id))
  {
    var d := HardDelete(db, id);
    HardDeleteEffect(db, id);
    HardDeleteLast(db, id);
    var e := d.log[|db.log|];
    assert d.log == db.log + [e];
    forall a, b, t ensures HasLink(d, a, b, t) <==> Stands(d.log, a, b, t) {
      StandsAppend(db.log, e, a, b, t);
      if q :| q in db.relations && q.source == a && q.target == b && q.relationType == t && a != id && b != id {
        assert q in d.relations;
      }
    }
  }

  lemma HardDeleteLast(db: Db, id: Id)
    ensures var e := HardDelete(db, id).log[|db.log|];
            e.Standard? && e.kind.HardDeleted? && e.id == id
  {
  }

  lemma UnrelateKeeps(db: Db, source: Id, target: Id, relationType: string)
    requires LinksLogged(db) && Unrelate(db, source, target, relationType).Ok?
    ensures LinksLogged(Unrelate(db, source, target, relationType).value)
  {
    var d := Unrelate(db, source, target, relationType).value;
    PrunedEffect(db.relations, source, target, relationType);
    forall a, b, t ensures HasLink(d, a, b, t) <==> Stands(d.log, a, b, t) {
      StandsAppend(db.log, Linked(RelationDeleted, source, target, relationType), a, b, t);
      if q :| q in db.relations && q.source == a && q.target == b && q.relationType == t
              && !(a == source && b == target && t == relationType) {
        assert q in d.relations;
      }
    }
  }

  lemma PerformKeeps(db: Db, t: Step)
    requires LinksLogged(db)
    ensures LinksLogged(Perform(db, t))
  {
    var d := Perform(db, t);
    match t
    case DoBatch(ops) => if Batch(db, ops).Ok? { OpsKeep(db, ops); }
    case DoDelete(id) =>
      SoftDeleteEffect(db, id);
      if Live(db, id) { NeutralKeeps(db, d, [d.log[|db.log|]]); }
    case DoHardDelete(id) => HardDeleteKeeps(db, id);
    case DoUnrelate(a, b, r) => if Unrelate(db, a, b, r).Ok? { UnrelateKeeps(db, a, b, r); }
    case _ => NeutralKeeps(db, d, []);
  }

  lemma {:induction false} RunKeeps(db: Db, steps: seq<Step>)
    requires LinksLogged(db)
    ensures LinksLogged(Run(db, steps))
    decreases |steps|
  {
    if steps != [] {
      PerformKeeps(db, steps[0]);
      RunKeeps(Perform(db, steps[0]), steps[1..]);
    }
  }

  /** In every run from the empty store a relation of two entities is in the
      table if and only if the log has its creation, and after that neither its
      deletion nor the hard delete of either end. */
  lemma LinkIff(steps: seq<Step>, source: Id, target: Id, relationType: string)
    ensures HasLink(Run(EMPTY, steps), source, target, relationType) <==>
            Stands(Run(EMPTY, steps).log, source, target, relationType)
  {
    RunKeeps(EMPTY, steps);
  }
}
