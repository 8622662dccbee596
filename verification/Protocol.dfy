/** The named event consumer of store/consumer.go as a protocol: any number of
    instances share one consumer row, the event log and the dead-letter table.

    One instance action is one database call, or the handler call.  Between
    any two actions every other instance may move, time may pass and events
    may arrive; an instance that never moves again has crashed or is paused. */
module Protocol {
  import opened Basics
  import opened EventLog
  import opened ConsumerDb

  /** A configuration after its defaults are filled in. */
  datatype Config = Config(batchSize: nat, ttl: nat, maxRetries: int)

  /** Where an instance stands in its poll.  `c` is the cursor it read and `b`
      the batch it fetched after it. */
  datatype Phase =
    | Idle
    | Stopped
    | Acquiring                       // the renewal found another holder
    | Locked
    | HasCursor(c: Key)
    | HasBatch(c: Key, b: seq<Key>)
    | Handled(c: Key, b: seq<Key>)    // the handler accepted the batch
    | Succeeded
    | Failed
    | DeadLettering
    | DeadCursor(c: Key)
    | DeadBatch(c: Key, b: seq<Key>)
    | DeadDone

  datatype Instance = Instance(cfg: Config, phase: Phase, failures: nat, lockedAt: int)

  /** How a write comes back: reported, failed without effect, or applied
      with the reply lost. */
  datatype Reply = Reported | Refused | Lost

  datatype Act =
    | DoRenew(r: Reply)
    | DoAcquire(r: Reply)
    | ReadCursor(ok: bool)
    | FetchBatch(ok: bool)
    | Handle(ok: bool)
    | DoAdvance(r: Reply)
    | Finish(saved: bool)
    | Fail(saved: bool, backoff: Option<int>)
    | DeadRead(ok: bool)
    | DeadFetch(ok: bool)
    | DeadCommit(r: Reply)
    | DeadFinish(saved: bool)
    | DoRelease(r: Reply)
    | Crash
    | Start

  predicate CanAct(x: Instance, a: Act)
  {
    match a
    case DoRenew(_) => x.phase.Idle?
    case DoAcquire(_) => x.phase.Acquiring?
    case ReadCursor(_) => x.phase.Locked?
    case FetchBatch(_) => x.phase.HasCursor?
    case Handle(_) => x.phase.HasBatch?
    case DoAdvance(_) => x.phase.Handled?
    case Finish(_) => x.phase.Succeeded?
    case Fail(_, _) => x.phase.Failed?
    case DeadRead(_) => x.phase.DeadLettering?
    case DeadFetch(_) => x.phase.DeadCursor?
    case DeadCommit(_) => x.phase.DeadBatch?
    case DeadFinish(_) => x.phase.DeadDone?
    case DoRelease(_) => x.phase.Idle?
    case Crash => true
    case Start => x.phase.Stopped?
  }

  /** The in-flight batch of a phase, if it has one. */
  predicate InFlight(p: Phase)
  {
    (p.HasBatch? || p.Handled? || p.DeadBatch?) && p.b != []
  }

  /** The tables after an action of instance `i`. */
  function ActDb(db: Db, i: Holder, x: Instance, a: Act): Db
    requires CanAct(x, a)
  {
    match a
    case DoRenew(r) => if r.Refused? then db else Renew(db, i, x.cfg.ttl)
    case DoAcquire(r) => if r.Refused? then db else Acquire(db, i, x.cfg.ttl)
    case DoAdvance(r) => if r.Refused? || !InFlight(x.phase) then db else Advance(db, i, Last(x.phase.b))
    case Finish(saved) => if saved && x.failures > 0 then SaveFailures(db, i, 0, None) else db
    case Fail(saved, backoff) =>
      if saved && !GivesUp(x) then SaveFailures(db, i, x.failures + 1, backoff) else db
    case DeadCommit(r) =>
      if r.Refused? || !InFlight(x.phase) then db
      else Advance(InsertLetters(db, x.phase.b, x.failures), i, Last(x.phase.b))
    case DeadFinish(saved) => if saved then SaveFailures(db, i, 0, None) else db
    case DoRelease(r) => if r.Refused? then db else Release(db, i)
    case _ => db
  }

  /** One more failure reaches the retry limit. */
  predicate GivesUp(x: Instance)
  {
    x.cfg.maxRetries > 0 && x.failures + 1 >= x.cfg.maxRetries
  }

  function Rows(db: Db, x: Instance, c: Key): seq<Key>
  {
    Fetch(db.log, c, x.cfg.batchSize)
  }

  function ActPhase(db: Db, i: Holder, x: Instance, a: Act): Phase
    requires CanAct(x, a)
  {
    match a
    case DoRenew(r) => if !r.Reported? then Idle else if Holds(db, i) then Locked else Acquiring
    case DoAcquire(r) => if !r.Reported? then Idle else if LockIsFree(db) then Locked else Idle
    case ReadCursor(ok) => if ok && db.row.Some? then HasCursor(db.row.value.cursor) else Failed
    case FetchBatch(ok) =>
      var b := Rows(db, x, x.phase.c);
      if !ok then Failed else if b == [] then Succeeded else HasBatch(x.phase.c, b)
    case Handle(ok) => if ok then Handled(x.phase.c, x.phase.b) else Failed
    case DoAdvance(r) => if r.Reported? then Succeeded else Failed
    case Finish(_) => Idle
    case Fail(_, _) => if GivesUp(x) then DeadLettering else Idle
    case DeadRead(ok) => if ok && db.row.Some? then DeadCursor(db.row.value.cursor) else DeadDone
    case DeadFetch(ok) =>
      var b := Rows(db, x, x.phase.c);
      if !ok || b == [] then DeadDone else DeadBatch(x.phase.c, b)
    case DeadCommit(_) => DeadDone
    case DeadFinish(_) => Idle
    case DoRelease(_) => Stopped
    case Crash => Stopped
    case Start => Idle
  }

  function ActInstance(db: Db, i: Holder, x: Instance, a: Act): Instance
    requires CanAct(x, a)
  {
    var phase := ActPhase(db, i, x, a);
    var failures :=
      match a
      case Fail(_, _) => x.failures + 1
      case Finish(_) => 0
      case DeadFinish(_) => 0
      case Start => 0
      case _ => x.failures;
    x.(phase := phase, failures := failures, lockedAt := if phase.Locked? then db.now else x.lockedAt)
  }

  /** The whole system, with its history: events the handler accepted, and
      rejected, in a batch, dead letters a replay has listed, events accepted
      on replay, and events whose dead letters were purged. */
  datatype Sys = Sys(db: Db, insts: map<Holder, Instance>, accepted: set<Key>, rejected: set<Key>,
                     listed: set<Letter>, replayed: set<Key>, purged: set<Key>)

  datatype Step =
    | Instance(i: Holder, a: Act)
    | Tick(dt: nat)
    | Append(k: Key)
    | ListLetters
    | ReplayAccept(l: Letter)
    | ReplayDelete(l: Letter)
    | Purge(before: int)

  ghost predicate Enabled(s: Sys, t: Step)
  {
    match t
    case Instance(i, a) => i in s.insts && CanAct(s.insts[i], a)
    case Tick(_) => true
    case Append(k) => k !in s.db.log
    case ListLetters => true
    case ReplayAccept(l) => l in s.listed
    case ReplayDelete(l) => l in s.listed && l.event in s.replayed
    case Purge(_) => true
  }

  function NewlyAccepted(x: Instance, a: Act): set<Key>
    requires CanAct(x, a)
  {
    match a
    case Handle(ok) => if ok then set k | k in x.phase.b else {}
    case _ => {}
  }

  function NewlyRejected(x: Instance, a: Act): set<Key>
    requires CanAct(x, a)
  {
    match a
    case Handle(ok) => if ok then {} else set k | k in x.phase.b
    case _ => {}
  }

  ghost function Apply(s: Sys, t: Step): Sys
    requires Enabled(s, t)
  {
    match t
    case Instance(i, a) =>
      var x := s.insts[i];
      s.(db := ActDb(s.db, i, x, a),
         insts := s.insts[i := ActInstance(s.db, i, x, a)],
         accepted := s.accepted + NewlyAccepted(x, a),
         rejected := s.rejected + NewlyRejected(x, a))
    case Tick(dt) => s.(db := s.db.(now := s.db.now + dt))
    case Append(k) => s.(db := s.db.(log := Insert(s.db.log, k)))
    case ListLetters => s.(listed := s.listed + set l | l in s.db.letters)
    case ReplayAccept(l) => s.(replayed := s.replayed + {l.event})
    case ReplayDelete(l) => s.(db := s.db.(letters := DeleteLetter(s.db.letters, l.id)))
    case Purge(before) =>
      s.(db := s.db.(letters := PurgeLetters(s.db.letters, before)),
         purged := s.purged + set l | l in s.db.letters && l.createdAt < before :: l.event)
  }

  /** A run is a sequence of steps, each enabled where it is taken. */
  ghost predicate IsRun(s: Sys, steps: seq<Step>)
    decreases |steps|
  {
    steps == [] || (Enabled(s, steps[0]) && IsRun(Apply(s, steps[0]), steps[1..]))
  }

  ghost function After(s: Sys, steps: seq<Step>): Sys
    requires IsRun(s, steps)
    decreases |steps|
  {
    if steps == [] then s else After(Apply(s, steps[0]), steps[1..])
  }

  /** Before anything has run: no row and every instance idle.  Events may be
      there already, all of them after the epoch. */
  ghost predicate Initial(s: Sys)
  {
    && s.db.row.None? && s.db.letters == []
    && Sorted(s.db.log) && (forall k :: k in s.db.log ==> Before(START, k))
    && s.accepted == {} && s.rejected == {} && s.listed == {} && s.replayed == {} && s.purged == {}
    && (forall i :: i in s.insts ==> s.insts[i].phase.Idle?)
  }

  // -------------------------------------------------------------------------
  // Fencing
  // -------------------------------------------------------------------------

  /** The instance is between its lock step and the end of its poll. */
  predicate MidPoll(p: Phase)
  {
    !(p.Idle? || p.Stopped? || p.Acquiring?)
  }

  /** The cursor an instance has read is current for as long as it is the
      holder; its batch, if any, comes after that cursor. */
  ghost predicate Fenced(db: Db, i: Holder, x: Instance)
  {
    var p := x.phase;
    && (MidPoll(p) ==> db.row.Some?)
    && (p.HasCursor? || p.DeadCursor? ==> Holds(db, i) ==> Cursor(db) == p.c)
    && (p.HasBatch? || p.Handled? || p.DeadBatch? ==>
          && p.b != [] && Sorted(p.b)
          && (forall k :: k in p.b ==> k in db.log && Before(p.c, k))
          && (Holds(db, i) ==> Cursor(db) == p.c))
  }

  ghost predicate FenceInv(s: Sys)
  {
    && Sorted(s.db.log)
    && (forall i :: i in s.insts ==> Fenced(s.db, i, s.insts[i]))
  }

  /** Whoever still holds the lock afterwards held it before, with the same cursor. */
  predicate Undisturbed(d: Db, e: Db, j: Holder)
  {
    && (d.row.Some? ==> e.row.Some?)
    && (Holds(e, j) ==> Holds(d, j) && Cursor(e) == Cursor(d))
  }

  lemma ActLeavesOthers(db: Db, i: Holder, x: Instance, a: Act, j: Holder)
    requires CanAct(x, a) && i != j
    ensures Undisturbed(db, ActDb(db, i, x, a), j) && ActDb(db, i, x, a).log == db.log
  {
    if a.DeadCommit? && InFlight(x.phase) {
      InsertLettersEffect(db, x.phase.b, x.failures);
    }
  }

  lemma ActFences(db: Db, i: Holder, x: Instance, a: Act)
    requires CanAct(x, a) && Fenced(db, i, x) && Sorted(db.log)
    ensures Fenced(ActDb(db, i, x, a), i, ActInstance(db, i, x, a))
  {
    if a.FetchBatch? || a.DeadFetch? {
      FetchIsBatch(db.log, x.phase.c, x.cfg.batchSize);
    }
    if a.DeadCommit? {
      InsertLettersEffect(db, x.phase.b, x.failures);
    }
  }

  lemma FenceStep(s: Sys, t: Step)
    requires FenceInv(s) && Enabled(s, t)
    ensures FenceInv(Apply(s, t))
  {
    match t
    case Instance(i, a) =>
      ActFences(s.db, i, s.insts[i], a);
      forall j | j in s.insts && j != i ensures Fenced(Apply(s, t).db, j, s.insts[j]) {
        ActLeavesOthers(s.db, i, s.insts[i], a, j);
      }
      ActLeavesOthers(s.db, i, s.insts[i], a, i + 1);
    case Append(k) =>
      InsertSorted(s.db.log, k);
      InsertMembers(s.db.log, k);
    case _ =>
  }

  lemma {:induction false} FenceRun(s: Sys, steps: seq<Step>)
    requires FenceInv(s) && IsRun(s, steps)
    ensures FenceInv(After(s, steps))
    decreases |steps|
  {
    if steps != [] {
      FenceStep(s, steps[0]);
      FenceRun(Apply(s, steps[0]), steps[1..]);
    }
  }

  lemma InitialFenced(s: Sys)
    requires Initial(s)
    ensures FenceInv(s)
  {
  }

  /** A step moves the cursor only if it is an advance by an instance that
      still holds the lock, and then from the very cursor that instance read
      to the end of the batch it fetched after it. */
  lemma CursorMoves(s: Sys, t: Step)
    requires FenceInv(s) && Enabled(s, t) && Cursor(Apply(s, t).db) != Cursor(s.db)
    ensures t.Instance? && Holds(s.db, t.i)
    ensures t.a.DoAdvance? || t.a.DeadCommit?
    ensures var p := s.insts[t.i].phase;
            && InFlight(p) && p.c == Cursor(s.db) && Cursor(Apply(s, t).db) == Last(p.b)
            && Before(Cursor(s.db), Cursor(Apply(s, t).db))
  {
    if t.Instance? && t.a.DeadCommit? {
      InsertLettersEffect(s.db, s.insts[t.i].phase.b, s.insts[t.i].failures);
    }
    if t.Instance? && InFlight(s.insts[t.i].phase) {
      assert Last(s.insts[t.i].phase.b) in s.insts[t.i].phase.b;
    }
  }

  /** Fencing: in every run, under any interleaving, the cursor never moves back. */
  lemma {:induction false} CursorNeverMovesBack(s: Sys, steps: seq<Step>)
    requires FenceInv(s) && IsRun(s, steps)
    ensures AtOrBefore(Cursor(s.db), Cursor(After(s, steps).db))
    decreases |steps|
  {
    if steps != [] {
      FenceStep(s, steps[0]);
      if Cursor(Apply(s, steps[0]).db) != Cursor(s.db) { CursorMoves(s, steps[0]); }
      CursorNeverMovesBack(Apply(s, steps[0]), steps[1..]);
    }
  }

  // -------------------------------------------------------------------------
  // No event is skipped
  // -------------------------------------------------------------------------

  /** Accepted in a batch, waiting as a dead letter, accepted on replay, or purged. */
  ghost function Accounted(s: Sys): set<Key>
  {
    s.accepted + s.replayed + s.purged + LetterEvents(s.db.letters)
  }

  ghost predicate NoSkip(s: Sys)
  {
    forall k :: k in s.db.log && AtOrBefore(k, Cursor(s.db)) ==> k in Accounted(s)
  }

  /** The last event the current cursor, or the batch in flight at the lock
      holder, has already claimed. */
  ghost function Frontier(s: Sys): Key
  {
    if s.db.row.Some? && s.db.row.value.holder.Some?
       && s.db.row.value.holder.value in s.insts && InFlight(s.insts[s.db.row.value.holder.value].phase)
    then Last(s.insts[s.db.row.value.holder.value].phase.b)
    else Cursor(s.db)
  }

  /** Batches miss nothing while their reader holds the lock, and a handled
      batch was accepted. */
  ghost predicate Covered(db: Db, accepted: set<Key>, i: Holder, x: Instance)
  {
    && (InFlight(x.phase) && Holds(db, i) ==> IsBatch(db.log, x.phase.c, x.phase.b))
    && (x.phase.Handled? ==> forall k :: k in x.phase.b ==> k in accepted)
  }

  ghost predicate LettersKnown(s: Sys)
  {
    IdsKnown(s.db, s.listed)
  }

  /** An id stands for one letter, listed or not, and fresh ids for none. */
  ghost predicate IdsKnown(db: Db, listed: set<Letter>)
  {
    && (forall l, m :: l in db.letters && m in db.letters && l.id == m.id ==> l == m)
    && (forall l :: l in db.letters ==> l.id < db.nextLetter)
    && (forall l :: l in listed ==> l.id < db.nextLetter)
    && (forall l, m :: l in listed && m in db.letters && l.id == m.id ==> l == m)
  }

  /** History speaks only of events that were logged. */
  ghost predicate HistoryLogged(s: Sys)
  {
    && (forall k :: k in Accounted(s) ==> k in s.db.log)
    && (forall l :: l in s.listed ==> l.event in s.db.log)
  }

  ghost predicate CursorLogged(db: Db)
  {
    Cursor(db) == START || Cursor(db) in db.log
  }

  ghost predicate Inv(s: Sys)
  {
    && FenceInv(s) && NoSkip(s) && LettersKnown(s) && HistoryLogged(s) && CursorLogged(s.db)
    && (forall i :: i in s.insts ==> Covered(s.db, s.accepted, i, s.insts[i]))
  }

  lemma InitialInv(s: Sys)
    requires Initial(s)
    ensures Inv(s)
  {
  }

  lemma ActCovers(db: Db, accepted: set<Key>, i: Holder, x: Instance, a: Act)
    requires Sorted(db.log) && CanAct(x, a) && Fenced(db, i, x) && Covered(db, accepted, i, x)
    ensures var d, y := ActDb(db, i, x, a), ActInstance(db, i, x, a);
            Covered(d, accepted + NewlyAccepted(x, a), i, y)
  {
    if a.FetchBatch? || a.DeadFetch? {
      FetchIsBatch(db.log, x.phase.c, x.cfg.batchSize);
    }
  }

  /** The events an action brings under the cursor are accounted for. */
  lemma ActAccounts(s: Sys, i: Holder, a: Act)
    requires Inv(s) && Enabled(s, Step.Instance(i, a))
    ensures NoSkip(Apply(s, Step.Instance(i, a)))
    ensures CursorLogged(Apply(s, Step.Instance(i, a)).db)
  {
    var t := Step.Instance(i, a);
    var x, s' := s.insts[i], Apply(s, t);
    ActLeavesOthers(s.db, i, x, a, i + 1);
    ActLetters(s.db, i, x, a);
    if Cursor(s'.db) != Cursor(s.db) {
      CursorMoves(s, t);
      assert Covered(s.db, s.accepted, i, x);
      assert Last(x.phase.b) in x.phase.b;
    }
  }

  lemma ActLetters(db: Db, i: Holder, x: Instance, a: Act)
    requires CanAct(x, a) && Fenced(db, i, x)
    ensures var d := ActDb(db, i, x, a);
            LetterEvents(d.letters) ==
            LetterEvents(db.letters) + if a.DeadCommit? && !a.r.Refused? then set k | k in x.phase.b else {}
  {
    if a.DeadCommit? {
      InsertLettersEvents(db, x.phase.b, x.failures);
    }
  }

  lemma ActLettersKnown(s: Sys, i: Holder, a: Act)
    requires LettersKnown(s) && Enabled(s, Step.Instance(i, a))
    ensures LettersKnown(Apply(s, Step.Instance(i, a)))
  {
    ActIds(s.db, s.listed, i, s.insts[i], a);
  }

  lemma ActIds(db: Db, listed: set<Letter>, i: Holder, x: Instance, a: Act)
    requires CanAct(x, a) && IdsKnown(db, listed)
    ensures IdsKnown(ActDb(db, i, x, a), listed)
  {
    var d := ActDb(db, i, x, a);
    if a.DeadCommit? {
      InsertKnown(db, listed, x.phase.b, x.failures);
    } else {
      assert d.letters == db.letters && d.nextLetter == db.nextLetter;
    }
  }

  lemma InsertKnown(db: Db, listed: set<Letter>, b: seq<Key>, n: nat)
    requires IdsKnown(db, listed)
    ensures IdsKnown(InsertLetters(db, b, n), listed)
  {
    InsertLettersEffect(db, b, n);
    InsertLettersIds(db, b, n);
  }

  lemma ActHistory(s: Sys, i: Holder, a: Act)
    requires Inv(s) && Enabled(s, Step.Instance(i, a))
    ensures HistoryLogged(Apply(s, Step.Instance(i, a)))
  {
    ActLeavesOthers(s.db, i, s.insts[i], a, i + 1);
    ActLetters(s.db, i, s.insts[i], a);
  }

  lemma InstanceStep(s: Sys, i: Holder, a: Act)
    requires Inv(s) && Enabled(s, Step.Instance(i, a))
    ensures Inv(Apply(s, Step.Instance(i, a)))
  {
    var t := Step.Instance(i, a);
    var s' := Apply(s, t);
    FenceStep(s, t);
    ActAccounts(s, i, a);
    ActLettersKnown(s, i, a);
    ActHistory(s, i, a);
    ActCovers(s.db, s.accepted, i, s.insts[i], a);
    forall j | j in s.insts && j != i ensures Covered(s'.db, s'.accepted, j, s.insts[j]) {
      ActLeavesOthers(s.db, i, s.insts[i], a, j);
    }
  }

  /** An event may become visible behind no claim already made. */
  ghost predicate SafeAppend(s: Sys, k: Key)
  {
    Before(Frontier(s), k)
  }

  lemma AppendStep(s: Sys, k: Key)
    requires Inv(s) && Enabled(s, Append(k)) && SafeAppend(s, k)
    ensures Inv(Apply(s, Append(k)))
  {
    var s' := Apply(s, Append(k));
    FenceStep(s, Append(k));
    InsertMembers(s.db.log, k);
    forall i | i in s.insts ensures Covered(s'.db, s.accepted, i, s.insts[i]) {
      var p := s.insts[i].phase;
      if InFlight(p) && Holds(s.db, i) {
        assert Fenced(s.db, i, s.insts[i]) && Covered(s.db, s.accepted, i, s.insts[i]);
        InsertBeyond(s.db.log, p.c, p.b, k);
      }
    }
    FrontierAhead(s);
  }

  /** The frontier is never behind the cursor. */
  lemma FrontierAhead(s: Sys)
    requires FenceInv(s)
    ensures AtOrBefore(Cursor(s.db), Frontier(s))
    ensures Frontier(s) == Cursor(s.db) || Frontier(s) in s.db.log
  {
  }

  lemma DeleteStep(s: Sys, l: Letter)
    requires Inv(s) && Enabled(s, ReplayDelete(l))
    ensures NoSkip(Apply(s, ReplayDelete(l))) && HistoryLogged(Apply(s, ReplayDelete(l)))
    ensures LettersKnown(Apply(s, ReplayDelete(l)))
  {
    var left := DeleteLetter(s.db.letters, l.id);
    DeleteLetterMembers(s.db.letters, l.id);
    forall k | k in LetterEvents(s.db.letters) ensures k in LetterEvents(left) + s.replayed {
      var m :| m in s.db.letters && m.event == k;
      assert m in left || m == l;
    }
    assert LetterEvents(left) <= LetterEvents(s.db.letters);
  }

  lemma PurgeStep(s: Sys, before: int)
    requires Inv(s)
    ensures NoSkip(Apply(s, Purge(before))) && HistoryLogged(Apply(s, Purge(before)))
    ensures LettersKnown(Apply(s, Purge(before)))
  {
    var s' := Apply(s, Purge(before));
    PurgeLettersMembers(s.db.letters, before);
    forall k | k in LetterEvents(s.db.letters) ensures k in LetterEvents(s'.db.letters) + s'.purged {
      var m :| m in s.db.letters && m.event == k;
      assert m in s'.db.letters || m.createdAt < before;
    }
    assert LetterEvents(s'.db.letters) <= LetterEvents(s.db.letters);
    assert s'.purged <= s.purged + LetterEvents(s.db.letters);
  }

  /** Replays and purges take letters away only with a reason on record. */
  lemma LetterStep(s: Sys, t: Step)
    requires Inv(s) && Enabled(s, t) && !t.Instance? && !t.Append?
    ensures Inv(Apply(s, t))
  {
    FenceStep(s, t);
    match t
    case Tick(_) =>
    case ListLetters =>
      assert forall l :: l in s.db.letters ==> l.event in LetterEvents(s.db.letters);
    case ReplayAccept(_) =>
    case ReplayDelete(l) => DeleteStep(s, l);
    case Purge(before) => PurgeStep(s, before);
  }

  ghost predicate AppendsSafe(s: Sys, steps: seq<Step>)
    requires IsRun(s, steps)
    decreases |steps|
  {
    steps == [] ||
    (&& (steps[0].Append? ==> SafeAppend(s, steps[0].k))
     && AppendsSafe(Apply(s, steps[0]), steps[1..]))
  }

  lemma {:induction false} InvRun(s: Sys, steps: seq<Step>)
    requires Inv(s) && IsRun(s, steps) && AppendsSafe(s, steps)
    ensures Inv(After(s, steps))
    decreases |steps|
  {
    if steps != [] {
      match steps[0] {
        case Instance(i, a) => InstanceStep(s, i, a);
        case Append(k) => AppendStep(s, k);
        case _ => LetterStep(s, steps[0]);
      }
      InvRun(Apply(s, steps[0]), steps[1..]);
    }
  }

  /** Every event that becomes visible sorts after all visible ones. */
  ghost predicate AppendsInOrder(s: Sys, steps: seq<Step>)
    requires IsRun(s, steps)
    decreases |steps|
  {
    steps == [] ||
    (&& (steps[0].Append? ==>
           Before(START, steps[0].k) && forall x :: x in s.db.log ==> Before(x, steps[0].k))
     && AppendsInOrder(Apply(s, steps[0]), steps[1..]))
  }

  lemma {:induction false} InOrderIsSafe(s: Sys, steps: seq<Step>)
    requires Inv(s) && IsRun(s, steps) && AppendsInOrder(s, steps)
    ensures AppendsSafe(s, steps)
    decreases |steps|
  {
    if steps != [] {
      FrontierAhead(s);
      match steps[0] {
        case Instance(i, a) => InstanceStep(s, i, a);
        case Append(k) => AppendStep(s, k);
        case _ => LetterStep(s, steps[0]);
      }
      InOrderIsSafe(Apply(s, steps[0]), steps[1..]);
    }
  }

  /** In every run of any number of instances, if events become visible in
      (occurred_at, id) order, each event at or before the cursor was accepted
      in a batch, is a dead letter, or was replayed or purged from there. */
  lemma NoEventSkipped(s: Sys, steps: seq<Step>)
    requires Initial(s) && IsRun(s, steps) && AppendsInOrder(s, steps)
    ensures NoSkip(After(s, steps))
  {
    InitialInv(s);
    InOrderIsSafe(s, steps);
    InvRun(s, steps);
  }

  // -------------------------------------------------------------------------
  // Unlimited retries
  // -------------------------------------------------------------------------

  ghost predicate RetriesUnlimited(s: Sys)
  {
    forall i :: i in s.insts ==> s.insts[i].cfg.maxRetries <= 0
  }

  /** Nobody has given up, and there was nothing to replay or purge. */
  ghost predicate NoneGaveUp(s: Sys)
  {
    && s.db.letters == [] && s.listed == {} && s.replayed == {} && s.purged == {}
    && (forall i :: i in s.insts ==> var p := s.insts[i].phase;
                                     !p.DeadLettering? && !p.DeadCursor? && !p.DeadBatch? && !p.DeadDone?)
  }

  lemma RetryStep(s: Sys, t: Step)
    requires RetriesUnlimited(s) && NoneGaveUp(s) && Enabled(s, t)
    ensures RetriesUnlimited(Apply(s, t)) && NoneGaveUp(Apply(s, t))
  {
  }

  lemma {:induction false} RetryRun(s: Sys, steps: seq<Step>)
    requires RetriesUnlimited(s) && NoneGaveUp(s) && IsRun(s, steps)
    ensures NoneGaveUp(After(s, steps))
    decreases |steps|
  {
    if steps != [] {
      RetryStep(s, steps[0]);
      RetryRun(Apply(s, steps[0]), steps[1..]);
    }
  }

  /** Without a retry limit, which is the default, no run from the start ever
      makes a dead letter, and with ordered visibility the cursor passes an
      event only once the handler has accepted it. */
  lemma RetryForever(s: Sys, steps: seq<Step>)
    requires Initial(s) && RetriesUnlimited(s) && IsRun(s, steps)
    ensures After(s, steps).db.letters == []
    ensures AppendsInOrder(s, steps) ==>
            var e := After(s, steps);
            forall k :: k in e.db.log && AtOrBefore(k, Cursor(e.db)) ==> k in e.accepted
  {
    RetryRun(s, steps);
    if AppendsInOrder(s, steps) { NoEventSkipped(s, steps); }
  }

  // -------------------------------------------------------------------------
  // Exactly when a late event is safe
  // -------------------------------------------------------------------------

  /** The steps that let the lock holder finish its claim. */
  ghost function Conclude(s: Sys): seq<Step>
  {
    if Frontier(s) == Cursor(s.db) then []
    else
      var i := s.db.row.value.holder.value;
      match s.insts[i].phase
      case HasBatch(_, _) => [Step.Instance(i, Handle(true)), Step.Instance(i, DoAdvance(Reported))]
      case Handled(_, _) => [Step.Instance(i, DoAdvance(Reported))]
      case DeadBatch(_, _) => [Step.Instance(i, DeadCommit(Reported))]
      case _ => []
  }

  lemma RunCons(s: Sys, t: Step, rest: seq<Step>)
    requires Enabled(s, t) && IsRun(Apply(s, t), rest)
    ensures IsRun(s, [t] + rest) && After(s, [t] + rest) == After(Apply(s, t), rest)
    ensures (t.Append? ==> SafeAppend(s, t.k)) && AppendsSafe(Apply(s, t), rest) ==> AppendsSafe(s, [t] + rest)
  {
  }

  lemma RunOne(s: Sys, t: Step)
    requires Enabled(s, t)
    ensures IsRun(s, [t]) && After(s, [t]) == Apply(s, t)
    ensures (t.Append? ==> SafeAppend(s, t.k)) ==> AppendsSafe(s, [t])
  {
  }

  lemma {:induction false} RunConcat(s: Sys, xs: seq<Step>, ys: seq<Step>)
    requires IsRun(s, xs) && IsRun(After(s, xs), ys)
    ensures IsRun(s, xs + ys) && After(s, xs + ys) == After(After(s, xs), ys)
    ensures AppendsSafe(s, xs) && AppendsSafe(After(s, xs), ys) ==> AppendsSafe(s, xs + ys)
    decreases |xs|
  {
    if xs == [] {
      assert xs + ys == ys;
    } else {
      RunConcat(Apply(s, xs[0]), xs[1..], ys);
      assert xs + ys == [xs[0]] + (xs[1..] + ys);
      RunCons(s, xs[0], xs[1..] + ys);
    }
  }

  /** Concluding the claim brings the cursor to the frontier and accounts for
      nothing but the batch and what was accounted for before. */
  lemma ConcludeEffect(s: Sys)
    requires FenceInv(s)
    ensures IsRun(s, Conclude(s)) && AppendsSafe(s, Conclude(s))
    ensures var e := After(s, Conclude(s));
            && Cursor(e.db) == Frontier(s) && e.db.log == s.db.log
            && forall k :: k in Accounted(e) ==> k in Accounted(s) || InBatch(s, k)
  {
    if Frontier(s) != Cursor(s.db) {
      var i := s.db.row.value.holder.value;
      var x := s.insts[i];
      assert Fenced(s.db, i, x);
      if x.phase.DeadBatch? {
        InsertLettersEffect(s.db, x.phase.b, x.failures);
        InsertLettersEvents(s.db, x.phase.b, x.failures);
        RunOne(s, Step.Instance(i, DeadCommit(Reported)));
      } else if x.phase.Handled? {
        RunOne(s, Step.Instance(i, DoAdvance(Reported)));
      } else {
        var h, t := Step.Instance(i, Handle(true)), Step.Instance(i, DoAdvance(Reported));
        RunOne(Apply(s, h), t);
        RunCons(s, h, [t]);
        assert [h, t] == [h] + [t];
      }
    }
  }

  ghost predicate InBatch(s: Sys, k: Key)
  {
    exists i :: i in s.insts && InFlight(s.insts[i].phase) && k in s.insts[i].phase.b
  }

  /** An event that becomes visible at or behind the frontier is stranded by a
      run in which nothing goes wrong: the holder concludes its batch, and the
      event is behind the cursor with no one having seen it. */
  lemma LateEventStranded(s: Sys, k: Key)
    requires Inv(s) && Enabled(s, Append(k)) && !SafeAppend(s, k)
    ensures var s' := Apply(s, Append(k));
            IsRun(s', Conclude(s')) && !NoSkip(After(s', Conclude(s')))
  {
    var s' := Apply(s, Append(k));
    FenceStep(s, Append(k));
    InsertMembers(s.db.log, k);
    ConcludeEffect(s');
    assert Frontier(s') == Frontier(s);
    assert !InBatch(s', k) by {
      forall i | i in s.insts && InFlight(s.insts[i].phase) ensures k !in s.insts[i].phase.b {
        assert Fenced(s.db, i, s.insts[i]);
      }
    }
    var e := After(s', Conclude(s'));
    assert k in e.db.log && AtOrBefore(k, Cursor(e.db)) && k !in Accounted(e);
  }

  /** From any state the protocol reaches, a newly visible event can be lost
      in some continuation with no further late events if and only if it
      sorts at or before the frontier. */
  lemma LateEventSafeIff(s: Sys, k: Key)
    requires Inv(s) && Enabled(s, Append(k))
    ensures SafeAppend(s, k) <==>
            forall steps :: IsRun(Apply(s, Append(k)), steps) && AppendsSafe(Apply(s, Append(k)), steps)
                            ==> NoSkip(After(Apply(s, Append(k)), steps))
  {
    var s' := Apply(s, Append(k));
    if SafeAppend(s, k) {
      AppendStep(s, k);
      forall steps | IsRun(s', steps) && AppendsSafe(s', steps) ensures NoSkip(After(s', steps)) {
        InvRun(s', steps);
      }
    } else {
      LateEventStranded(s, k);
      FenceStep(s, Append(k));
      ConcludeEffect(s');
    }
  }

  // -------------------------------------------------------------------------
  // A dead-lettering that lost the lock
  // -------------------------------------------------------------------------

  /** A dead-letter transaction inserts its whole batch whether or not the
      instance still holds the lock.  An event of the batch is then still ahead
      of the cursor, to be delivered again, exactly if the lock was lost and
      nobody had passed the event. */
  lemma DeadLetterOutcome(s: Sys, i: Holder, k: Key)
    requires FenceInv(s) && i in s.insts && s.insts[i].phase.DeadBatch? && k in s.insts[i].phase.b
    ensures var e := Apply(s, Step.Instance(i, DeadCommit(Reported)));
            && k in LetterEvents(e.db.letters)
            && (Before(Cursor(e.db), k) <==> !Holds(s.db, i) && Before(Cursor(s.db), k))
            && (!Holds(s.db, i) ==> Cursor(e.db) == Cursor(s.db))
  {
    var x := s.insts[i];
    var b := x.phase.b;
    assert Fenced(s.db, i, x);
    InsertLettersEffect(s.db, b, x.failures);
    InsertLettersEvents(s.db, b, x.failures);
    var n :| 0 <= n < |b| && b[n] == k;
    if n < |b| - 1 { assert Before(b[n], b[|b| - 1]); }
  }

  // -------------------------------------------------------------------------
  // One leader at a time
  // -------------------------------------------------------------------------

  /** Every poll under way is within its lease, counted from its own lock step. */
  ghost predicate Timely(s: Sys)
  {
    forall i :: i in s.insts && MidPoll(s.insts[i].phase) ==> s.db.now <= s.insts[i].lockedAt + s.insts[i].cfg.ttl
  }

  ghost predicate TimelyRun(s: Sys, steps: seq<Step>)
    requires IsRun(s, steps)
    decreases |steps|
  {
    Timely(s) && (steps == [] || TimelyRun(Apply(s, steps[0]), steps[1..]))
  }

  /** A poll under way belongs to the holder, whose lease dates from its lock step. */
  ghost predicate Leads(db: Db, i: Holder, x: Instance)
  {
    MidPoll(x.phase) ==> Holds(db, i) && db.row.value.expires == Some(x.lockedAt + x.cfg.ttl)
  }

  ghost predicate LeaderInv(s: Sys)
  {
    forall i :: i in s.insts ==> Leads(s.db, i, s.insts[i])
  }

  ghost predicate OneLeader(s: Sys)
  {
    forall i, j :: i in s.insts && j in s.insts && MidPoll(s.insts[i].phase) && MidPoll(s.insts[j].phase) ==> i == j
  }

  lemma ActKeepsLeader(db: Db, i: Holder, x: Instance, a: Act, j: Holder, y: Instance)
    requires CanAct(x, a) && i != j && Leads(db, j, y)
    requires MidPoll(y.phase) ==> db.now <= y.lockedAt + y.cfg.ttl
    ensures Leads(ActDb(db, i, x, a), j, y)
  {
    if a.DeadCommit? && InFlight(x.phase) {
      InsertLettersEffect(db, x.phase.b, x.failures);
    }
  }

  lemma ActLeads(db: Db, i: Holder, x: Instance, a: Act)
    requires CanAct(x, a) && Leads(db, i, x)
    ensures Leads(ActDb(db, i, x, a), i, ActInstance(db, i, x, a))
  {
    if a.DeadCommit? && InFlight(x.phase) {
      InsertLettersEffect(db, x.phase.b, x.failures);
    }
  }

  lemma LeaderStep(s: Sys, t: Step)
    requires LeaderInv(s) && Timely(s) && Enabled(s, t)
    ensures LeaderInv(Apply(s, t))
  {
    if t.Instance? {
      ActLeads(s.db, t.i, s.insts[t.i], t.a);
      forall j | j in s.insts && j != t.i ensures Leads(Apply(s, t).db, j, s.insts[j]) {
        ActKeepsLeader(s.db, t.i, s.insts[t.i], t.a, j, s.insts[j]);
      }
    } else {
      forall j | j in s.insts ensures Leads(Apply(s, t).db, j, s.insts[j]) {
        assert Leads(s.db, j, s.insts[j]);
      }
    }
  }

  /** If every poll ends within LockTTL of its own lock step on the database
      clock, no two instances are ever between lock step and end of poll. */
  lemma {:induction false} SingleLeader(s: Sys, steps: seq<Step>)
    requires LeaderInv(s) && IsRun(s, steps) && TimelyRun(s, steps)
    ensures OneLeader(After(s, steps)) && LeaderInv(After(s, steps))
    decreases |steps|
  {
    if steps == [] {
      forall i, j | i in s.insts && j in s.insts && MidPoll(s.insts[i].phase) && MidPoll(s.insts[j].phase)
        ensures i == j
      {
        assert Leads(s.db, i, s.insts[i]) && Leads(s.db, j, s.insts[j]);
      }
    } else {
      LeaderStep(s, steps[0]);
      SingleLeader(Apply(s, steps[0]), steps[1..]);
    }
  }

  lemma InitialLeader(s: Sys)
    requires Initial(s)
    ensures LeaderInv(s) && Timely(s)
  {
  }

  /** From the start, however the run goes on, the cursor never moves back,
      and if every poll ends within its lease there is never a second leader. */
  lemma SafeFromStart(s: Sys, xs: seq<Step>, ys: seq<Step>)
    requires Initial(s) && IsRun(s, xs) && IsRun(After(s, xs), ys)
    ensures IsRun(s, xs + ys)
    ensures AtOrBefore(Cursor(After(s, xs).db), Cursor(After(s, xs + ys).db))
    ensures TimelyRun(s, xs) ==> OneLeader(After(s, xs))
  {
    InitialFenced(s);
    FenceRun(s, xs);
    CursorNeverMovesBack(After(s, xs), ys);
    RunConcat(s, xs, ys);
    if TimelyRun(s, xs) {
      InitialLeader(s);
      SingleLeader(s, xs);
    }
  }

  /** The lease is exactly the bound: while `i` is in its poll, another idle
      instance that tries for the lock gets into its own poll if and only if
      `i` has overstayed. */
  lemma OverlapIffOverstayed(s: Sys, i: Holder, j: Holder)
    requires LeaderInv(s) && i in s.insts && j in s.insts && i != j
    requires MidPoll(s.insts[i].phase) && s.insts[j].phase.Idle?
    ensures var steps := [Step.Instance(j, DoRenew(Reported)), Step.Instance(j, DoAcquire(Reported))];
            && IsRun(s, steps)
            && (!OneLeader(After(s, steps)) <==> s.db.now > s.insts[i].lockedAt + s.insts[i].cfg.ttl)
  {
    var t, u := Step.Instance(j, DoRenew(Reported)), Step.Instance(j, DoAcquire(Reported));
    assert Leads(s.db, i, s.insts[i]);
    var s1 := Apply(s, t);
    assert s1.db == s.db && s1.insts[j].phase.Acquiring?;
    RunOne(s1, u);
    RunCons(s, t, [u]);
    assert [t, u] == [t] + [u];
    var e := After(s, [t, u]);
    assert e == Apply(s1, u);
    assert forall k :: k in s.insts && k != j ==> e.insts[k] == s.insts[k];
    forall k | k in s.insts && MidPoll(s.insts[k].phase) ensures k == i {
      assert Leads(s.db, k, s.insts[k]);
    }
    assert e.insts[i] == s.insts[i] && i in e.insts && j in e.insts;
    assert MidPoll(e.insts[j].phase) <==> s.db.now > s.insts[i].lockedAt + s.insts[i].cfg.ttl;
    if !MidPoll(e.insts[j].phase) {
      assert forall k :: k in e.insts && MidPoll(e.insts[k].phase) ==> k == i;
    }
  }

  // -------------------------------------------------------------------------
  // A run that loses an event
  // -------------------------------------------------------------------------

  const EARLY := Key(5, 2)
  const SEEN := Key(10, 1)

  ghost function Lone(row: Option<Row>, p: Phase, accepted: set<Key>): Sys
  {
    Sys(Db(0, row, [SEEN], [], 0), map[7 := Instance.Instance(Config(1, 30, 0), p, 0, 0)],
        accepted, {}, {}, {}, {})
  }

  ghost function Mine(i: Holder, acts: seq<Act>): seq<Step>
  {
    seq(|acts|, n requires 0 <= n < |acts| => Step.Instance(i, acts[n]))
  }

  lemma ExampleLock(row: Row)
    requires row == Row(START, Some(7), Some(30), 0, None)
    ensures IsRun(Lone(None, Idle, {}), Mine(7, [DoRenew(Reported), DoAcquire(Reported), ReadCursor(true)]))
    ensures After(Lone(None, Idle, {}), Mine(7, [DoRenew(Reported), DoAcquire(Reported), ReadCursor(true)]))
         == Lone(Some(row), HasCursor(START), {})
  {
  }

  lemma ExampleAdvance(row: Row)
    requires row == Row(START, Some(7), Some(30), 0, None)
    ensures IsRun(Lone(Some(row), HasCursor(START), {}), Mine(7, [FetchBatch(true), Handle(true), DoAdvance(Reported)]))
    ensures After(Lone(Some(row), HasCursor(START), {}), Mine(7, [FetchBatch(true), Handle(true), DoAdvance(Reported)]))
         == Lone(Some(row.(cursor := SEEN)), Succeeded, {SEEN})
  {
  }

  lemma ExamplePoll(row: Row) returns (steps: seq<Step>)
    requires row == Row(START, Some(7), Some(30), 0, None)
    ensures IsRun(Lone(None, Idle, {}), steps)
    ensures After(Lone(None, Idle, {}), steps) == Lone(Some(row.(cursor := SEEN)), Succeeded, {SEEN})
  {
    var xs := Mine(7, [DoRenew(Reported), DoAcquire(Reported), ReadCursor(true)]);
    var ys := Mine(7, [FetchBatch(true), Handle(true), DoAdvance(Reported)]);
    ExampleLock(row);
    ExampleAdvance(row);
    RunConcat(Lone(None, Idle, {}), xs, ys);
    steps := xs + ys;
  }

  /** Without ordered visibility an event can be lost in a run from the start:
      one instance accepts the event at time 10 and advances, and then an
      event stamped 5 becomes visible. */
  lemma LostEventExample() returns (s: Sys, steps: seq<Step>)
    ensures Initial(s) && IsRun(s, steps) && !NoSkip(After(s, steps))
  {
    var row := Row(START, Some(7), Some(30), 0, None);
    s := Lone(None, Idle, {});
    var poll := ExamplePoll(row);
    var e := Lone(Some(row.(cursor := SEEN)), Succeeded, {SEEN});
    RunOne(e, Append(EARLY));
    RunConcat(s, poll, [Append(EARLY)]);
    steps := poll + [Append(EARLY)];
    InsertMembers([SEEN], EARLY);
    var f := Apply(e, Append(EARLY));
    assert EARLY in f.db.log && AtOrBefore(EARLY, Cursor(f.db)) && EARLY !in Accounted(f);
  }
}
