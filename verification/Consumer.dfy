/** The consumer object of store/consumer.go over its tables.  Database calls
    succeed here; the protocol module covers the ones that fail.  A poll is
    proved to be a sequence of protocol actions, and repeated polls to drain
    the backlog. */
module Consumers {
  import opened Basics
  import opened EventLog
  import opened ConsumerDb
  import opened Protocol

  // -------------------------------------------------------------------------
  // One poll as protocol actions
  // -------------------------------------------------------------------------

  /** The tables and one instance. */
  datatype View = View(db: Db, x: Instance)

  /** What a poll does next in each phase when the database works: `accept`
      is the handler's verdict and `backoff` the wait it would record. */
  function NextAct(p: Phase, accept: bool, backoff: Option<int>): Act
  {
    match p
    case Idle => DoRenew(Reported)
    case Stopped => Start
    case Acquiring => DoAcquire(Reported)
    case Locked => ReadCursor(true)
    case HasCursor(_) => FetchBatch(true)
    case HasBatch(_, _) => Handle(accept)
    case Handled(_, _) => DoAdvance(Reported)
    case Succeeded => Finish(true)
    case Failed => Fail(true, backoff)
    case DeadLettering => DeadRead(true)
    case DeadCursor(_) => DeadFetch(true)
    case DeadBatch(_, _) => DeadCommit(Reported)
    case DeadDone => DeadFinish(true)
  }

  function Do(v: View, i: Holder, a: Act): View
    requires CanAct(v.x, a)
  {
    View(ActDb(v.db, i, v.x, a), ActInstance(v.db, i, v.x, a))
  }

  /** Actions left in the poll, at most. */
  function Remaining(p: Phase): nat
  {
    match p
    case Idle => 0
    case Stopped => 0
    case Acquiring => 10
    case Locked => 9
    case HasCursor(_) => 8
    case HasBatch(_, _) => 7
    case Handled(_, _) => 6
    case Succeeded => 1
    case Failed => 5
    case DeadLettering => 4
    case DeadCursor(_) => 3
    case DeadBatch(_, _) => 2
    case DeadDone => 1
  }

  /** The rest of a poll. */
  function Continue(v: View, i: Holder, accept: bool, backoff: Option<int>): View
    decreases Remaining(v.x.phase)
  {
    if v.x.phase.Idle? || v.x.phase.Stopped? then v
    else Continue(Do(v, i, NextAct(v.x.phase, accept, backoff)), i, accept, backoff)
  }

  function PollView(v: View, i: Holder, accept: bool, backoff: Option<int>): View
    requires v.x.phase.Idle?
  {
    Continue(Do(v, i, DoRenew(Reported)), i, accept, backoff)
  }

  lemma ApplyIsDo(s: Sys, i: Holder, a: Act)
    requires i in s.insts && CanAct(s.insts[i], a)
    ensures var e := Apply(s, Step.Instance(i, a));
            && i in e.insts && e.insts == s.insts[i := e.insts[i]]
            && View(e.db, e.insts[i]) == Do(View(s.db, s.insts[i]), i, a)
  {
  }

  /** A poll is a run of the protocol in which only this instance moves. */
  lemma {:induction false} ContinueIsRun(s: Sys, i: Holder, accept: bool, backoff: Option<int>)
    returns (steps: seq<Step>)
    requires i in s.insts
    ensures IsRun(s, steps) && AppendsSafe(s, steps)
    ensures i in After(s, steps).insts && After(s, steps).insts == s.insts[i := After(s, steps).insts[i]]
    ensures View(After(s, steps).db, After(s, steps).insts[i]) == Continue(View(s.db, s.insts[i]), i, accept, backoff)
    decreases Remaining(s.insts[i].phase)
  {
    var x := s.insts[i];
    if x.phase.Idle? || x.phase.Stopped? {
      steps := [];
      assert s.insts[i := x] == s.insts;
    } else {
      var t := Step.Instance(i, NextAct(x.phase, accept, backoff));
      var s' := Apply(s, t);
      ApplyIsDo(s, i, t.a);
      var rest := ContinueIsRun(s', i, accept, backoff);
      steps := [t] + rest;
      RunCons(s, t, rest);
    }
  }

  lemma PollIsRun(s: Sys, i: Holder, accept: bool, backoff: Option<int>) returns (steps: seq<Step>)
    requires i in s.insts && s.insts[i].phase.Idle?
    ensures IsRun(s, steps) && AppendsSafe(s, steps)
    ensures i in After(s, steps).insts && After(s, steps).insts == s.insts[i := After(s, steps).insts[i]]
    ensures View(After(s, steps).db, After(s, steps).insts[i]) == PollView(View(s.db, s.insts[i]), i, accept, backoff)
  {
    var t := Step.Instance(i, DoRenew(Reported));
    var rest := ContinueIsRun(Apply(s, t), i, accept, backoff);
    steps := [t] + rest;
    RunCons(s, t, rest);
  }

  // -------------------------------------------------------------------------
  // What one poll achieves
  // -------------------------------------------------------------------------

  function Batch(v: View): seq<Key>
  {
    Fetch(v.db.log, Cursor(v.db), v.x.cfg.batchSize)
  }

  function Backlog(v: View): nat
  {
    |Above(v.db.log, Cursor(v.db))|
  }

  predicate CanLead(v: View, i: Holder)
  {
    v.x.phase.Idle? && (Holds(v.db, i) || LockIsFree(v.db))
  }

  /** The tables once the lock step has gone through. */
  function LockedDb(v: View, i: Holder): Db
  {
    if Holds(v.db, i) then Renew(v.db, i, v.x.cfg.ttl) else Acquire(v.db, i, v.x.cfg.ttl)
  }

  lemma LockPart(v: View, i: Holder, accept: bool, backoff: Option<int>)
    requires CanLead(v, i)
    ensures var d := LockedDb(v, i);
            && Holds(d, i) && Cursor(d) == Cursor(v.db) && d.log == v.db.log && d.letters == v.db.letters
            && PollView(v, i, accept, backoff)
               == Continue(View(d, v.x.(phase := HasCursor(Cursor(d)), lockedAt := v.db.now)), i, accept, backoff)
  {
    var v1 := Do(v, i, DoRenew(Reported));
    if v1.x.phase.Acquiring? {
      var v2 := Do(v1, i, DoAcquire(Reported));
      assert v2.x.phase.Locked?;
      assert Continue(v1, i, accept, backoff) == Continue(v2, i, accept, backoff);
      assert Do(v2, i, ReadCursor(true)).x == v.x.(phase := HasCursor(Cursor(v2.db)), lockedAt := v.db.now);
    }
  }

  /** The failure state is written back only if there was one. */
  function Cleared(db: Db, i: Holder, failures: nat): Db
  {
    if failures > 0 then SaveFailures(db, i, 0, None) else db
  }

  /** The batch dead-lettered and passed over, if there is one. */
  function DeadLettered(db: Db, i: Holder, b: seq<Key>, failures: nat): Db
  {
    if b == [] then db else Advance(InsertLetters(db, b, failures), i, Last(b))
  }

  function GivenUp(db: Db, i: Holder, b: seq<Key>, failures: nat): Db
  {
    SaveFailures(DeadLettered(db, i, b, failures), i, 0, None)
  }

  /** What the instance's next fetch returns; nothing without a row. */
  function NextRows(db: Db, n: nat): seq<Key>
  {
    if db.row.None? then [] else Fetch(db.log, db.row.value.cursor, n)
  }

  /** Nothing to read. */
  lemma EmptyPart(w: View, i: Holder, accept: bool, backoff: Option<int>)
    requires w.x.phase.Succeeded? && Holds(w.db, i)
    ensures var r := Continue(w, i, accept, backoff);
            && r == View(Cleared(w.db, i, w.x.failures), w.x.(phase := Idle, failures := 0))
            && Holds(r.db, i) && r.db.log == w.db.log
            && Cursor(r.db) == Cursor(w.db) && r.db.letters == w.db.letters
  {
  }

  /** A batch the handler accepts. */
  lemma AcceptPart(w: View, i: Holder, backoff: Option<int>)
    requires w.x.phase.HasBatch? && Holds(w.db, i) && w.x.phase.b != []
    ensures var r := Continue(w, i, true, backoff);
            && r == View(Cleared(Advance(w.db, i, Last(w.x.phase.b)), i, w.x.failures),
                         w.x.(phase := Idle, failures := 0))
            && Holds(r.db, i) && r.db.log == w.db.log
            && Cursor(r.db) == Last(w.x.phase.b) && r.db.letters == w.db.letters
  {
    var w1 := Do(w, i, Handle(true));
    var w2 := Do(w1, i, DoAdvance(Reported));
    var w3 := Do(w2, i, Finish(true));
    assert Continue(w, i, true, backoff) == Continue(w1, i, true, backoff);
    assert Continue(w1, i, true, backoff) == Continue(w2, i, true, backoff);
    assert Continue(w2, i, true, backoff) == w3;
  }

  /** A batch the handler rejects with retries left. */
  lemma RetryPart(w: View, i: Holder, backoff: Option<int>)
    requires w.x.phase.HasBatch? && Holds(w.db, i) && !GivesUp(w.x)
    ensures var r := Continue(w, i, false, backoff);
            && r == View(SaveFailures(w.db, i, w.x.failures + 1, backoff),
                         w.x.(phase := Idle, failures := w.x.failures + 1))
            && Holds(r.db, i) && r.db.log == w.db.log
            && Cursor(r.db) == Cursor(w.db) && r.db.letters == w.db.letters
  {
    var w1 := Do(w, i, Handle(false));
    var w2 := Do(w1, i, Fail(true, backoff));
    assert Continue(w, i, false, backoff) == Continue(w1, i, false, backoff);
    assert Continue(w1, i, false, backoff) == w2;
  }

  /** Dead-lettering from a fetched batch on. */
  lemma DeadPart(w: View, i: Holder, accept: bool, backoff: Option<int>)
    requires w.x.phase.DeadBatch? && Holds(w.db, i) && w.x.phase.b != []
    ensures var r := Continue(w, i, accept, backoff);
            && r == View(GivenUp(w.db, i, w.x.phase.b, w.x.failures), w.x.(phase := Idle, failures := 0))
            && Holds(r.db, i) && r.db.log == w.db.log
            && Cursor(r.db) == Last(w.x.phase.b)
            && r.db.letters == InsertLetters(w.db, w.x.phase.b, w.x.failures).letters
  {
    InsertLettersEffect(w.db, w.x.phase.b, w.x.failures);
    var w1 := Do(w, i, DeadCommit(Reported));
    var w2 := Do(w1, i, DeadFinish(true));
    assert Continue(w, i, accept, backoff) == Continue(w1, i, accept, backoff);
    assert Continue(w1, i, accept, backoff) == w2;
  }

  /** From the last failure up to the batch that is dead-lettered. */
  lemma FailPart(w: View, i: Holder, accept: bool, backoff: Option<int>)
    requires w.x.phase.Failed? && w.db.row.Some? && GivesUp(w.x)
    requires Fetch(w.db.log, Cursor(w.db), w.x.cfg.batchSize) != []
    ensures var b := Fetch(w.db.log, Cursor(w.db), w.x.cfg.batchSize);
            Continue(w, i, accept, backoff)
            == Continue(View(w.db, w.x.(phase := DeadBatch(Cursor(w.db), b), failures := w.x.failures + 1)),
                        i, accept, backoff)
  {
    var w1 := Do(w, i, Fail(true, backoff));
    var w2 := Do(w1, i, DeadRead(true));
    var w3 := Do(w2, i, DeadFetch(true));
    assert Continue(w, i, accept, backoff) == Continue(w1, i, accept, backoff);
    assert Continue(w1, i, accept, backoff) == Continue(w2, i, accept, backoff);
    assert Continue(w2, i, accept, backoff) == Continue(w3, i, accept, backoff);
  }

  /** A batch the handler rejects for the last time. */
  lemma GiveUpPart(w: View, i: Holder, backoff: Option<int>)
    requires w.x.phase.HasBatch? && Holds(w.db, i) && GivesUp(w.x)
    requires w.x.phase.b == Fetch(w.db.log, Cursor(w.db), w.x.cfg.batchSize) != []
    ensures var r := Continue(w, i, false, backoff);
            && r == View(GivenUp(w.db, i, w.x.phase.b, w.x.failures + 1), w.x.(phase := Idle, failures := 0))
            && Holds(r.db, i) && r.db.log == w.db.log
            && Cursor(r.db) == Last(w.x.phase.b)
            && r.db.letters == InsertLetters(w.db, w.x.phase.b, w.x.failures + 1).letters
  {
    var b := w.x.phase.b;
    var w1 := Do(w, i, Handle(false));
    assert Continue(w, i, false, backoff) == Continue(w1, i, false, backoff);
    FailPart(w1, i, false, backoff);
    DeadPart(View(w.db, w.x.(phase := DeadBatch(Cursor(w.db), b), failures := w.x.failures + 1)), i, false, backoff);
  }

  /** Whether a poll moves the cursor: the handler accepts, or gives up. */
  predicate Moves(v: View, accept: bool)
  {
    Batch(v) != [] && (accept || GivesUp(v.x))
  }

  /** The tables a poll leaves, in closed form. */
  function PollDb(v: View, i: Holder, accept: bool, backoff: Option<int>): Db
  {
    var d, b := LockedDb(v, i), Batch(v);
    if b == [] then Cleared(d, i, v.x.failures)
    else if accept then Cleared(Advance(d, i, Last(b)), i, v.x.failures)
    else if GivesUp(v.x) then GivenUp(d, i, b, v.x.failures + 1)
    else SaveFailures(d, i, v.x.failures + 1, backoff)
  }

  /** The whole outcome of a poll by an instance that can take the lock. */
  lemma PollOutcome(v: View, i: Holder, accept: bool, backoff: Option<int>)
    requires CanLead(v, i)
    ensures var r := PollView(v, i, accept, backoff);
            && r.db == PollDb(v, i, accept, backoff)
            && Holds(r.db, i) && r.x.phase.Idle? && r.x.cfg == v.x.cfg && r.db.log == v.db.log
            && r.x.lockedAt == v.db.now
            && Cursor(r.db) == (if Moves(v, accept) then Last(Batch(v)) else Cursor(v.db))
            && r.x.failures == (if Batch(v) == [] || Moves(v, accept) then 0 else v.x.failures + 1)
            && (Batch(v) != [] || v.x.failures > 0 ==> r.db.row.value.failures == r.x.failures)
            && LetterEvents(r.db.letters) ==
               LetterEvents(v.db.letters) + if Moves(v, accept) && !accept then set k | k in Batch(v) else {}
    ensures Moves(v, accept) <==>
            Batch(v) != [] && (accept || 0 < v.x.cfg.maxRetries <= v.x.failures + 1)
    ensures var r := PollView(v, i, accept, backoff);
            Batch(v) != [] || v.x.failures > 0 ==>
            r.db.row.value.backoff == if Batch(v) == [] || Moves(v, accept) then None else backoff
  {
    LockPart(v, i, accept, backoff);
    var d := LockedDb(v, i);
    var b := Batch(v);
    var w0 := View(d, v.x.(phase := HasCursor(Cursor(d)), lockedAt := v.db.now));
    var w := Do(w0, i, FetchBatch(true));
    assert Continue(w0, i, accept, backoff) == Continue(w, i, accept, backoff);
    if b == [] {
      EmptyPart(w, i, accept, backoff);
    } else {
      assert w == View(d, w0.x.(phase := HasBatch(Cursor(d), b)));
      if accept {
        AcceptPart(w, i, backoff);
      } else if GivesUp(v.x) {
        GiveUpPart(w, i, backoff);
        InsertLettersEvents(d, b, v.x.failures + 1);
      } else {
        RetryPart(w, i, backoff);
      }
    }
  }

  /** The dead letters of a poll that gives up: one for each event of the batch
      in order, under fresh ids, stamped with the clock and the attempts made. */
  lemma PollLetters(v: View, i: Holder, backoff: Option<int>, n: nat)
    requires CanLead(v, i) && Moves(v, false) && n < |Batch(v)|
    ensures var r, o := PollView(v, i, false, backoff), |v.db.letters|;
            && |r.db.letters| == o + |Batch(v)| && r.db.letters[..o] == v.db.letters
            && r.db.letters[o + n] == Letter(v.db.nextLetter + n, Batch(v)[n], v.x.failures + 1, v.db.now)
  {
    PollOutcome(v, i, false, backoff);
    InsertLettersEffect(LockedDb(v, i), Batch(v), v.x.failures + 1);
  }

  /** A release by the holder lets any other idle instance lead at once, from
      the same position; a release by anyone else changes no table. */
  lemma ReleaseFrees(s: Sys, i: Holder, r: Reply, j: Holder)
    requires Enabled(s, Step.Instance(i, DoRelease(r))) && !r.Refused?
    requires j in s.insts && j != i && s.insts[j].phase.Idle?
    ensures var e := Apply(s, Step.Instance(i, DoRelease(r)));
            && j in e.insts && (Holds(s.db, i) ==> CanLead(View(e.db, e.insts[j]), j) && !Holds(e.db, i))
            && (!Holds(s.db, i) ==> e.db == s.db)
            && Cursor(e.db) == Cursor(s.db) && e.db.log == s.db.log && e.db.letters == s.db.letters
  {
  }

  // -------------------------------------------------------------------------
  // Progress
  // -------------------------------------------------------------------------

  /** One poll outside backoff, some time after the previous one. */
  datatype Attempt = Attempt(wait: nat, accept: bool, backoff: Option<int>)

  function Later(v: View, wait: nat): View
  {
    v.(db := v.db.(now := v.db.now + wait))
  }

  function PollAll(v: View, i: Holder, attempts: seq<Attempt>): View
    decreases |attempts|
  {
    if attempts == [] || !v.x.phase.Idle? then v
    else PollAll(PollView(Later(v, attempts[0].wait), i, attempts[0].accept, attempts[0].backoff), i, attempts[1..])
  }

  /** The number of batches of `b` in `n` events: n / b, rounded up. */
  function Ceil(n: nat, b: nat): nat
    requires b > 0
  {
    if n == 0 then 0 else 1 + Ceil(if n <= b then 0 else n - b, b)
  }

  lemma {:induction false} CeilRoundsUp(n: nat, b: nat)
    requires b > 0
    ensures b * (Ceil(n, b) - 1) < n <= b * Ceil(n, b) || n == Ceil(n, b) == 0
  {
    if n > b {
      CeilRoundsUp(n - b, b);
      var c := Ceil(n - b, b);
      assert b * (c + 1) == b * c + b && b * (c - 1) == b * c - b;
    } else if n > 0 {
      assert Ceil(n, b) == 1 + Ceil(0, b) == 1;
    }
  }

  /** Polls needed in the worst case: the full retries of every batch left,
      less those already spent on the first. */
  function Measure(v: View): int
    requires v.x.cfg.batchSize > 0
  {
    v.x.cfg.maxRetries * Ceil(Backlog(v), v.x.cfg.batchSize) - v.x.failures
  }

  ghost predicate Draining(v: View, i: Holder)
  {
    && CanLead(v, i) && Sorted(v.db.log)
    && v.x.cfg.batchSize > 0 && v.x.failures < v.x.cfg.maxRetries
  }

  lemma BatchBacklog(v: View)
    requires v.x.cfg.batchSize > 0 && Sorted(v.db.log)
    ensures Batch(v) == [] <==> Backlog(v) == 0
    ensures Batch(v) != [] ==>
            |Above(v.db.log, Last(Batch(v)))| ==
            if Backlog(v) <= v.x.cfg.batchSize then 0 else Backlog(v) - v.x.cfg.batchSize
  {
    if Batch(v) != [] {
      AdvanceDropsBatch(v.db.log, Cursor(v.db), v.x.cfg.batchSize);
    }
  }

  /** Each poll lowers the measure, and a failing one lowers it by exactly one. */
  lemma PollLowersMeasure(v: View, i: Holder, a: Attempt)
    requires Draining(v, i)
    ensures var r := PollView(Later(v, a.wait), i, a.accept, a.backoff);
            && Draining(r, i)
            && (Backlog(v) == 0 ==> Backlog(r) == 0 && r.x.failures == 0)
            && (Backlog(v) > 0 ==> Measure(r) < Measure(v) && (!a.accept ==> Measure(r) == Measure(v) - 1))
  {
    var w := Later(v, a.wait);
    assert LockIsFree(v.db) ==> LockIsFree(w.db);
    PollOutcome(w, i, a.accept, a.backoff);
    BatchBacklog(v);
    var r := PollView(w, i, a.accept, a.backoff);
    if Backlog(v) > 0 {
      var R, c := v.x.cfg.maxRetries, Ceil(Backlog(v), v.x.cfg.batchSize);
      assert R * (c - 1) == R * c - R;
    }
  }

  lemma MeasurePositive(v: View, i: Holder)
    requires Draining(v, i)
    ensures Measure(v) > 0 <==> Backlog(v) > 0
  {
  }

  /** With R retries allowed, a sole holder that starts with no failures drains
      a backlog of n events in at most R * ceil(n / BatchSize) polls outside
      backoff, whatever the handler answers and however long the pauses. */
  lemma {:induction false} BacklogDrains(v: View, i: Holder, attempts: seq<Attempt>)
    requires Draining(v, i) && |attempts| >= Measure(v)
    ensures Backlog(PollAll(v, i, attempts)) == 0
    decreases |attempts|
  {
    MeasurePositive(v, i);
    if attempts != [] {
      var a := attempts[0];
      PollLowersMeasure(v, i, a);
      var r := PollView(Later(v, a.wait), i, a.accept, a.backoff);
      MeasurePositive(r, i);
      BacklogDrains(r, i, attempts[1..]);
    }
  }

  /** The bound is exact: a handler that always fails leaves events behind
      after any fewer polls. */
  lemma {:induction false} BoundIsTight(v: View, i: Holder, attempts: seq<Attempt>)
    requires Draining(v, i) && |attempts| < Measure(v)
    requires forall a :: a in attempts ==> !a.accept
    ensures Backlog(PollAll(v, i, attempts)) > 0
    decreases |attempts|
  {
    MeasurePositive(v, i);
    if attempts != [] {
      var a := attempts[0];
      PollLowersMeasure(v, i, a);
      BoundIsTight(PollView(Later(v, a.wait), i, a.accept, a.backoff), i, attempts[1..]);
    }
  }

  /** The instance a poll leaves behind. */
  function PollInstance(v: View, accept: bool): Instance
  {
    v.x.(failures := if Batch(v) == [] || Moves(v, accept) then 0 else v.x.failures + 1, lockedAt := v.db.now)
  }

  lemma PollClosed(v: View, i: Holder, accept: bool, backoff: Option<int>)
    requires CanLead(v, i)
    ensures LockedDb(v, i).row.Some? && LockedDb(v, i).now == v.db.now
    ensures NextRows(LockedDb(v, i), v.x.cfg.batchSize) == Batch(v)
    ensures PollView(v, i, accept, backoff) == View(PollDb(v, i, accept, backoff), PollInstance(v, accept))
  {
    PollOutcome(v, i, accept, backoff);
    LockPart(v, i, accept, backoff);
  }

  /** The tables once a batch is accepted, if there is one. */
  function Passed(db: Db, i: Holder, b: seq<Key>): Db
  {
    if b == [] then db else Advance(db, i, Last(b))
  }

  /** A poll whose batch does not fail, in terms of what the lock step left. */
  lemma QuietPoll(v: View, i: Holder, accept: bool, backoff: Option<int>)
    requires CanLead(v, i)
    requires NextRows(LockedDb(v, i), v.x.cfg.batchSize) == [] || accept
    ensures var d := LockedDb(v, i);
            var b := NextRows(d, v.x.cfg.batchSize);
            PollView(v, i, accept, backoff) ==
            View(Cleared(Passed(d, i, b), i, v.x.failures), v.x.(failures := 0, lockedAt := d.now))
  {
    PollClosed(v, i, accept, backoff);
  }

  /** A poll whose batch fails, likewise. */
  lemma FailedPoll(v: View, i: Holder, accept: bool, backoff: Option<int>)
    requires CanLead(v, i)
    requires NextRows(LockedDb(v, i), v.x.cfg.batchSize) != [] && !accept
    ensures var d := LockedDb(v, i);
            var b := NextRows(d, v.x.cfg.batchSize);
            PollView(v, i, accept, backoff) ==
            if GivesUp(v.x)
            then View(GivenUp(d, i, b, v.x.failures + 1), v.x.(failures := 0, lockedAt := d.now))
            else View(SaveFailures(d, i, v.x.failures + 1, backoff),
                      v.x.(failures := v.x.failures + 1, lockedAt := d.now))
  {
    PollClosed(v, i, accept, backoff);
  }

  /** A poll that finds the lock taken changes nothing. */
  lemma PollShutOut(v: View, i: Holder, accept: bool, backoff: Option<int>)
    requires v.x.phase.Idle? && !CanLead(v, i)
    ensures PollView(v, i, accept, backoff) == v
  {
    var v1 := Do(v, i, DoRenew(Reported));
    assert v1 == View(v.db, v.x.(phase := Acquiring));
    assert Continue(v1, i, accept, backoff) == Continue(Do(v1, i, DoAcquire(Reported)), i, accept, backoff);
  }

  // -------------------------------------------------------------------------
  // Every event ends up handled
  // -------------------------------------------------------------------------

  lemma {:induction false} ContinueEndsIdle(v: View, i: Holder, accept: bool, backoff: Option<int>)
    requires !v.x.phase.Stopped?
    ensures Continue(v, i, accept, backoff).x.phase.Idle?
    decreases Remaining(v.x.phase)
  {
    if !v.x.phase.Idle? {
      ContinueEndsIdle(Do(v, i, NextAct(v.x.phase, accept, backoff)), i, accept, backoff);
    }
  }

  /** Polls with pauses between them are a run of the protocol. */
  lemma {:induction false} PollAllIsRun(s: Sys, i: Holder, attempts: seq<Attempt>) returns (steps: seq<Step>)
    requires i in s.insts && s.insts[i].phase.Idle?
    ensures IsRun(s, steps) && AppendsSafe(s, steps) && i in After(s, steps).insts
    ensures View(After(s, steps).db, After(s, steps).insts[i]) == PollAll(View(s.db, s.insts[i]), i, attempts)
    decreases |attempts|
  {
    steps := [];
    if attempts != [] {
      var a := attempts[0];
      var s1 := Apply(s, Tick(a.wait));
      var poll := PollIsRun(s1, i, a.accept, a.backoff);
      var s2 := After(s1, poll);
      ContinueEndsIdle(Do(View(s1.db, s1.insts[i]), i, DoRenew(Reported)), i, a.accept, a.backoff);
      var rest := PollAllIsRun(s2, i, attempts[1..]);
      RunConcat(s1, poll, rest);
      RunCons(s, Tick(a.wait), poll + rest);
      steps := [Tick(a.wait)] + (poll + rest);
    }
  }

  lemma {:induction false} PollAllKeepsLog(v: View, i: Holder, attempts: seq<Attempt>)
    requires Draining(v, i)
    ensures PollAll(v, i, attempts).db.log == v.db.log
    decreases |attempts|
  {
    if attempts != [] {
      var a := attempts[0];
      PollLowersMeasure(v, i, a);
      PollOutcome(Later(v, a.wait), i, a.accept, a.backoff);
      PollAllKeepsLog(PollView(Later(v, a.wait), i, a.accept, a.backoff), i, attempts[1..]);
    }
  }

  /** Safety and progress together: from any state the protocol keeps, a sole
      lock holder that polls often enough leaves every event of the log
      accepted, or a dead letter, or replayed or purged from there. */
  lemma EveryEventHandled(s: Sys, i: Holder, attempts: seq<Attempt>) returns (steps: seq<Step>)
    requires Inv(s) && i in s.insts && Draining(View(s.db, s.insts[i]), i)
    requires |attempts| >= Measure(View(s.db, s.insts[i]))
    ensures IsRun(s, steps) && i in After(s, steps).insts
    ensures View(After(s, steps).db, After(s, steps).insts[i]) == PollAll(View(s.db, s.insts[i]), i, attempts)
    ensures forall k :: k in s.db.log ==> k in Accounted(After(s, steps))
  {
    var v := View(s.db, s.insts[i]);
    steps := PollAllIsRun(s, i, attempts);
    InvRun(s, steps);
    BacklogDrains(v, i, attempts);
    PollAllKeepsLog(v, i, attempts);
    var e := After(s, steps);
    AboveMembers(e.db.log, Cursor(e.db));
    forall k | k in s.db.log ensures k in Accounted(e) {
      assert k !in Above(e.db.log, Cursor(e.db));
      Trichotomy(k, Cursor(e.db));
    }
  }

  // -------------------------------------------------------------------------
  // Replay
  // -------------------------------------------------------------------------

  /** The dead letters left once each listed one has had its verdict. */
  function ReplayLetters(letters: seq<Letter>, listed: seq<Letter>, verdicts: seq<bool>): seq<Letter>
    requires |listed| == |verdicts|
    decreases |listed|
  {
    if listed == [] then letters
    else ReplayLetters(if verdicts[0] then DeleteLetter(letters, listed[0].id) else letters, listed[1..], verdicts[1..])
  }

  function Accepted(verdicts: seq<bool>): set<nat>
  {
    set n: nat | n < |verdicts| && verdicts[n]
  }

  ghost predicate AcceptedId(listed: seq<Letter>, verdicts: seq<bool>, id: nat)
    requires |listed| == |verdicts|
  {
    exists n :: n in Accepted(verdicts) && listed[n].id == id
  }

  lemma AcceptedIdCons(listed: seq<Letter>, verdicts: seq<bool>, id: nat)
    requires |listed| == |verdicts| > 0
    ensures AcceptedId(listed, verdicts, id) <==>
            (verdicts[0] && listed[0].id == id) || AcceptedId(listed[1..], verdicts[1..], id)
  {
    if verdicts[0] && listed[0].id == id {
      assert 0 in Accepted(verdicts);
    } else if AcceptedId(listed, verdicts, id) {
      var n :| n in Accepted(verdicts) && listed[n].id == id;
      assert n - 1 in Accepted(verdicts[1..]) && listed[1..][n - 1].id == id;
    }
    if AcceptedId(listed[1..], verdicts[1..], id) {
      var n :| n in Accepted(verdicts[1..]) && listed[1..][n].id == id;
      assert n + 1 in Accepted(verdicts) && listed[n + 1].id == id;
    }
  }

  /** A replay removes exactly the letters accepted on it. */
  lemma {:induction false} ReplayLettersMembers(letters: seq<Letter>, listed: seq<Letter>, verdicts: seq<bool>)
    requires |listed| == |verdicts|
    ensures forall l :: l in ReplayLetters(letters, listed, verdicts) <==>
                        l in letters && !AcceptedId(listed, verdicts, l.id)
    decreases |listed|
  {
    if listed != [] {
      DeleteLetterMembers(letters, listed[0].id);
      var left := if verdicts[0] then DeleteLetter(letters, listed[0].id) else letters;
      ReplayLettersMembers(left, listed[1..], verdicts[1..]);
      forall l: Letter ensures AcceptedId(listed, verdicts, l.id) <==>
                               (verdicts[0] && listed[0].id == l.id) || AcceptedId(listed[1..], verdicts[1..], l.id)
      {
        AcceptedIdCons(listed, verdicts, l.id);
      }
    }
  }

  /** The events accepted on replay. */
  ghost function ReplayedEvents(listed: seq<Letter>, verdicts: seq<bool>): set<Key>
    requires |listed| == |verdicts|
  {
    set n | 0 <= n < |listed| && verdicts[n] :: listed[n].event
  }

  lemma ReplayedCons(listed: seq<Letter>, verdicts: seq<bool>)
    requires |listed| == |verdicts| > 0
    ensures ReplayedEvents(listed, verdicts)
         == (if verdicts[0] then {listed[0].event} else {}) + ReplayedEvents(listed[1..], verdicts[1..])
  {
    forall k | k in ReplayedEvents(listed, verdicts) && !(verdicts[0] && k == listed[0].event)
      ensures k in ReplayedEvents(listed[1..], verdicts[1..])
    {
      var n :| 0 <= n < |listed| && verdicts[n] && listed[n].event == k;
      assert verdicts[1..][n - 1] && listed[1..][n - 1].event == k;
    }
    forall k | k in ReplayedEvents(listed[1..], verdicts[1..]) ensures k in ReplayedEvents(listed, verdicts) {
      var n :| 0 <= n < |listed| - 1 && verdicts[1..][n] && listed[1..][n].event == k;
      assert verdicts[n + 1] && listed[n + 1].event == k;
    }
  }

  /** The replay loop is a run: acceptances and deletions of listed letters. */
  lemma {:induction false} ReplayLoopIsRun(s: Sys, listed: seq<Letter>, verdicts: seq<bool>)
    returns (steps: seq<Step>)
    requires |listed| == |verdicts| && forall l :: l in listed ==> l in s.listed
    ensures IsRun(s, steps) && AppendsSafe(s, steps)
    ensures forall t :: t in steps ==> t.ReplayAccept? || t.ReplayDelete?
    ensures After(s, steps) == s.(db := s.db.(letters := ReplayLetters(s.db.letters, listed, verdicts)),
                                  replayed := s.replayed + ReplayedEvents(listed, verdicts))
    decreases |listed|
  {
    steps := [];
    if listed != [] {
      ReplayedCons(listed, verdicts);
      if verdicts[0] {
        var s1 := Apply(s, ReplayAccept(listed[0]));
        var s2 := Apply(s1, ReplayDelete(listed[0]));
        var rest := ReplayLoopIsRun(s2, listed[1..], verdicts[1..]);
        RunCons(s1, ReplayDelete(listed[0]), rest);
        RunCons(s, ReplayAccept(listed[0]), [ReplayDelete(listed[0])] + rest);
        steps := [ReplayAccept(listed[0])] + ([ReplayDelete(listed[0])] + rest);
      } else {
        steps := ReplayLoopIsRun(s, listed[1..], verdicts[1..]);
      }
    }
  }

  /** A replay is a run of the protocol: it lists the letters there are, then
      accepts and deletes.  So it keeps every event accounted for, and the
      letters it deletes are those of events accepted again. */
  lemma ReplayIsRun(s: Sys, listed: seq<Letter>, verdicts: seq<bool>) returns (steps: seq<Step>)
    requires |listed| == |verdicts| && forall l :: l in listed ==> l in s.db.letters
    ensures IsRun(s, steps) && AppendsSafe(s, steps)
    ensures forall t :: t in steps ==> t.ListLetters? || t.ReplayAccept? || t.ReplayDelete?
    ensures var e := After(s, steps);
            && e.db == s.db.(letters := ReplayLetters(s.db.letters, listed, verdicts))
            && e.replayed == s.replayed + ReplayedEvents(listed, verdicts)
            && e.insts == s.insts && e.accepted == s.accepted && e.rejected == s.rejected && e.purged == s.purged
    ensures Inv(s) ==> Inv(After(s, steps))
  {
    var s1 := Apply(s, ListLetters);
    var rest := ReplayLoopIsRun(s1, listed, verdicts);
    steps := [ListLetters] + rest;
    RunCons(s, ListLetters, rest);
    if Inv(s) { InvRun(s, steps); }
  }

  // -------------------------------------------------------------------------
  // The objects
  // -------------------------------------------------------------------------

  /** The tables of one consumer name, changed by the generated statements. */
  class Database {
    var now: int
    var row: Option<Row>
    var log: seq<Key>
    var letters: seq<Letter>
    var nextLetter: nat

    function Tables(): Db
      reads this
    {
      Db(now, row, log, letters, nextLetter)
    }

    method RenewConsumerLock(i: Holder, ttl: nat) returns (affected: bool)
      modifies this
      ensures Tables() == Renew(old(Tables()), i, ttl) && affected == Holds(old(Tables()), i)
    {
      affected := row.Some? && row.value.holder == Some(i);
      if affected {
        row := Some(row.value.(expires := Some(now + ttl)));
      }
    }

    method TryAcquireConsumerLock(i: Holder, ttl: nat) returns (affected: bool)
      modifies this
      ensures Tables() == Acquire(old(Tables()), i, ttl) && affected == LockIsFree(old(Tables()))
    {
      affected := row.None? || row.value.expires.None? || row.value.expires.value < now;
      if row.None? {
        row := Some(Row(START, Some(i), Some(now + ttl), 0, None));
      } else if affected {
        row := Some(row.value.(holder := Some(i), expires := Some(now + ttl)));
      }
    }

    method ReleaseConsumerLock(i: Holder)
      modifies this
      ensures Tables() == Release(old(Tables()), i)
    {
      if row.Some? && row.value.holder == Some(i) {
        row := Some(row.value.(holder := None, expires := None));
      }
    }

    method AdvanceConsumerCursor(i: Holder, k: Key)
      modifies this
      ensures Tables() == Advance(old(Tables()), i, k)
    {
      if row.Some? && row.value.holder == Some(i) {
        row := Some(row.value.(cursor := k, failures := 0, backoff := None));
      }
    }

    method UpdateConsumerFailureState(i: Holder, failures: nat, backoff: Option<int>)
      modifies this
      ensures Tables() == SaveFailures(old(Tables()), i, failures, backoff)
    {
      if row.Some? && row.value.holder == Some(i) {
        row := Some(row.value.(failures := failures, backoff := backoff));
      }
    }

    method InsertDeadLetter(k: Key, retryCount: nat)
      modifies this
      ensures Tables() == InsertLetters(old(Tables()), [k], retryCount)
    {
      letters := letters + [Letter(nextLetter, k, retryCount, now)];
      nextLetter := nextLetter + 1;
    }

    method DeleteDeadLetter(id: nat)
      modifies this
      ensures forall l :: l in letters <==> l in old(letters) && l.id != id
      ensures Tables() == old(Tables()).(letters := DeleteLetter(old(letters), id))
    {
      DeleteLetterMembers(letters, id);
      letters := DeleteLetter(letters, id);
    }
  }

  lemma {:induction false} InsertLettersSnoc(db: Db, b: seq<Key>, k: Key, n: nat)
    ensures InsertLetters(db, b + [k], n) == InsertLetters(InsertLetters(db, b, n), [k], n)
    decreases |b|
  {
    if b == [] {
      assert b + [k] == [k];
    } else {
      var l := Letter(db.nextLetter, b[0], n, db.now);
      InsertLettersSnoc(db.(letters := db.letters + [l], nextLetter := db.nextLetter + 1), b[1..], k, n);
      assert (b + [k])[1..] == b[1..] + [k];
    }
  }

  class Consumer {
    const db: Database
    const holder: Holder
    const cfg: Config
    var consecutiveFailures: nat
    var backoffUntil: Option<int>
    ghost var lockedAt: int

    constructor (db: Database, holder: Holder, cfg: Config)
      ensures this.db == db && this.holder == holder && this.cfg == cfg
      ensures consecutiveFailures == 0 && backoffUntil == None
    {
      this.db, this.holder, this.cfg := db, holder, cfg;
      consecutiveFailures, backoffUntil := 0, None;
    }

    ghost function State(): View
      reads this, db
    {
      View(db.Tables(), Instance.Instance(cfg, Idle, consecutiveFailures, lockedAt))
    }

    method TryAcquireOrRenew() returns (isHolder: bool)
      modifies db
      ensures isHolder == CanLead(old(State()), holder)
      ensures db.Tables() == if isHolder then LockedDb(old(State()), holder) else old(db.Tables())
    {
      isHolder := db.RenewConsumerLock(holder, cfg.ttl);
      if !isHolder {
        isHolder := db.TryAcquireConsumerLock(holder, cfg.ttl);
      }
    }

    /** Reads the cursor and the batch after it, calls the handler, advances.
        Without a row there is no cursor to read. */
    method ProcessBatch(accept: bool) returns (failed: bool)
      modifies db
      ensures var t, b := old(db.Tables()), NextRows(old(db.Tables()), cfg.batchSize);
              && failed == (t.row.None? || (b != [] && !accept))
              && db.Tables() == if failed then t else Passed(t, holder, b)
    {
      if db.row.None? { return true; }
      var rows := Fetch(db.log, db.row.value.cursor, cfg.batchSize);
      if |rows| == 0 { return false; }
      if !accept { return true; }
      db.AdvanceConsumerCursor(holder, rows[|rows| - 1]);
      return false;
    }

    /** One transaction: a dead letter per row of the batch, then the advance. */
    method DeadLetterCurrentBatch()
      modifies db
      ensures var t := old(db.Tables());
              db.Tables() == DeadLettered(t, holder, NextRows(t, cfg.batchSize), consecutiveFailures)
    {
      if db.row.None? { return; }
      var rows := Fetch(db.log, db.row.value.cursor, cfg.batchSize);
      if |rows| == 0 { return; }
      for n := 0 to |rows|
        invariant db.Tables() == InsertLetters(old(db.Tables()), rows[..n], consecutiveFailures)
      {
        InsertLettersSnoc(old(db.Tables()), rows[..n], rows[n], consecutiveFailures);
        assert rows[..n + 1] == rows[..n] + [rows[n]];
        db.InsertDeadLetter(rows[n], consecutiveFailures);
      }
      assert rows[..|rows|] == rows;
      db.AdvanceConsumerCursor(holder, rows[|rows| - 1]);
    }

    /** The success path: the failure state is written back if there was one. */
    method ClearFailures()
      modifies this, db
      ensures lockedAt == old(lockedAt) && consecutiveFailures == 0
      ensures backoffUntil == if old(consecutiveFailures) > 0 then None else old(backoffUntil)
      ensures db.Tables() == Cleared(old(db.Tables()), holder, old(consecutiveFailures))
    {
      if consecutiveFailures > 0 {
        consecutiveFailures, backoffUntil := 0, None;
        db.UpdateConsumerFailureState(holder, 0, None);
      }
    }

    /** `clock` is the local clock, `accept` the handler's verdict and `delay`
        the jittered backoff, absent when backoff is off. */
    method Poll(clock: int, accept: bool, delay: Option<nat>)
      modifies this, db
      ensures old(backoffUntil).Some? && clock < old(backoffUntil).value ==>
              State() == old(State()) && backoffUntil == old(backoffUntil)
      ensures !(old(backoffUntil).Some? && clock < old(backoffUntil).value) ==>
              State() == PollView(old(State()), holder, accept,
                                  if delay.Some? then Some(clock + delay.value) else old(backoffUntil))
      ensures consecutiveFailures < old(consecutiveFailures) ==> backoffUntil == None
      ensures consecutiveFailures > old(consecutiveFailures) && delay.Some? ==>
              backoffUntil == Some(clock + delay.value)
    {
      if backoffUntil.Some? && clock < backoffUntil.value { return; }
      ghost var v := State();
      ghost var backoff := if delay.Some? then Some(clock + delay.value) else backoffUntil;
      var isHolder := TryAcquireOrRenew();
      if !isHolder {
        PollShutOut(v, holder, accept, backoff);
        return;
      }
      lockedAt := db.now;
      var failed := ProcessBatch(accept);
      if failed {
        FailedPoll(v, holder, accept, backoff);
        RecordFailure(clock, delay);
      } else {
        QuietPoll(v, holder, accept, backoff);
        ClearFailures();
      }
    }

    /** The failure path: dead-letter at the retry limit, else back off. */
    method RecordFailure(clock: int, delay: Option<nat>)
      modifies this, db
      ensures lockedAt == old(lockedAt)
      ensures var v, b := old(State()), NextRows(old(db.Tables()), cfg.batchSize);
              if GivesUp(v.x) then
                && consecutiveFailures == 0 && backoffUntil == None
                && db.Tables() == GivenUp(v.db, holder, b, v.x.failures + 1)
              else
                && consecutiveFailures == v.x.failures + 1
                && backoffUntil == (if delay.Some? then Some(clock + delay.value) else old(backoffUntil))
                && db.Tables() == SaveFailures(v.db, holder, v.x.failures + 1, backoffUntil)
    {
      consecutiveFailures := consecutiveFailures + 1;
      if cfg.maxRetries > 0 && consecutiveFailures >= cfg.maxRetries {
        DeadLetterCurrentBatch();
        consecutiveFailures, backoffUntil := 0, None;
        db.UpdateConsumerFailureState(holder, 0, None);
        return;
      }
      if delay.Some? {
        backoffUntil := Some(clock + delay.value);
      }
      db.UpdateConsumerFailureState(holder, consecutiveFailures, backoffUntil);
    }

    /** Offers each listed letter to the handler and deletes the accepted ones;
        a letter that fails again stays exactly as it was. */
    method ReplayDeadLetters(listed: seq<Letter>, verdicts: seq<bool>) returns (replayed: nat, failed: nat)
      requires |verdicts| == |listed|
      modifies db
      ensures db.Tables() == old(db.Tables()).(letters := db.letters)
      ensures replayed + failed == |listed|
      ensures replayed == |Accepted(verdicts)|
      ensures db.letters == ReplayLetters(old(db.letters), listed, verdicts)
      ensures forall l :: l in db.letters <==> l in old(db.letters) && !AcceptedId(listed, verdicts, l.id)
    {
      replayed, failed := 0, 0;
      for n := 0 to |listed|
        invariant db.Tables() == old(db.Tables()).(letters := db.letters)
        invariant replayed + failed == n && replayed == |Accepted(verdicts[..n])|
        invariant ReplayLetters(db.letters, listed[n..], verdicts[n..])
               == ReplayLetters(old(db.letters), listed, verdicts)
      {
        assert Accepted(verdicts[..n + 1]) == Accepted(verdicts[..n]) + if verdicts[n] then {n} else {};
        assert listed[n..][1..] == listed[n + 1..] && verdicts[n..][1..] == verdicts[n + 1..];
        if !verdicts[n] {
          failed := failed + 1;
          continue;
        }
        db.DeleteDeadLetter(listed[n].id);
        replayed := replayed + 1;
      }
      assert verdicts[..|listed|] == verdicts;
      ReplayLettersMembers(old(db.letters), listed, verdicts);
    }
  }
}
