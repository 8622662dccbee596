/** What the protocol of store/consumer.go promises about each single event:
    exactly when polls accept or dead-letter it at most once and leave it
    behind the cursor, and the ways in which they do so again. */
module Deliveries {
  import opened Basics
  import opened EventLog
  import opened ConsumerDb
  import opened Protocol
  import opened Consumers

  // -------------------------------------------------------------------------
  // Once
  // -------------------------------------------------------------------------

  ghost predicate HolderHandled(s: Sys)
  {
    && s.db.row.Some? && s.db.row.value.holder.Some? && s.db.row.value.holder.value in s.insts
    && s.insts[s.db.row.value.holder.value].phase.Handled?
  }

  /** The holder has had the event accepted and is about to advance past it. */
  ghost predicate Pending(s: Sys, k: Key)
  {
    HolderHandled(s) && k in s.insts[s.db.row.value.holder.value].phase.b
  }

  /** Every accepted event and every dead letter is behind the cursor, but for
      the batch the holder is about to pass, and no event is both. */
  ghost predicate Settled(s: Sys)
  {
    && (forall k :: k in s.accepted ==> AtOrBefore(k, Cursor(s.db)) || Pending(s, k))
    && (forall k :: k in LetterEvents(s.db.letters) ==> AtOrBefore(k, Cursor(s.db)))
    && s.accepted !! LetterEvents(s.db.letters)
  }

  /** What was listed for replay, replayed or purged is behind the cursor. */
  ghost predicate Past(s: Sys)
  {
    && (forall l :: l in s.listed ==> AtOrBefore(l.event, Cursor(s.db)))
    && (forall k :: k in s.replayed || k in s.purged ==> AtOrBefore(k, Cursor(s.db)))
  }

  /** Then whatever a holder is about to offer or to dead-letter is new: not
      accepted, no dead letter, and not replayed or purged from there. */
  lemma OfferedOnce(s: Sys, i: Holder, k: Key)
    requires FenceInv(s) && Settled(s) && Past(s) && i in s.insts && Holds(s.db, i)
    requires (s.insts[i].phase.HasBatch? || s.insts[i].phase.DeadBatch?) && k in s.insts[i].phase.b
    ensures k !in Accounted(s)
  {
    assert Fenced(s.db, i, s.insts[i]);
  }

  /** A holder whose batch is accepted neither crashes, nor is refused its
      advance, nor loses the lock, before it has advanced. */
  ghost predicate Firm(s: Sys, t: Step)
    requires Enabled(s, t)
  {
    t.Instance? ==>
      match t.a
      case DoAdvance(r) => r.Refused? ==> !Holds(s.db, t.i)
      case Crash => s.insts[t.i].phase.Handled? ==> !Holds(s.db, t.i)
      case DoAcquire(r) => !r.Refused? && LockIsFree(s.db) ==> !HolderHandled(s)
      case _ => true
  }

  /** What keeps states settled: besides, verdicts and dead letters come from
      the lock holder, or are of past events and not of the other kind. */
  ghost predicate Orderly(s: Sys, t: Step)
    requires Enabled(s, t)
  {
    && Firm(s, t)
    && (t.Instance? && !Holds(s.db, t.i) ==>
          match t.a
          case Handle(ok) =>
            ok ==> forall k :: k in s.insts[t.i].phase.b ==>
                     (AtOrBefore(k, Cursor(s.db)) || Pending(s, k)) && k !in LetterEvents(s.db.letters)
          case DeadCommit(r) =>
            !r.Refused? ==> forall k :: k in s.insts[t.i].phase.b ==> AtOrBefore(k, Cursor(s.db)) && k !in s.accepted
          case _ => true)
  }

  /** A batch past the handler was accepted. */
  ghost predicate HandledAccepted(s: Sys)
  {
    forall i :: i in s.insts && s.insts[i].phase.Handled? ==> forall k :: k in s.insts[i].phase.b ==> k in s.accepted
  }

  lemma HandledStep(s: Sys, t: Step)
    requires HandledAccepted(s) && Enabled(s, t)
    ensures HandledAccepted(Apply(s, t))
  {
  }

  /** An event the holder has had accepted is ahead of the cursor. */
  lemma HandledAhead(s: Sys) returns (k: Key)
    requires FenceInv(s) && HandledAccepted(s) && HolderHandled(s)
    ensures k in s.accepted && Before(Cursor(s.db), k) && Pending(s, k)
  {
    var i := s.db.row.value.holder.value;
    assert Fenced(s.db, i, s.insts[i]);
    k := s.insts[i].phase.b[0];
  }

  lemma UpToLast(b: seq<Key>)
    requires b != [] && Sorted(b)
    ensures forall k :: k in b ==> AtOrBefore(k, Last(b))
  {
  }

  lemma VerdictIff(s: Sys, i: Holder)
    requires FenceInv(s) && Settled(s) && Enabled(s, Step.Instance(i, Handle(true)))
    ensures var t := Step.Instance(i, Handle(true));
            Settled(Apply(s, t)) <==> Orderly(s, t)
  {
    var t := Step.Instance(i, Handle(true));
    var e, b := Apply(s, t), s.insts[i].phase.b;
    assert Fenced(s.db, i, s.insts[i]);
    assert e.accepted == s.accepted + set k | k in b;
    if Holds(s.db, i) {
      forall k | k in e.accepted ensures AtOrBefore(k, Cursor(e.db)) || Pending(e, k) {}
    } else {
      assert forall k :: Pending(e, k) <==> Pending(s, k);
      assert forall k :: k in b ==> k in e.accepted;
    }
  }

  lemma AdvanceIff(s: Sys, i: Holder, r: Reply)
    requires FenceInv(s) && Settled(s) && HandledAccepted(s) && Enabled(s, Step.Instance(i, DoAdvance(r)))
    ensures var t := Step.Instance(i, DoAdvance(r));
            Settled(Apply(s, t)) <==> Orderly(s, t)
  {
    var t := Step.Instance(i, DoAdvance(r));
    var e, b := Apply(s, t), s.insts[i].phase.b;
    assert Fenced(s.db, i, s.insts[i]);
    if !Holds(s.db, i) {
      assert forall k :: Pending(e, k) <==> Pending(s, k);
    } else if r.Refused? {
      var k := HandledAhead(s);
      assert k in e.accepted && !Pending(e, k);
    } else {
      UpToLast(b);
      assert Before(Cursor(s.db), Last(b)) by { assert Last(b) in b; }
    }
  }

  lemma DeadCommitIff(s: Sys, i: Holder, r: Reply)
    requires FenceInv(s) && Settled(s) && Enabled(s, Step.Instance(i, DeadCommit(r)))
    ensures var t := Step.Instance(i, DeadCommit(r));
            Settled(Apply(s, t)) <==> Orderly(s, t)
  {
    var t := Step.Instance(i, DeadCommit(r));
    var e, b := Apply(s, t), s.insts[i].phase.b;
    assert Fenced(s.db, i, s.insts[i]);
    ActLetters(s.db, i, s.insts[i], DeadCommit(r));
    InsertLettersEffect(s.db, b, s.insts[i].failures);
    if !Holds(s.db, i) {
      assert forall k :: Pending(e, k) <==> Pending(s, k);
    } else if !r.Refused? {
      UpToLast(b);
      assert Before(Cursor(s.db), Last(b)) by { assert Last(b) in b; }
    }
  }

  lemma OtherActIff(s: Sys, i: Holder, a: Act)
    requires FenceInv(s) && Settled(s) && HandledAccepted(s) && Enabled(s, Step.Instance(i, a))
    requires !(a.Handle? && a.ok) && !a.DoAdvance? && !a.DeadCommit?
    ensures var t := Step.Instance(i, a);
            Settled(Apply(s, t)) <==> Orderly(s, t)
  {
    var t := Step.Instance(i, a);
    var e := Apply(s, t);
    assert e.db.letters == s.db.letters && Cursor(e.db) == Cursor(s.db) && e.accepted == s.accepted;
    if Orderly(s, t) {
      forall k | Pending(s, k) ensures Pending(e, k) {}
    } else {
      var k := HandledAhead(s);
      assert !Pending(e, k);
    }
  }

  /** One step: settled states stay settled exactly by orderly steps. */
  lemma SettledStepIff(s: Sys, t: Step)
    requires FenceInv(s) && Settled(s) && HandledAccepted(s) && Enabled(s, t)
    ensures Settled(Apply(s, t)) <==> Orderly(s, t)
  {
    if t.Instance? {
      match t.a
      case Handle(ok) => if ok { VerdictIff(s, t.i); } else { OtherActIff(s, t.i, t.a); }
      case DoAdvance(r) => AdvanceIff(s, t.i, r);
      case DeadCommit(r) => DeadCommitIff(s, t.i, r);
      case _ => OtherActIff(s, t.i, t.a);
    } else {
      LettersShrink(s, t);
      assert forall k :: Pending(Apply(s, t), k) <==> Pending(s, k);
    }
  }

  lemma LettersShrink(s: Sys, t: Step)
    requires Enabled(s, t) && !t.Instance?
    ensures LetterEvents(Apply(s, t).db.letters) <= LetterEvents(s.db.letters)
  {
    if t.ReplayDelete? { DeleteLetterMembers(s.db.letters, t.l.id); }
    if t.Purge? { PurgeLettersMembers(s.db.letters, t.before); }
  }

  ghost predicate AlwaysSettled(s: Sys, steps: seq<Step>)
    requires IsRun(s, steps)
    decreases |steps|
  {
    Settled(s) && (steps == [] || AlwaysSettled(Apply(s, steps[0]), steps[1..]))
  }

  ghost predicate OrderlyRun(s: Sys, steps: seq<Step>)
    requires IsRun(s, steps)
    decreases |steps|
  {
    steps == [] || (Orderly(s, steps[0]) && OrderlyRun(Apply(s, steps[0]), steps[1..]))
  }

  lemma {:induction false} SettledRunIff(s: Sys, steps: seq<Step>)
    requires FenceInv(s) && Settled(s) && HandledAccepted(s) && IsRun(s, steps)
    ensures AlwaysSettled(s, steps) <==> OrderlyRun(s, steps)
    ensures OrderlyRun(s, steps) ==> Settled(After(s, steps))
    decreases |steps|
  {
    if steps != [] {
      var e := Apply(s, steps[0]);
      SettledStepIff(s, steps[0]);
      FenceStep(s, steps[0]);
      HandledStep(s, steps[0]);
      if Settled(e) {
        SettledRunIff(e, steps[1..]);
      } else {
        assert !AlwaysSettled(e, steps[1..]);
      }
    }
  }

  /** From the start: all states of a run are settled if and only if every
      step is orderly.  Then no event is accepted and a dead letter. */
  lemma AlwaysSettledIff(s: Sys, steps: seq<Step>)
    requires Initial(s) && IsRun(s, steps)
    ensures AlwaysSettled(s, steps) <==> OrderlyRun(s, steps)
    ensures OrderlyRun(s, steps) ==> After(s, steps).accepted !! LetterEvents(After(s, steps).db.letters)
  {
    InitialFenced(s);
    SettledRunIff(s, steps);
  }

  // -------------------------------------------------------------------------
  // At most once
  // -------------------------------------------------------------------------

  /** The events the action accepts or makes dead letters of. */
  function Handles(x: Instance, a: Act): seq<Key>
    requires CanAct(x, a)
  {
    match a
    case Handle(ok) => if ok then x.phase.b else []
    case DeadCommit(r) => if r.Refused? then [] else x.phase.b
    case _ => []
  }

  /** None of them was accepted or a dead letter before. */
  ghost predicate HandlesNew(s: Sys, t: Step)
    requires Enabled(s, t)
  {
    t.Instance? ==> forall k :: k in Handles(s.insts[t.i], t.a) ==> k !in Accounted(s)
  }

  /** The cursor went past the event and nobody handled it. */
  ghost predicate PassedOver(s: Sys, k: Key)
  {
    AtOrBefore(k, Cursor(s.db)) && k !in Accounted(s)
  }

  /** Firm, and only the lock holder accepts and dead-letters, unless the
      events were passed over. */
  ghost predicate Strict(s: Sys, t: Step)
    requires Enabled(s, t)
  {
    && Firm(s, t)
    && (t.Instance? && !Holds(s.db, t.i) ==> forall k :: k in Handles(s.insts[t.i], t.a) ==> PassedOver(s, k))
  }

  lemma PastStep(s: Sys, t: Step)
    requires FenceInv(s) && Settled(s) && Past(s) && Enabled(s, t)
    ensures Past(Apply(s, t))
  {
    if Cursor(Apply(s, t).db) != Cursor(s.db) { CursorMoves(s, t); }
    if t.ListLetters? || t.Purge? {
      assert forall l :: l in s.db.letters ==> l.event in LetterEvents(s.db.letters);
    }
  }

  /** One step: the state stays settled and the step handles nothing again, if
      and only if the step is strict. */
  lemma StrictStepIff(s: Sys, t: Step)
    requires FenceInv(s) && Settled(s) && HandledAccepted(s) && Past(s) && Enabled(s, t)
    ensures Settled(Apply(s, t)) && HandlesNew(s, t) <==> Strict(s, t)
  {
    SettledStepIff(s, t);
    if t.Instance? {
      if Holds(s.db, t.i) {
        forall k | k in Handles(s.insts[t.i], t.a) ensures k !in Accounted(s) {
          OfferedOnce(s, t.i, k);
        }
      } else {
        StaleStrictIff(s, t);
      }
    }
  }

  lemma StaleStrictIff(s: Sys, t: Step)
    requires HandledAccepted(s) && Enabled(s, t) && t.Instance? && !Holds(s.db, t.i)
    ensures Orderly(s, t) && HandlesNew(s, t) <==> Strict(s, t)
  {
    if Orderly(s, t) && HandlesNew(s, t) {
      forall k | k in Handles(s.insts[t.i], t.a) ensures PassedOver(s, k) {}
    }
    if Strict(s, t) {
      forall k | k in Handles(s.insts[t.i], t.a)
        ensures AtOrBefore(k, Cursor(s.db)) && k !in s.accepted && k !in LetterEvents(s.db.letters)
      {
        assert PassedOver(s, k);
      }
    }
  }

  /** In every state what is handled is behind the cursor, or about to be, and
      no step handles an event again. */
  ghost predicate AlwaysOnce(s: Sys, steps: seq<Step>)
    requires IsRun(s, steps)
    decreases |steps|
  {
    Settled(s) && (steps == [] || (HandlesNew(s, steps[0]) && AlwaysOnce(Apply(s, steps[0]), steps[1..])))
  }

  ghost predicate StrictRun(s: Sys, steps: seq<Step>)
    requires IsRun(s, steps)
    decreases |steps|
  {
    steps == [] || (Strict(s, steps[0]) && StrictRun(Apply(s, steps[0]), steps[1..]))
  }

  lemma {:induction false} OnceRunIff(s: Sys, steps: seq<Step>)
    requires FenceInv(s) && Settled(s) && HandledAccepted(s) && Past(s) && IsRun(s, steps)
    ensures AlwaysOnce(s, steps) <==> StrictRun(s, steps)
    decreases |steps|
  {
    if steps != [] {
      var e := Apply(s, steps[0]);
      StrictStepIff(s, steps[0]);
      FenceStep(s, steps[0]);
      HandledStep(s, steps[0]);
      PastStep(s, steps[0]);
      if Settled(e) {
        OnceRunIff(e, steps[1..]);
      } else {
        assert !AlwaysOnce(e, steps[1..]);
      }
    }
  }

  /** From the start, in any run of any number of instances and with events
      becoming visible in any order: polls accept or dead-letter each event at
      most once, and leave none of those ahead of the cursor to be handled
      again, but for the batch the holder is about to pass, if and only if
      every step is strict. */
  lemma DeliveredOnceIff(s: Sys, steps: seq<Step>)
    requires Initial(s) && IsRun(s, steps)
    ensures AlwaysOnce(s, steps) <==> StrictRun(s, steps)
  {
    InitialFenced(s);
    OnceRunIff(s, steps);
  }

  /** Firm, and only the lock holder accepts and dead-letters. */
  ghost predicate HolderOnly(s: Sys, t: Step)
    requires Enabled(s, t)
  {
    && Firm(s, t)
    && (t.Instance? && Handles(s.insts[t.i], t.a) != [] ==> Holds(s.db, t.i))
  }

  ghost predicate HolderOnlyRun(s: Sys, steps: seq<Step>)
    requires IsRun(s, steps)
    decreases |steps|
  {
    steps == [] || (HolderOnly(s, steps[0]) && HolderOnlyRun(Apply(s, steps[0]), steps[1..]))
  }

  /** Where no event is skipped, none is passed over. */
  lemma StrictIsHolderOnly(s: Sys, t: Step)
    requires FenceInv(s) && NoSkip(s) && Enabled(s, t)
    ensures Strict(s, t) <==> HolderOnly(s, t)
  {
    if t.Instance? && Handles(s.insts[t.i], t.a) != [] {
      var b := Handles(s.insts[t.i], t.a);
      assert Fenced(s.db, t.i, s.insts[t.i]);
      assert b[0] in b && !PassedOver(s, b[0]);
    }
  }

  lemma {:induction false} StrictRunIsHolderOnly(s: Sys, steps: seq<Step>)
    requires Inv(s) && IsRun(s, steps) && AppendsSafe(s, steps)
    ensures StrictRun(s, steps) <==> HolderOnlyRun(s, steps)
    decreases |steps|
  {
    if steps != [] {
      StrictIsHolderOnly(s, steps[0]);
      RunOne(s, steps[0]);
      InvRun(s, [steps[0]]);
      StrictRunIsHolderOnly(Apply(s, steps[0]), steps[1..]);
    }
  }

  /** With events becoming visible in order the condition for the same is
      plain: only the lock holder accepts and dead-letters, and it keeps lock
      and life from a verdict to its advance. */
  lemma HolderOnlyIff(s: Sys, steps: seq<Step>)
    requires Initial(s) && IsRun(s, steps) && AppendsInOrder(s, steps)
    ensures AlwaysOnce(s, steps) <==> HolderOnlyRun(s, steps)
  {
    DeliveredOnceIff(s, steps);
    InitialInv(s);
    InOrderIsSafe(s, steps);
    StrictRunIsHolderOnly(s, steps);
  }

  // -------------------------------------------------------------------------
  // Pieces of runs
  // -------------------------------------------------------------------------

  function With(s: Sys, i: Holder, x: Instance): Sys
  {
    s.(insts := s.insts[i := x])
  }

  function ViewOf(s: Sys, i: Holder): View
    requires i in s.insts
  {
    View(s.db, s.insts[i])
  }

  lemma RunSnoc(s: Sys, steps: seq<Step>, t: Step)
    requires IsRun(s, steps) && Enabled(After(s, steps), t)
    ensures IsRun(s, steps + [t]) && After(s, steps + [t]) == Apply(After(s, steps), t)
  {
    RunOne(After(s, steps), t);
    RunConcat(s, steps, [t]);
  }

  /** The handler rejects a batch. */
  predicate Rejects(t: Step)
  {
    t.Instance? && t.a == Handle(false)
  }

  /** The instance has the lock and has read the batch after the cursor. */
  function Fetched(s: Sys, i: Holder): Sys
    requires i in s.insts
  {
    var x := s.insts[i];
    With(s.(db := LockedDb(ViewOf(s, i), i)), i,
         x.(phase := HasBatch(Cursor(s.db), Batch(ViewOf(s, i))), lockedAt := s.db.now))
  }

  lemma LockRun(s: Sys, i: Holder) returns (steps: seq<Step>)
    requires i in s.insts && CanLead(ViewOf(s, i), i)
    ensures IsRun(s, steps) && forall t :: t in steps ==> !Rejects(t)
    ensures After(s, steps) == With(s.(db := LockedDb(ViewOf(s, i), i)), i,
                                    s.insts[i].(phase := Locked, lockedAt := s.db.now))
  {
    var t, u := Step.Instance(i, DoRenew(Reported)), Step.Instance(i, DoAcquire(Reported));
    RunOne(s, t);
    steps := [t];
    if !Holds(s.db, i) {
      RunSnoc(s, steps, u);
      steps := steps + [u];
    }
  }

  lemma ReadRun(s: Sys, i: Holder) returns (steps: seq<Step>)
    requires i in s.insts && s.insts[i].phase.Locked? && s.db.row.Some? && Batch(ViewOf(s, i)) != []
    ensures IsRun(s, steps) && forall t :: t in steps ==> !Rejects(t)
    ensures After(s, steps) == With(s, i, s.insts[i].(phase := HasBatch(Cursor(s.db), Batch(ViewOf(s, i)))))
  {
    var t, u := Step.Instance(i, ReadCursor(true)), Step.Instance(i, FetchBatch(true));
    RunOne(s, t);
    RunSnoc(s, [t], u);
    steps := [t] + [u];
  }

  lemma FetchRun(s: Sys, i: Holder) returns (steps: seq<Step>)
    requires i in s.insts && CanLead(ViewOf(s, i), i) && Batch(ViewOf(s, i)) != []
    ensures IsRun(s, steps) && After(s, steps) == Fetched(s, i)
    ensures forall t :: t in steps ==> !Rejects(t)
  {
    var xs := LockRun(s, i);
    var ys := ReadRun(After(s, xs), i);
    RunConcat(s, xs, ys);
    steps := xs + ys;
  }

  /** The steps of an instance that gives up, up to the batch to dead-letter. */
  lemma DoomRun(s: Sys, i: Holder) returns (steps: seq<Step>)
    requires i in s.insts && s.insts[i].phase.Failed? && GivesUp(s.insts[i])
    requires s.db.row.Some? && Batch(ViewOf(s, i)) != []
    ensures IsRun(s, steps)
    ensures After(s, steps) == With(s, i, s.insts[i].(phase := DeadBatch(Cursor(s.db), Batch(ViewOf(s, i))),
                                                      failures := s.insts[i].failures + 1))
  {
    var t, u, w := Step.Instance(i, Fail(true, None)), Step.Instance(i, DeadRead(true)),
                   Step.Instance(i, DeadFetch(true));
    RunOne(s, t);
    RunSnoc(s, [t], u);
    RunSnoc(s, [t] + [u], w);
    steps := [t] + [u] + [w];
  }

  /** A give-up by the lock holder, and no more. */
  ghost predicate GaveUp(s: Sys, e: Sys, i: Holder, b: seq<Key>)
    requires b != []
  {
    && i in e.insts && e.insts == s.insts[i := e.insts[i]] && e.accepted == s.accepted && e.db.log == s.db.log
    && LetterEvents(e.db.letters) == LetterEvents(s.db.letters) + (set k | k in b)
    && Holds(e.db, i) && Cursor(e.db) == Last(b)
  }

  lemma GiveUpRun(s: Sys, i: Holder) returns (steps: seq<Step>)
    requires i in s.insts && s.insts[i].phase.Failed? && GivesUp(s.insts[i])
    requires Holds(s.db, i) && Batch(ViewOf(s, i)) != []
    ensures IsRun(s, steps) && GaveUp(s, After(s, steps), i, Batch(ViewOf(s, i)))
    ensures After(s, steps).rejected == s.rejected
  {
    var xs := DoomRun(s, i);
    var t := Step.Instance(i, DeadCommit(Reported));
    RunSnoc(s, xs, t);
    steps := xs + [t];
    var x := After(s, xs).insts[i];
    InsertLettersEffect(s.db, x.phase.b, x.failures);
    InsertLettersEvents(s.db, x.phase.b, x.failures);
  }

  /** A poll at the retry limit whose batch the handler rejects. */
  lemma RejectRun(s: Sys, i: Holder) returns (steps: seq<Step>)
    requires i in s.insts && CanLead(ViewOf(s, i), i) && Batch(ViewOf(s, i)) != [] && GivesUp(s.insts[i])
    ensures IsRun(s, steps) && GaveUp(s, After(s, steps), i, Batch(ViewOf(s, i)))
  {
    var b := Batch(ViewOf(s, i));
    var xs := FetchRun(s, i);
    var t := Step.Instance(i, Handle(false));
    RunSnoc(s, xs, t);
    var e := Apply(Fetched(s, i), t);
    LockPart(ViewOf(s, i), i, false, None);
    assert Batch(ViewOf(e, i)) == b;
    var ys := GiveUpRun(e, i);
    RunConcat(s, xs + [t], ys);
    steps := xs + [t] + ys;
  }

  // -------------------------------------------------------------------------
  // Each way in which an event comes to be accepted and a dead letter
  // -------------------------------------------------------------------------

  /** Before anything has run, with events to read, an instance that gives up
      at the first failure. */
  ghost predicate Ready(s: Sys, i: Holder)
  {
    && Initial(s) && i in s.insts && s.db.log != []
    && s.insts[i].cfg.batchSize > 0 && s.insts[i].cfg.maxRetries == 1
  }

  ghost predicate Both(s: Sys, k: Key)
  {
    k in s.accepted && k in LetterEvents(s.db.letters)
  }

  lemma FirstIsFetched(log: seq<Key>, n: nat)
    requires log != [] && n > 0 && forall k :: k in log ==> Before(START, k)
    ensures log[0] in Fetch(log, START, n)
  {
    AboveAll(log, START);
    assert Fetch(log, START, n)[0] == log[0];
  }

  /** From the start to a batch in hand. */
  lemma BeginRun(s: Sys, i: Holder) returns (steps: seq<Step>)
    requires Ready(s, i)
    ensures IsRun(s, steps) && After(s, steps) == Fetched(s, i)
    ensures Cursor(s.db) == Cursor(Fetched(s, i).db) == START && Fetched(s, i).db.log == s.db.log
    ensures Holds(Fetched(s, i).db, i) && s.db.log[0] in Batch(ViewOf(s, i))
    ensures Fetched(s, i).db.row.value.expires == Some(s.db.now + s.insts[i].cfg.ttl)
    ensures Fetched(s, i).db.now == s.db.now && Fetched(s, i).db.letters == []
  {
    FirstIsFetched(s.db.log, s.insts[i].cfg.batchSize);
    steps := FetchRun(s, i);
  }

  /** The advance is refused. */
  lemma RefusedAdvanceBoth(s: Sys, i: Holder) returns (steps: seq<Step>)
    requires Ready(s, i)
    ensures IsRun(s, steps) && Both(After(s, steps), s.db.log[0])
  {
    var xs := BeginRun(s, i);
    var t, u := Step.Instance(i, Handle(true)), Step.Instance(i, DoAdvance(Refused));
    RunSnoc(s, xs, t);
    RunSnoc(s, xs + [t], u);
    var e := After(s, xs + [t] + [u]);
    assert Batch(ViewOf(e, i)) == Batch(ViewOf(s, i));
    var ys := GiveUpRun(e, i);
    RunConcat(s, xs + [t] + [u], ys);
    steps := xs + [t] + [u] + ys;
  }

  /** The instance crashes before it has advanced, and starts again. */
  lemma CrashBoth(s: Sys, i: Holder) returns (steps: seq<Step>)
    requires Ready(s, i)
    ensures IsRun(s, steps) && Both(After(s, steps), s.db.log[0])
  {
    var xs := BeginRun(s, i);
    var t, u, w := Step.Instance(i, Handle(true)), Step.Instance(i, Crash), Step.Instance(i, Start);
    RunSnoc(s, xs, t);
    RunSnoc(s, xs + [t], u);
    RunSnoc(s, xs + [t] + [u], w);
    var e := After(s, xs + [t] + [u] + [w]);
    assert Batch(ViewOf(e, i)) == Batch(ViewOf(s, i));
    var ys := RejectRun(e, i);
    RunConcat(s, xs + [t] + [u] + [w], ys);
    steps := xs + [t] + [u] + [w] + ys;
  }

  /** Some time after `e`, when the lease of the batch in hand is over, another
      instance can lead, and reads from the start. */
  lemma LeaseOver(s: Sys, e: Sys, i: Holder, j: Holder)
    requires Ready(s, i) && Ready(s, j) && i != j
    requires e.db == Fetched(s, i).db && j in e.insts && e.insts[j] == s.insts[j]
    ensures var f := Apply(e, Tick(s.insts[i].cfg.ttl + 1));
            && CanLead(ViewOf(f, j), j) && s.db.log[0] in Batch(ViewOf(f, j)) && GivesUp(f.insts[j])
            && !Holds(f.db, j) && Cursor(f.db) == START
  {
    var xs := BeginRun(s, i);
    FirstIsFetched(s.db.log, s.insts[j].cfg.batchSize);
  }

  /** The lock is lost before the advance, and the new holder rejects. */
  lemma TakeoverBoth(s: Sys, i: Holder, j: Holder) returns (steps: seq<Step>)
    requires Ready(s, i) && Ready(s, j) && i != j
    ensures IsRun(s, steps) && Both(After(s, steps), s.db.log[0])
  {
    var xs := BeginRun(s, i);
    var t, u := Step.Instance(i, Handle(true)), Tick(s.insts[i].cfg.ttl + 1);
    RunSnoc(s, xs, t);
    RunSnoc(s, xs + [t], u);
    LeaseOver(s, After(s, xs + [t]), i, j);
    var ys := RejectRun(After(s, xs + [t] + [u]), j);
    RunConcat(s, xs + [t] + [u], ys);
    steps := xs + [t] + [u] + ys;
  }

  /** The lock is lost before the verdict, which comes after the new holder's. */
  lemma LateVerdictBoth(s: Sys, i: Holder, j: Holder) returns (steps: seq<Step>)
    requires Ready(s, i) && Ready(s, j) && i != j
    ensures IsRun(s, steps) && Both(After(s, steps), s.db.log[0])
  {
    var xs := BeginRun(s, i);
    var t, u := Tick(s.insts[i].cfg.ttl + 1), Step.Instance(i, Handle(true));
    RunSnoc(s, xs, t);
    LeaseOver(s, After(s, xs), i, j);
    var ys := RejectRun(After(s, xs + [t]), j);
    RunConcat(s, xs + [t], ys);
    RunSnoc(s, xs + [t] + ys, u);
    steps := xs + [t] + ys + [u];
  }

  /** The lock is lost before the verdict, and the new holder has had the
      batch accepted and passed it: the event is accepted again. */
  lemma LateVerdictTwice(s: Sys, i: Holder, j: Holder) returns (steps: seq<Step>, t: Step)
    requires Ready(s, i) && Ready(s, j) && i != j
    ensures IsRun(s, steps) && Enabled(After(s, steps), t) && t == Step.Instance(i, Handle(true))
    ensures var e, k := After(s, steps), s.db.log[0];
            k in e.accepted && AtOrBefore(k, Cursor(e.db)) && k in Handles(e.insts[i], t.a)
  {
    var xs := BeginRun(s, i);
    var u := Tick(s.insts[i].cfg.ttl + 1);
    RunSnoc(s, xs, u);
    LeaseOver(s, After(s, xs), i, j);
    var d := After(s, xs + [u]);
    var ys := AcceptRun(d, j);
    RunConcat(s, xs + [u], ys);
    FetchIsBatch(d.db.log, START, d.insts[j].cfg.batchSize);
    UpToLast(Batch(ViewOf(d, j)));
    steps, t := xs + [u] + ys, Step.Instance(i, Handle(true));
  }

  // -------------------------------------------------------------------------
  // A dead-lettering that has lost the lock
  // -------------------------------------------------------------------------

  /** A run to a batch about to be dead-lettered when another instance can
      take the lock. */
  lemma StaleRun(s: Sys, i: Holder, j: Holder) returns (steps: seq<Step>)
    requires Ready(s, i) && Ready(s, j) && i != j
    ensures IsRun(s, steps)
    ensures var e := After(s, steps);
            && i in e.insts && j in e.insts && e.insts[i].phase == DeadBatch(START, Batch(ViewOf(s, i)))
            && s.db.log[0] in Batch(ViewOf(s, i)) && s.db.log[0] in Batch(ViewOf(e, j))
            && CanLead(ViewOf(e, j), j) && GivesUp(e.insts[j]) && !Holds(e.db, j) && Cursor(e.db) == START
            && e.accepted == {} && e.db.letters == [] && e.db.log == s.db.log
  {
    var xs := BeginRun(s, i);
    var t, u := Step.Instance(i, Handle(false)), Tick(s.insts[i].cfg.ttl + 1);
    RunSnoc(s, xs, t);
    var e := After(s, xs + [t]);
    assert Batch(ViewOf(e, i)) == Batch(ViewOf(s, i));
    var ys := DoomRun(e, i);
    RunConcat(s, xs + [t], ys);
    LeaseOver(s, After(s, xs + [t] + ys), i, j);
    RunSnoc(s, xs + [t] + ys, u);
    steps := xs + [t] + ys + [u];
  }

  /** The dead letters the commit adds to a run, with the lock lost. */
  lemma CommitLast(s: Sys, steps: seq<Step>, i: Holder, k: Key) returns (more: seq<Step>)
    requires Initial(s) && IsRun(s, steps) && i in After(s, steps).insts && !Holds(After(s, steps).db, i)
    requires After(s, steps).insts[i].phase.DeadBatch? && k in After(s, steps).insts[i].phase.b
    ensures IsRun(s, more)
    ensures var d, e := After(s, steps), After(s, more);
            && e.accepted == d.accepted && e.rejected == d.rejected && Cursor(e.db) == Cursor(d.db)
            && d.db.letters <= e.db.letters && k in LetterEvents(e.db.letters[|d.db.letters|..])
  {
    InitialFenced(s);
    FenceRun(s, steps);
    var t := Step.Instance(i, DeadCommit(Reported));
    RunSnoc(s, steps, t);
    more := steps + [t];
    var d := After(s, steps);
    InsertedTail(d.db, d.insts[i].phase.b, d.insts[i].failures, k);
  }

  lemma InsertedTail(db: Db, b: seq<Key>, n: nat, k: Key)
    requires k in b
    ensures var d := InsertLetters(db, b, n);
            && d.row == db.row && db.letters <= d.letters
            && k in LetterEvents(d.letters[|db.letters|..])
  {
    InsertLettersEffect(db, b, n);
    var m :| 0 <= m < |b| && b[m] == k;
    var new' := InsertLetters(db, b, n).letters[|db.letters|..];
    assert new'[m].event == k && new'[m] in new';
  }

  lemma EventsOfTail(letters: seq<Letter>, o: nat, k: Key)
    requires o <= |letters| && k in LetterEvents(letters[o..])
    ensures k in LetterEvents(letters)
  {
    var l :| l in letters[o..] && l.event == k;
    assert l in letters;
  }

  /** If the new holder has only taken the lock, the event is a dead letter
      and still to be delivered. */
  lemma StaleLetterAhead(s: Sys, i: Holder, j: Holder) returns (steps: seq<Step>)
    requires Ready(s, i) && Ready(s, j) && i != j
    ensures IsRun(s, steps)
    ensures var e := After(s, steps);
            s.db.log[0] in LetterEvents(e.db.letters) && Before(Cursor(e.db), s.db.log[0]) && e.accepted == {}
  {
    var xs := StaleRun(s, i, j);
    var ys := LockRun(After(s, xs), j);
    RunConcat(s, xs, ys);
    steps := CommitLast(s, xs + ys, i, s.db.log[0]);
    EventsOfTail(After(s, steps).db.letters, 0, s.db.log[0]);
  }

  /** A poll whose batch the handler accepts. */
  lemma AcceptRun(s: Sys, i: Holder) returns (steps: seq<Step>)
    requires i in s.insts && CanLead(ViewOf(s, i), i) && Batch(ViewOf(s, i)) != []
    ensures IsRun(s, steps)
    ensures var e, b := After(s, steps), Batch(ViewOf(s, i));
            && i in e.insts && e.insts == s.insts[i := e.insts[i]] && Holds(e.db, i) && Cursor(e.db) == Last(b)
            && e.accepted == s.accepted + (set k | k in b) && e.rejected == s.rejected && e.db.log == s.db.log
  {
    var xs := FetchRun(s, i);
    LockPart(ViewOf(s, i), i, true, None);
    var t, u := Step.Instance(i, Handle(true)), Step.Instance(i, DoAdvance(Reported));
    RunSnoc(s, xs, t);
    RunSnoc(s, xs + [t], u);
    steps := xs + [t] + [u];
  }

  /** If the new holder had it accepted and passed it, it is both. */
  lemma StaleLetterBoth(s: Sys, i: Holder, j: Holder) returns (steps: seq<Step>)
    requires Ready(s, i) && Ready(s, j) && i != j
    ensures IsRun(s, steps) && Both(After(s, steps), s.db.log[0])
    ensures AtOrBefore(s.db.log[0], Cursor(After(s, steps).db))
  {
    var xs := StaleRun(s, i, j);
    var d := After(s, xs);
    var ys := AcceptRun(d, j);
    RunConcat(s, xs, ys);
    steps := CommitLast(s, xs + ys, i, s.db.log[0]);
    EventsOfTail(After(s, steps).db.letters, |After(s, xs + ys).db.letters|, s.db.log[0]);
    FetchIsBatch(d.db.log, START, d.insts[j].cfg.batchSize);
    UpToLast(Batch(ViewOf(d, j)));
  }

  /** If the new holder dead-lettered it, there are two letters of an event
      that nobody accepted. */
  lemma StaleLetterTwice(s: Sys, i: Holder, j: Holder) returns (steps: seq<Step>)
    requires Ready(s, i) && Ready(s, j) && i != j
    ensures IsRun(s, steps)
    ensures var e, k := After(s, steps), s.db.log[0];
            && AtOrBefore(k, Cursor(e.db)) && e.accepted == {}
            && exists n :: 0 <= n <= |e.db.letters| && k in LetterEvents(e.db.letters[..n])
                           && k in LetterEvents(e.db.letters[n..])
  {
    var xs := StaleRun(s, i, j);
    var d := After(s, xs);
    var ys := RejectRun(d, j);
    RunConcat(s, xs, ys);
    steps := CommitLast(s, xs + ys, i, s.db.log[0]);
    var old', e := After(s, xs + ys).db.letters, After(s, steps);
    assert e.db.letters[..|old'|] == old';
    FetchIsBatch(d.db.log, START, d.insts[j].cfg.batchSize);
    UpToLast(Batch(ViewOf(d, j)));
  }
}
