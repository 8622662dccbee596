/** What giving up means in the protocol of store/consumer.go: exactly when a
    dead letter was first offered to the handler and rejected, and what a
    restart does to the count of failures. */
module Offers {
  import opened Basics
  import opened EventLog
  import opened ConsumerDb
  import opened Protocol
  import opened Consumers
  import opened Deliveries

  // -------------------------------------------------------------------------
  // Dead letters that were offered first
  // -------------------------------------------------------------------------

  /** What the instance would dead-letter if it went on undisturbed: it has
      failed for the last time, for whatever reason. */
  function Doomed(db: Db, x: Instance): seq<Key>
  {
    match x.phase
    case Failed => if GivesUp(x) then NextRows(db, x.cfg.batchSize) else []
    case DeadLettering => NextRows(db, x.cfg.batchSize)
    case DeadCursor(c) => Fetch(db.log, c, x.cfg.batchSize)
    case DeadBatch(_, b) => b
    case _ => []
  }

  /** Every dead letter was offered to the handler and rejected. */
  ghost predicate LettersRejected(s: Sys)
  {
    LetterEvents(s.db.letters) <= s.rejected
  }

  ghost predicate DoomedRejected(s: Sys)
  {
    forall i, k :: i in s.insts && k in Doomed(s.db, s.insts[i]) ==> k in s.rejected
  }

  /** The step dooms no event that was not rejected. */
  ghost predicate DoomsRejected(s: Sys, t: Step)
    requires Enabled(s, t)
  {
    var e := Apply(s, t);
    forall i, k :: i in s.insts && k in Doomed(e.db, e.insts[i]) ==> k in Doomed(s.db, s.insts[i]) || k in e.rejected
  }

  /** The action is the failure at which the instance gives up. */
  predicate FailsLast(x: Instance, a: Act)
  {
    GivesUp(x) &&
    match a
    case ReadCursor(ok) => !ok
    case FetchBatch(ok) => !ok
    case Handle(ok) => !ok
    case DoAdvance(r) => !r.Reported?
    case _ => false
  }

  /** It has given up and has yet to read the cursor. */
  predicate Exposed(x: Instance)
  {
    (x.phase.Failed? && GivesUp(x)) || x.phase.DeadLettering?
  }

  /** The position after which it will read the batch to dead-letter. */
  function ReadsFrom(db: Db, x: Instance): Option<Key>
  {
    if x.phase.DeadCursor? then Some(x.phase.c)
    else if Exposed(x) && db.row.Some? then Some(db.row.value.cursor)
    else None
  }

  /** The action moves the cursor past the batch. */
  predicate PassesOn(db: Db, i: Holder, a: Act)
  {
    Holds(db, i) && ((a.DoAdvance? && !a.r.Refused?) || (a.DeadCommit? && !a.r.Refused?))
  }

  /** After its last failure, what the instance will read back was rejected,
      in this poll or before. */
  ghost predicate CarefulFailure(s: Sys, i: Holder, a: Act)
    requires Enabled(s, Step.Instance(i, a))
  {
    var x := s.insts[i];
    FailsLast(x, a) ==>
      forall k :: k in NextRows(ActDb(s.db, i, x, a), x.cfg.batchSize) ==> k in s.rejected || k in NewlyRejected(x, a)
  }

  /** So was what an advance brings in reach of another that has given up and
      not yet read the cursor. */
  ghost predicate CarefulAdvance(s: Sys, i: Holder, a: Act)
    requires Enabled(s, Step.Instance(i, a))
  {
    var x := s.insts[i];
    PassesOn(s.db, i, a) && x.phase.b != [] ==>
      forall j, k :: j in s.insts && j != i && Exposed(s.insts[j])
                     && k in Fetch(s.db.log, Last(x.phase.b), s.insts[j].cfg.batchSize) ==>
                     k in NextRows(s.db, s.insts[j].cfg.batchSize) || k in s.rejected
  }

  /** How a step dooms nothing but what was rejected, by kind of step: the last
      failure of an instance, an advance, and a new event, which must not fit
      into a batch that is about to be read back. */
  ghost predicate Careful(s: Sys, t: Step)
    requires Enabled(s, t)
  {
    match t
    case Instance(i, a) =>
      CarefulFailure(s, i, a) && CarefulAdvance(s, i, a)
    case Append(k) =>
      k in s.rejected ||
      forall j :: j in s.insts && ReadsFrom(s.db, s.insts[j]).Some? ==>
                  k !in Fetch(Insert(s.db.log, k), ReadsFrom(s.db, s.insts[j]).value, s.insts[j].cfg.batchSize)
    case _ => true
  }

  lemma OwnDoom(s: Sys, i: Holder, a: Act)
    requires FenceInv(s) && Enabled(s, Step.Instance(i, a))
    ensures var x, e := s.insts[i], Apply(s, Step.Instance(i, a));
            if FailsLast(x, a)
            then Doomed(s.db, x) == [] && Doomed(e.db, e.insts[i]) == NextRows(e.db, x.cfg.batchSize)
            else Doomed(e.db, e.insts[i]) == [] || Doomed(e.db, e.insts[i]) == Doomed(s.db, x)
  {
    assert Fenced(s.db, i, s.insts[i]);
  }

  lemma OtherDoom(s: Sys, i: Holder, a: Act, j: Holder)
    requires FenceInv(s) && Enabled(s, Step.Instance(i, a)) && j in s.insts && j != i
    ensures var x, y, e := s.insts[i], s.insts[j], Apply(s, Step.Instance(i, a));
            if PassesOn(s.db, i, a) && Exposed(y)
            then x.phase.b != [] && Doomed(e.db, y) == Fetch(s.db.log, Last(x.phase.b), y.cfg.batchSize)
            else Doomed(e.db, y) == Doomed(s.db, y)
  {
    assert Fenced(s.db, i, s.insts[i]) && Fenced(s.db, j, s.insts[j]);
    if a.DeadCommit? { InsertLettersEffect(s.db, s.insts[i].phase.b, s.insts[i].failures); }
  }

  lemma FailureCarefulIff(s: Sys, i: Holder, a: Act)
    requires FenceInv(s) && Enabled(s, Step.Instance(i, a))
    ensures var x, e := s.insts[i], Apply(s, Step.Instance(i, a));
            CarefulFailure(s, i, a) <==>
            forall k :: k in Doomed(e.db, e.insts[i]) ==> k in Doomed(s.db, x) || k in e.rejected
  {
    OwnDoom(s, i, a);
  }

  lemma AdvanceCarefulIff(s: Sys, i: Holder, a: Act)
    requires FenceInv(s) && Enabled(s, Step.Instance(i, a))
    ensures var e := Apply(s, Step.Instance(i, a));
            CarefulAdvance(s, i, a) <==>
            forall j, k :: j in s.insts && j != i && k in Doomed(e.db, s.insts[j]) ==>
                           k in Doomed(s.db, s.insts[j]) || k in e.rejected
  {
    var x, e := s.insts[i], Apply(s, Step.Instance(i, a));
    forall j | j in s.insts && j != i
      ensures if PassesOn(s.db, i, a) && Exposed(s.insts[j])
              then x.phase.b != [] && Doomed(e.db, s.insts[j])
                                      == Fetch(s.db.log, Last(x.phase.b), s.insts[j].cfg.batchSize)
              else Doomed(e.db, s.insts[j]) == Doomed(s.db, s.insts[j])
    {
      OtherDoom(s, i, a, j);
    }
    assert PassesOn(s.db, i, a) ==> e.rejected == s.rejected;
    assert forall j :: j in s.insts && Exposed(s.insts[j]) ==>
                       Doomed(s.db, s.insts[j]) == NextRows(s.db, s.insts[j].cfg.batchSize);
  }

  lemma ActCarefulIff(s: Sys, i: Holder, a: Act)
    requires FenceInv(s) && Enabled(s, Step.Instance(i, a))
    ensures Careful(s, Step.Instance(i, a)) <==> DoomsRejected(s, Step.Instance(i, a))
  {
    FailureCarefulIff(s, i, a);
    AdvanceCarefulIff(s, i, a);
    var e := Apply(s, Step.Instance(i, a));
    assert forall j :: j in s.insts && j != i ==> e.insts[j] == s.insts[j];
  }

  lemma {:induction false} AboveInsert(log: seq<Key>, k: Key, c: Key)
    requires Sorted(log)
    ensures Above(Insert(log, k), c) == if Before(c, k) then Insert(Above(log, c), k) else Above(log, c)
  {
    if log != [] && !Before(k, log[0]) {
      AboveInsert(log[1..], k, c);
      var head, rest := if Before(c, log[0]) then [log[0]] else [], Above(log[1..], c);
      assert ([log[0]] + Insert(log[1..], k))[1..] == Insert(log[1..], k);
      assert Above(Insert(log, k), c) == head + Above(Insert(log[1..], k), c);
      assert Above(log, c) == head + rest;
      if Before(c, log[0]) {
        assert ([log[0]] + rest)[1..] == rest;
        assert Before(c, k);
      } else {
        assert head + rest == rest;
      }
    } else if log != [] {
      AboveAfter(log, c, k);
    }
  }

  /** An event before all others comes first among those after `c` too. */
  lemma AboveAfter(log: seq<Key>, c: Key, k: Key)
    requires Sorted(log) && log != [] && Before(k, log[0])
    ensures Before(c, k) ==> Insert(Above(log, c), k) == [k] + Above(log, c)
  {
    if Before(c, k) { assert Above(log, c)[0] == log[0]; }
  }

  lemma {:induction false} InsertPrefix(rows: seq<Key>, k: Key, n: nat, x: Key)
    requires n <= |Insert(rows, k)| && x in Insert(rows, k)[..n] && x != k
    ensures exists m :: 0 <= m < n && m < |rows| && rows[m] == x
  {
    if rows == [] || Before(k, rows[0]) {
      var m :| 0 <= m < n && Insert(rows, k)[m] == x;
      assert rows[m - 1] == x;
    } else if x != rows[0] {
      var m :| 0 <= m < n && Insert(rows, k)[m] == x;
      assert Insert(rows[1..], k)[m - 1] == x;
      assert x in Insert(rows[1..], k)[..n - 1];
      InsertPrefix(rows[1..], k, n - 1, x);
      var l :| 0 <= l < n - 1 && l < |rows[1..]| && rows[1..][l] == x;
      assert rows[l + 1] == x;
    }
  }

  /** A new event adds itself to a fetch and nothing else. */
  lemma FetchInsert(log: seq<Key>, k: Key, c: Key, n: nat, x: Key)
    requires Sorted(log) && x in Fetch(Insert(log, k), c, n) && x != k
    ensures x in Fetch(log, c, n)
  {
    AboveInsert(log, k, c);
    var rows := Above(log, c);
    if Before(c, k) {
      InsertLength(rows, k);
      var m := if |rows| + 1 <= n then |rows| + 1 else n;
      assert Fetch(Insert(log, k), c, n) == Insert(rows, k)[..m];
      InsertPrefix(rows, k, m, x);
      var l :| 0 <= l < m && l < |rows| && rows[l] == x;
      assert Fetch(log, c, n)[l] == x;
    }
  }

  lemma NotFetched(log: seq<Key>, c: Key, n: nat, k: Key)
    requires k !in log
    ensures k !in Fetch(log, c, n)
  {
    AboveMembers(log, c);
  }

  lemma AppendDoom(s: Sys, k: Key, j: Holder, x: Key)
    requires FenceInv(s) && Enabled(s, Append(k)) && j in s.insts
    ensures var c, e := ReadsFrom(s.db, s.insts[j]), Apply(s, Append(k));
            x in Doomed(e.db, s.insts[j]) && x !in Doomed(s.db, s.insts[j]) <==>
            x == k && c.Some? && k in Fetch(Insert(s.db.log, k), c.value, s.insts[j].cfg.batchSize)
  {
    var c, n := ReadsFrom(s.db, s.insts[j]), s.insts[j].cfg.batchSize;
    assert Fenced(s.db, j, s.insts[j]);
    if c.Some? {
      NotFetched(s.db.log, c.value, n, k);
      if x != k && x in Fetch(Insert(s.db.log, k), c.value, n) { FetchInsert(s.db.log, k, c.value, n, x); }
    }
  }

  lemma AppendCarefulIff(s: Sys, k: Key)
    requires FenceInv(s) && Enabled(s, Append(k))
    ensures Careful(s, Append(k)) <==> DoomsRejected(s, Append(k))
  {
    forall j, x | j in s.insts
      ensures var c, e := ReadsFrom(s.db, s.insts[j]), Apply(s, Append(k));
              x in Doomed(e.db, s.insts[j]) && x !in Doomed(s.db, s.insts[j]) <==>
              x == k && c.Some? && k in Fetch(Insert(s.db.log, k), c.value, s.insts[j].cfg.batchSize)
    {
      AppendDoom(s, k, j, x);
    }
  }

  /** The three kinds are all there are. */
  lemma CarefulIff(s: Sys, t: Step)
    requires FenceInv(s) && Enabled(s, t)
    ensures Careful(s, t) <==> DoomsRejected(s, t)
  {
    match t
    case Instance(i, a) => ActCarefulIff(s, i, a);
    case Append(k) => AppendCarefulIff(s, k);
    case _ =>
      forall i | i in s.insts ensures Doomed(Apply(s, t).db, s.insts[i]) == Doomed(s.db, s.insts[i]) {}
  }

  /** Careful up to the last step. */
  ghost predicate CarefulRun(s: Sys, steps: seq<Step>)
    requires IsRun(s, steps)
    decreases |steps|
  {
    |steps| <= 1 || (Careful(s, steps[0]) && CarefulRun(Apply(s, steps[0]), steps[1..]))
  }

  lemma LettersFromDoomed(s: Sys, t: Step)
    requires LettersRejected(s) && DoomedRejected(s) && Enabled(s, t)
    ensures LettersRejected(Apply(s, t))
  {
    if t.Instance? {
      if t.a.DeadCommit? { InsertLettersEvents(s.db, s.insts[t.i].phase.b, s.insts[t.i].failures); }
    } else {
      LettersShrink(s, t);
    }
  }

  lemma {:induction false} CarefulIsRejected(s: Sys, steps: seq<Step>)
    requires FenceInv(s) && LettersRejected(s) && DoomedRejected(s) && IsRun(s, steps) && CarefulRun(s, steps)
    ensures LettersRejected(After(s, steps))
    decreases |steps|
  {
    if steps != [] {
      LettersFromDoomed(s, steps[0]);
      if |steps| > 1 {
        CarefulIff(s, steps[0]);
        FenceStep(s, steps[0]);
        CarefulIsRejected(Apply(s, steps[0]), steps[1..]);
      }
    }
  }

  /** An instance that goes on undisturbed makes dead letters of what it has doomed. */
  lemma {:induction false} DemiseRun(s: Sys, i: Holder, k: Key) returns (steps: seq<Step>)
    requires i in s.insts && k in Doomed(s.db, s.insts[i])
    ensures IsRun(s, steps) && CarefulRun(s, steps)
    ensures k in LetterEvents(After(s, steps).db.letters) && After(s, steps).rejected == s.rejected
    decreases Remaining(s.insts[i].phase)
  {
    var x := s.insts[i];
    var t := Step.Instance(i, NextAct(x.phase, false, None));
    if x.phase.DeadBatch? {
      InsertLettersEvents(s.db, x.phase.b, x.failures);
      RunOne(s, t);
      steps := [t];
    } else {
      DoomedKept(s, i);
      var rest := DemiseRun(Apply(s, t), i, k);
      RunCons(s, t, rest);
      steps := [t] + rest;
    }
  }

  lemma DoomedKept(s: Sys, i: Holder)
    requires i in s.insts && Doomed(s.db, s.insts[i]) != [] && !s.insts[i].phase.DeadBatch?
    ensures var t := Step.Instance(i, NextAct(s.insts[i].phase, false, None));
            && Enabled(s, t) && Careful(s, t) && Apply(s, t).rejected == s.rejected
            && Doomed(Apply(s, t).db, Apply(s, t).insts[i]) == Doomed(s.db, s.insts[i])
            && Remaining(Apply(s, t).insts[i].phase) < Remaining(s.insts[i].phase)
  {
  }

  /** While every dead letter was rejected first: it stays so in every run that
      dooms nothing else, if and only if all that is already doomed was. */
  lemma DoomedIff(s: Sys)
    requires FenceInv(s) && LettersRejected(s)
    ensures DoomedRejected(s) <==>
            forall steps :: IsRun(s, steps) && CarefulRun(s, steps) ==> LettersRejected(After(s, steps))
  {
    if DoomedRejected(s) {
      forall steps | IsRun(s, steps) && CarefulRun(s, steps) ensures LettersRejected(After(s, steps)) {
        CarefulIsRejected(s, steps);
      }
    } else {
      var i, k :| i in s.insts && k in Doomed(s.db, s.insts[i]) && k !in s.rejected;
      var steps := DemiseRun(s, i, k);
    }
  }

  /** From the start, the dead letters of a careful run were all rejected first. */
  lemma OfferedFirst(s: Sys, steps: seq<Step>)
    requires Initial(s) && IsRun(s, steps) && CarefulRun(s, steps)
    ensures LettersRejected(After(s, steps))
  {
    InitialFenced(s);
    CarefulIsRejected(s, steps);
  }

  /** What the last failure dooms, by its reason.  Only after a rejection by
      the lock holder is it the batch that was offered, and then with all that
      has become visible since and fits in.  After an error it is a batch nobody
      was offered in this poll, or the one accepted, or the one after that; and
      once the lock is lost, whatever follows the new holder's cursor. */
  lemma FailureDooms(s: Sys, i: Holder, a: Act)
    requires FenceInv(s) && Enabled(s, Step.Instance(i, a)) && FailsLast(s.insts[i], a)
    ensures var x, e := s.insts[i], Apply(s, Step.Instance(i, a));
            var doomed, n := Doomed(e.db, e.insts[i]), x.cfg.batchSize;
            && e.insts[i].phase.Failed?
            && e.rejected == s.rejected + (if a.Handle? then set k | k in x.phase.b else {})
            && (!a.ReadCursor? && Holds(s.db, i) ==> Cursor(s.db) == x.phase.c)
            && (a.DoAdvance? && a.r.Lost? && Holds(s.db, i) ==>
                  doomed == Fetch(s.db.log, Last(x.phase.b), n) && forall k :: k in doomed ==> k !in x.phase.b)
            && (!(a.DoAdvance? && a.r.Lost? && Holds(s.db, i)) ==> doomed == Fetch(s.db.log, Cursor(s.db), n))
  {
    var x := s.insts[i];
    assert Fenced(s.db, i, x);
    if a.DoAdvance? {
      UpToLast(x.phase.b);
      FetchAfter(s.db.log, Last(x.phase.b), x.cfg.batchSize);
    }
  }

  lemma FetchAfter(log: seq<Key>, c: Key, n: nat)
    ensures forall k :: k in Fetch(log, c, n) ==> Before(c, k)
  {
    AboveMembers(log, c);
  }

  /** A dead letter of an event no handler was ever given. */
  ghost predicate Unseen(s: Sys, k: Key)
  {
    k in LetterEvents(s.db.letters) && k !in s.rejected && k !in s.accepted
  }

  /** The cursor could not be read, and a moment later it could. */
  lemma ReadErrorUnseen(s: Sys, i: Holder) returns (steps: seq<Step>)
    requires Ready(s, i)
    ensures IsRun(s, steps) && Unseen(After(s, steps), s.db.log[0])
  {
    var xs := LockRun(s, i);
    var t := Step.Instance(i, ReadCursor(false));
    RunSnoc(s, xs, t);
    FirstIsFetched(s.db.log, s.insts[i].cfg.batchSize);
    var ys := GiveUpRun(After(s, xs + [t]), i);
    RunConcat(s, xs + [t], ys);
    steps := xs + [t] + ys;
  }

  /** The reply to the advance is lost: the next batch goes unseen. */
  lemma LostReplyUnseen(s: Sys, i: Holder) returns (steps: seq<Step>)
    requires Ready(s, i) && |s.db.log| > s.insts[i].cfg.batchSize
    ensures IsRun(s, steps) && Unseen(After(s, steps), s.db.log[s.insts[i].cfg.batchSize])
  {
    var n := s.insts[i].cfg.batchSize;
    var xs := BeginRun(s, i);
    var t, u := Step.Instance(i, Handle(true)), Step.Instance(i, DoAdvance(Lost));
    RunSnoc(s, xs, t);
    RunSnoc(s, xs + [t], u);
    var e := After(s, xs + [t] + [u]);
    NextBatch(s.db.log, n, n);
    var ys := GiveUpRun(e, i);
    RunConcat(s, xs + [t] + [u], ys);
    steps := xs + [t] + [u] + ys;
  }

  /** What follows a batch of `n` for a reader of batches of `m`. */
  lemma NextBatch(log: seq<Key>, n: nat, m: nat)
    requires Sorted(log) && 0 < n < |log| && 0 < m <= n && forall k :: k in log ==> Before(START, k)
    ensures Fetch(log, START, n) == log[..n] && log[n] !in Fetch(log, START, n) && log[n] !in Fetch(log, START, m)
    ensures log[n] in Fetch(log, Last(Fetch(log, START, n)), m)
  {
    AboveAll(log, START);
    SplitAbove(log, n);
    assert Last(log[..n]) == log[n - 1];
    HeadIsFetched(log, log[n - 1], m, log[n]);
    NotEarlier(log, n, n);
    NotEarlier(log, n, m);
  }

  lemma NotEarlier(log: seq<Key>, n: nat, m: nat)
    requires Sorted(log) && m <= n < |log|
    ensures log[n] !in log[..m]
  {
    forall i | 0 <= i < m ensures log[i] != log[n] {
      assert Before(log[i], log[n]);
    }
  }

  lemma HeadIsFetched(log: seq<Key>, c: Key, n: nat, k: Key)
    requires n > 0 && Above(log, c) != [] && Above(log, c)[0] == k
    ensures k in Fetch(log, c, n)
  {
    assert Fetch(log, c, n)[0] == k;
  }

  /** An event becomes visible between the verdict and the dead letters. */
  lemma NewcomerUnseen(s: Sys, i: Holder, k: Key) returns (steps: seq<Step>)
    requires Ready(s, i) && |s.db.log| < s.insts[i].cfg.batchSize && k !in s.db.log && Before(START, k)
    ensures IsRun(s, steps) && Unseen(After(s, steps), k)
  {
    var xs := BeginRun(s, i);
    var t, u := Step.Instance(i, Handle(false)), Append(k);
    RunSnoc(s, xs, t);
    RunSnoc(s, xs + [t], u);
    var e := After(s, xs + [t] + [u]);
    NewcomerFits(s.db.log, k, s.insts[i].cfg.batchSize);
    var ys := GiveUpRun(e, i);
    RunConcat(s, xs + [t] + [u], ys);
    steps := xs + [t] + [u] + ys;
  }

  lemma NewcomerFits(log: seq<Key>, k: Key, n: nat)
    requires |log| < n && k !in log && Before(START, k) && forall x :: x in log ==> Before(START, x)
    ensures k !in Fetch(log, START, n) && k in Fetch(Insert(log, k), START, n)
  {
    AboveAll(log, START);
    InsertMembers(log, k);
    InsertLength(log, k);
    AboveAll(Insert(log, k), START);
  }

  lemma {:induction false} InsertLength(log: seq<Key>, k: Key)
    ensures |Insert(log, k)| == |log| + 1
  {
    if log != [] && !Before(k, log[0]) { InsertLength(log[1..], k); }
  }

  /** The lock is lost after the last failure.  The new holder has the batch
      accepted and advances, and what follows, which no handler was given, is
      dead-lettered and still to be delivered.  No call fails in this run. */
  lemma TakeoverUnseen(s: Sys, i: Holder, j: Holder) returns (steps: seq<Step>)
    requires Ready(s, i) && Ready(s, j) && i != j
    requires s.insts[i].cfg.batchSize <= s.insts[j].cfg.batchSize < |s.db.log|
    ensures var k := s.db.log[s.insts[j].cfg.batchSize];
            IsRun(s, steps) && Unseen(After(s, steps), k) && Before(Cursor(After(s, steps).db), k)
  {
    var xs := BeginRun(s, i);
    var t, u := Step.Instance(i, Handle(false)), Tick(s.insts[i].cfg.ttl + 1);
    RunSnoc(s, xs, t);
    LeaseOver(s, After(s, xs + [t]), i, j);
    RunSnoc(s, xs + [t], u);
    var d := After(s, xs + [t] + [u]);
    var ys := AcceptRun(d, j);
    RunConcat(s, xs + [t] + [u], ys);
    steps := DoomLast(s, xs + [t] + [u] + ys, i, j);
  }

  lemma DoomLast(s: Sys, steps: seq<Step>, i: Holder, j: Holder) returns (more: seq<Step>)
    requires Ready(s, i) && Ready(s, j) && i != j && IsRun(s, steps)
    requires s.insts[i].cfg.batchSize <= s.insts[j].cfg.batchSize < |s.db.log|
    requires var e, n := After(s, steps), s.insts[j].cfg.batchSize;
             && i in e.insts && e.insts[i].phase.Failed? && e.insts[i].cfg == s.insts[i].cfg
             && Holds(e.db, j) && Cursor(e.db) == Last(Fetch(s.db.log, START, n)) && e.db.log == s.db.log
             && e.accepted == (set k | k in Fetch(s.db.log, START, n))
             && e.rejected == set k | k in Fetch(s.db.log, START, s.insts[i].cfg.batchSize)
    ensures var k := s.db.log[s.insts[j].cfg.batchSize];
            IsRun(s, more) && Unseen(After(s, more), k) && Before(Cursor(After(s, more).db), k)
  {
    var e, k := After(s, steps), s.db.log[s.insts[j].cfg.batchSize];
    NextBatch(s.db.log, s.insts[j].cfg.batchSize, s.insts[i].cfg.batchSize);
    FetchAfter(s.db.log, Cursor(e.db), s.insts[i].cfg.batchSize);
    var zs := DoomRun(e, i);
    RunConcat(s, steps, zs);
    more := CommitLast(s, steps + zs, i, k);
    EventsOfTail(After(s, more).db.letters, |After(s, steps + zs).db.letters|, k);
  }

  /** An instance that has given up starts its next poll with no failures
      counted, even if it could not write its dead letters; what it could not
      read or commit changes nothing. */
  lemma GiveUpResets(db: Db, i: Holder, x: Instance, a: Act)
    requires CanAct(x, a) && !a.Crash?
    requires x.phase.DeadLettering? || x.phase.DeadCursor? || x.phase.DeadBatch? || x.phase.DeadDone?
    ensures var y := ActInstance(db, i, x, a);
            || (y.phase.Idle? && y.failures == 0)
            || ((y.phase.DeadCursor? || y.phase.DeadBatch? || y.phase.DeadDone?) && y.failures == x.failures)
    ensures Remaining(ActInstance(db, i, x, a).phase) < Remaining(x.phase)
    ensures a.DeadRead? || a.DeadFetch? || (a.DeadCommit? && a.r.Refused?) ==> ActDb(db, i, x, a) == db
  {
  }

  // -------------------------------------------------------------------------
  // Restarts
  // -------------------------------------------------------------------------

  function Rejections(steps: seq<Step>): nat
  {
    if steps == [] then 0 else (if Rejects(steps[0]) then 1 else 0) + Rejections(steps[1..])
  }

  lemma {:induction false} RejectionsConcat(xs: seq<Step>, ys: seq<Step>)
    ensures Rejections(xs + ys) == Rejections(xs) + Rejections(ys)
  {
    if xs == [] {
      assert xs + ys == ys;
    } else {
      assert (xs + ys)[1..] == xs[1..] + ys;
      RejectionsConcat(xs[1..], ys);
    }
  }

  lemma {:induction false} NoRejections(steps: seq<Step>)
    requires forall t :: t in steps ==> !Rejects(t)
    ensures Rejections(steps) == 0
  {
    if steps != [] { NoRejections(steps[1..]); }
  }

  /** The instance can poll, counts no failure, and the next one is not its last. */
  ghost predicate Fresh(s: Sys, i: Holder)
  {
    && i in s.insts && CanLead(ViewOf(s, i), i) && Batch(ViewOf(s, i)) != []
    && s.insts[i].failures == 0 && s.insts[i].cfg.maxRetries != 1
  }

  /** Nothing has come of it: same position, same events, same letters. */
  ghost predicate NoProgress(s: Sys, e: Sys)
  {
    Cursor(e.db) == Cursor(s.db) && e.db.log == s.db.log && e.db.letters == s.db.letters
  }

  /** A failing poll and a restart. */
  lemma RestartRun(s: Sys, i: Holder) returns (steps: seq<Step>)
    requires Fresh(s, i)
    ensures IsRun(s, steps) && Rejections(steps) == 1
    ensures Fresh(After(s, steps), i) && NoProgress(s, After(s, steps))
    ensures After(s, steps).db.row.Some? && After(s, steps).db.row.value.failures == 1
  {
    var xs := FetchRun(s, i);
    LockPart(ViewOf(s, i), i, false, None);
    var t, u := Step.Instance(i, Handle(false)), Step.Instance(i, Fail(true, None));
    var v, w := Step.Instance(i, Crash), Step.Instance(i, Start);
    RunSnoc(s, xs, t);
    RunSnoc(s, xs + [t], u);
    RunSnoc(s, xs + [t] + [u], v);
    RunSnoc(s, xs + [t] + [u] + [v], w);
    steps := xs + [t] + [u] + [v] + [w];
    assert steps == xs + ([t] + [u, v, w]);
    OneRejection(xs, t, [u, v, w]);
  }

  lemma OneRejection(xs: seq<Step>, t: Step, ys: seq<Step>)
    requires Rejects(t) && forall u :: u in xs || u in ys ==> !Rejects(u)
    ensures Rejections(xs + ([t] + ys)) == 1
  {
    NoRejections(xs);
    NoRejections(ys);
    RejectionsConcat(xs, [t] + ys);
    assert ([t] + ys)[1..] == ys;
  }

  /** The count of failures does not outlive the instance.  So with restarts
      between its polls, however many fail, the retry limit is never reached:
      the cursor stays, nothing is dead-lettered, and the row says one failure. */
  lemma {:induction false} RestartsForget(s: Sys, i: Holder, n: nat) returns (steps: seq<Step>)
    requires Fresh(s, i)
    ensures IsRun(s, steps) && Rejections(steps) == n
    ensures Fresh(After(s, steps), i) && NoProgress(s, After(s, steps))
    ensures n > 0 ==> After(s, steps).db.row.Some? && After(s, steps).db.row.value.failures == 1
    decreases n
  {
    steps := [];
    if n > 0 {
      var xs := RestartsForget(s, i, n - 1);
      var ys := RestartRun(After(s, xs), i);
      RunConcat(s, xs, ys);
      RejectionsConcat(xs, ys);
      steps := xs + ys;
    }
  }
}
