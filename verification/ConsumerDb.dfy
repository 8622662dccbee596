/** The statements of store/internal/dbgen/consumer.sql.go and deadletter.sql.go
    for one consumer name, as functions on the tables they touch.  Each is one
    atomic step; the guards on `holder_id` and `expires_at` are what the
    protocol rests on. */
module ConsumerDb {
  import opened Basics
  import opened EventLog

  type Holder = nat

  /** The row of entity_event_consumers. */
  datatype Row = Row(cursor: Key, holder: Option<Holder>, expires: Option<int>, failures: nat, backoff: Option<int>)

  datatype Letter = Letter(id: nat, event: Key, retryCount: nat, createdAt: int)

  /** `now` is the database clock. */
  datatype Db = Db(now: int, row: Option<Row>, log: seq<Key>, letters: seq<Letter>, nextLetter: nat)

  predicate Holds(db: Db, i: Holder)
  {
    db.row.Some? && db.row.value.holder == Some(i)
  }

  /** The position a reader starts from; without a row it is the column default. */
  function Cursor(db: Db): Key
  {
    if db.row.Some? then db.row.value.cursor else START
  }

  // RenewConsumerLock: succeeds for the current holder, even after expiry.
  function Renew(db: Db, i: Holder, ttl: nat): Db
  {
    if Holds(db, i) then db.(row := Some(db.row.value.(expires := Some(db.now + ttl)))) else db
  }

  predicate LockIsFree(db: Db)
  {
    db.row.None? || db.row.value.expires.None? || db.row.value.expires.value < db.now
  }

  // TryAcquireConsumerLock: inserts the row, or takes it over when the lease
  // is absent or has run out.
  function Acquire(db: Db, i: Holder, ttl: nat): Db
  {
    if !LockIsFree(db) then db
    else if db.row.None? then db.(row := Some(Row(START, Some(i), Some(db.now + ttl), 0, None)))
    else db.(row := Some(db.row.value.(holder := Some(i), expires := Some(db.now + ttl))))
  }

  // ReleaseConsumerLock.
  function Release(db: Db, i: Holder): Db
  {
    if Holds(db, i) then db.(row := Some(db.row.value.(holder := None, expires := None))) else db
  }

  // AdvanceConsumerCursor: takes effect only for the current holder.
  function Advance(db: Db, i: Holder, k: Key): Db
  {
    if Holds(db, i) then db.(row := Some(db.row.value.(cursor := k, failures := 0, backoff := None))) else db
  }

  // UpdateConsumerFailureState.
  function SaveFailures(db: Db, i: Holder, failures: nat, backoff: Option<int>): Db
  {
    if Holds(db, i) then db.(row := Some(db.row.value.(failures := failures, backoff := backoff))) else db
  }

  // InsertDeadLetter, once per row of the batch.
  function InsertLetters(db: Db, batch: seq<Key>, retryCount: nat): Db
    decreases |batch|
  {
    if batch == [] then db
    else
      var l := Letter(db.nextLetter, batch[0], retryCount, db.now);
      InsertLetters(db.(letters := db.letters + [l], nextLetter := db.nextLetter + 1), batch[1..], retryCount)
  }

  // DeleteDeadLetter.
  function DeleteLetter(letters: seq<Letter>, id: nat): seq<Letter>
  {
    if letters == [] then []
    else (if letters[0].id == id then [] else [letters[0]]) + DeleteLetter(letters[1..], id)
  }

  // PurgeOldDeadLetters.
  function PurgeLetters(letters: seq<Letter>, before: int): seq<Letter>
  {
    if letters == [] then []
    else (if letters[0].createdAt < before then [] else [letters[0]]) + PurgeLetters(letters[1..], before)
  }

  function LetterEvents(letters: seq<Letter>): set<Key>
  {
    set l | l in letters :: l.event
  }

  /** Dead-lettering appends exactly the batch, under fresh ids, and touches
      nothing else. */
  lemma {:induction false} InsertLettersEffect(db: Db, batch: seq<Key>, retryCount: nat)
    ensures var d, o := InsertLetters(db, batch, retryCount), |db.letters|;
            && d == db.(letters := d.letters, nextLetter := db.nextLetter + |batch|)
            && |d.letters| == o + |batch|
            && (forall n :: 0 <= n < |d.letters| ==>
                  d.letters[n] ==
                  if n < o then db.letters[n] else Letter(db.nextLetter + n - o, batch[n - o], retryCount, db.now))
    decreases |batch|
  {
    if batch != [] {
      var l := Letter(db.nextLetter, batch[0], retryCount, db.now);
      var e := db.(letters := db.letters + [l], nextLetter := db.nextLetter + 1);
      InsertLettersEffect(e, batch[1..], retryCount);
    }
  }

  lemma InsertLettersEvents(db: Db, batch: seq<Key>, retryCount: nat)
    ensures LetterEvents(InsertLetters(db, batch, retryCount).letters) == LetterEvents(db.letters) + set k | k in batch
  {
    InsertLettersEffect(db, batch, retryCount);
    var d, o := InsertLetters(db, batch, retryCount), |db.letters|;
    forall k | k in batch ensures k in LetterEvents(d.letters) {
      var n :| 0 <= n < |batch| && batch[n] == k;
      assert d.letters[o + n].event == k && d.letters[o + n] in d.letters;
    }
    forall l | l in db.letters ensures l in d.letters {
      var n :| 0 <= n < o && db.letters[n] == l;
      assert d.letters[n] == l;
    }
  }

  /** Letter ids stay unique, and a letter is either old or has a fresh id. */
  lemma InsertLettersIds(db: Db, batch: seq<Key>, retryCount: nat)
    requires forall l, m :: l in db.letters && m in db.letters && l.id == m.id ==> l == m
    requires forall l :: l in db.letters ==> l.id < db.nextLetter
    ensures var d := InsertLetters(db, batch, retryCount);
            && (forall l, m :: l in d.letters && m in d.letters && l.id == m.id ==> l == m)
            && (forall l :: l in d.letters ==> l in db.letters || db.nextLetter <= l.id < d.nextLetter)
  {
    InsertLettersEffect(db, batch, retryCount);
  }

  lemma {:induction false} DeleteLetterMembers(letters: seq<Letter>, id: nat)
    ensures forall l :: l in DeleteLetter(letters, id) <==> l in letters && l.id != id
  {
    if letters != [] {
      DeleteLetterMembers(letters[1..], id);
      assert letters == [letters[0]] + letters[1..];
    }
  }

  lemma {:induction false} PurgeLettersMembers(letters: seq<Letter>, before: int)
    ensures forall l :: l in PurgeLetters(letters, before) <==> l in letters && l.createdAt >= before
  {
    if letters != [] {
      PurgeLettersMembers(letters[1..], before);
      assert letters == [letters[0]] + letters[1..];
    }
  }
}
