/** The event table as its consumers see it: rows keyed by (occurred_at, id),
    listed in that order.  An id is a natural number; the nil UUID is zero. */
module EventLog {

  datatype Key = Key(at: int, id: nat)

  /** The position of a consumer that has read nothing: the epoch and the nil id. */
  const START := Key(0, 0)

  predicate Before(x: Key, y: Key)
  {
    x.at < y.at || (x.at == y.at && x.id < y.id)
  }

  predicate AtOrBefore(x: Key, y: Key)
  {
    x == y || Before(x, y)
  }

  lemma Trichotomy(x: Key, y: Key)
    ensures AtOrBefore(x, y) || Before(y, x)
  {
  }

  ghost predicate Sorted(s: seq<Key>)
  {
    forall i, j :: 0 <= i < j < |s| ==> Before(s[i], s[j])
  }

  /** The rows strictly after `c`. */
  function Above(log: seq<Key>, c: Key): seq<Key>
  {
    if log == [] then []
    else (if Before(c, log[0]) then [log[0]] else []) + Above(log[1..], c)
  }

  /** Up to `n` of the rows after `c`, earliest first. */
  function Fetch(log: seq<Key>, c: Key, n: nat): seq<Key>
  {
    var rows := Above(log, c);
    if |rows| <= n then rows else rows[..n]
  }

  function Last(b: seq<Key>): Key
    requires b != []
  {
    b[|b| - 1]
  }

  /** The table after a row becomes visible. */
  function Insert(log: seq<Key>, k: Key): seq<Key>
  {
    if log == [] || Before(k, log[0]) then [k] + log
    else [log[0]] + Insert(log[1..], k)
  }

  /** `b` lists, in order, every row of the log after `c` and up to its own last row. */
  ghost predicate IsBatch(log: seq<Key>, c: Key, b: seq<Key>)
  {
    && b != [] && Sorted(b)
    && (forall x :: x in b ==> x in log && Before(c, x))
    && (forall x :: x in log && Before(c, x) && AtOrBefore(x, Last(b)) ==> x in b)
  }

  lemma {:induction false} AboveMembers(log: seq<Key>, c: Key)
    ensures forall x :: x in Above(log, c) <==> x in log && Before(c, x)
  {
    if log != [] {
      AboveMembers(log[1..], c);
      assert log == [log[0]] + log[1..];
    }
  }

  lemma {:induction false} AboveSorted(log: seq<Key>, c: Key)
    requires Sorted(log)
    ensures Sorted(Above(log, c))
  {
    if log != [] {
      var rest := Above(log[1..], c);
      AboveSorted(log[1..], c);
      AboveMembers(log[1..], c);
      forall x | x in rest ensures Before(log[0], x) {
        var i :| 0 <= i < |log[1..]| && log[1..][i] == x;
        assert log[i + 1] == x;
      }
      assert Above(log, c) == rest || Above(log, c) == [log[0]] + rest;
    }
  }

  lemma FetchIsBatch(log: seq<Key>, c: Key, n: nat)
    requires Sorted(log)
    ensures Fetch(log, c, n) != [] ==> IsBatch(log, c, Fetch(log, c, n))
    ensures Fetch(log, c, n) == [] ==> n == 0 || forall x :: x in log ==> AtOrBefore(x, c)
  {
    var rows, b := Above(log, c), Fetch(log, c, n);
    AboveMembers(log, c);
    AboveSorted(log, c);
    if b == [] {
      if n > 0 {
        assert rows == [];
        assert forall x :: x in log ==> !Before(c, x);
      }
    } else {
      assert forall x :: x in b ==> x in rows;
      forall x | x in log && Before(c, x) && AtOrBefore(x, Last(b)) ensures x in b {
        assert x in rows;
        var i :| 0 <= i < |rows| && rows[i] == x;
        assert Last(b) == rows[|b| - 1];
        assert i < |b|;
        assert b[i] == x;
      }
    }
  }

  lemma {:induction false} InsertMembers(log: seq<Key>, k: Key)
    ensures forall x :: x in Insert(log, k) <==> x in log || x == k
  {
    if log != [] && !Before(k, log[0]) {
      InsertMembers(log[1..], k);
      assert log == [log[0]] + log[1..];
    }
  }

  lemma {:induction false} InsertSorted(log: seq<Key>, k: Key)
    requires Sorted(log) && k !in log
    ensures Sorted(Insert(log, k))
  {
    if log != [] && !Before(k, log[0]) {
      assert log == [log[0]] + log[1..];
      InsertSorted(log[1..], k);
      InsertMembers(log[1..], k);
      var rest := Insert(log[1..], k);
      forall x | x in rest ensures Before(log[0], x) {
        if x != k {
          var i :| 0 <= i < |log[1..]| && log[1..][i] == x;
          assert log[i + 1] == x;
        }
      }
    }
  }

  /** A row that sorts after a batch leaves the batch complete. */
  lemma InsertBeyond(log: seq<Key>, c: Key, b: seq<Key>, k: Key)
    requires IsBatch(log, c, b) && Before(Last(b), k)
    ensures IsBatch(Insert(log, k), c, b)
  {
    InsertMembers(log, k);
  }

  lemma {:induction false} AboveAll(log: seq<Key>, c: Key)
    requires forall x :: x in log ==> Before(c, x)
    ensures Above(log, c) == log
  {
    if log != [] {
      AboveAll(log[1..], c);
    }
  }

  /** Reading past a batch leaves exactly the rows after it. */
  lemma AdvanceDropsBatch(log: seq<Key>, c: Key, n: nat)
    requires Sorted(log) && Fetch(log, c, n) != []
    ensures Above(log, Last(Fetch(log, c, n))) == Above(log, c)[|Fetch(log, c, n)|..]
  {
    var rows, b := Above(log, c), Fetch(log, c, n);
    AboveSorted(log, c);
    AboveMembers(log, c);
    AboveTwice(log, c, Last(b));
    SplitAbove(rows, |b|);
  }

  lemma {:induction false} AboveTwice(log: seq<Key>, c: Key, d: Key)
    requires Before(c, d)
    ensures Above(log, d) == Above(Above(log, c), d)
  {
    if log != [] {
      AboveTwice(log[1..], c, d);
      var rest := Above(log[1..], c);
      if Before(c, log[0]) {
        assert Above(log, c) == [log[0]] + rest;
        assert ([log[0]] + rest)[1..] == rest;
      } else {
        assert Above(log, c) == rest;
      }
    }
  }

  lemma {:induction false} SplitAbove(rows: seq<Key>, k: nat)
    requires Sorted(rows) && 0 < k <= |rows|
    ensures Above(rows, rows[k - 1]) == rows[k..]
  {
    if k == 1 {
      AboveAll(rows[1..], rows[0]);
    } else {
      SplitAbove(rows[1..], k - 1);
      assert rows[1..][k - 2] == rows[k - 1] && rows[1..][k - 1..] == rows[k..];
    }
  }
}
