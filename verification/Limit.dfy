/** What MaxResults does to a traversal of store/traverse.go.  It is the LIMIT
    of the query, so it counts rows, one for each simple path, and not the
    entities they lead to.  Here: exactly when it leaves no entity out. */
module Limits {
  import opened Filters
  import opened Traversal

  /** The row is listed, or in some arrangement of ties can be, before any row
      of `v`, whose distance is `n`. */
  predicate IsAhead(g: Graph, v: Id, n: nat, x: Row)
  {
    && x.id != v
    && (Depth(x) < n || (Depth(x) == n && CreatedAt(g, x.id) <= CreatedAt(g, v)))
  }

  function Ahead(g: Graph, v: Id, n: nat, rows: seq<Row>): seq<Row>
  {
    if rows == [] then []
    else (if IsAhead(g, v, n, rows[0]) then [rows[0]] else []) + Ahead(g, v, n, rows[1..])
  }

  lemma {:induction false} AheadCount(g: Graph, v: Id, n: nat, rows: seq<Row>, x: Row)
    ensures multiset(Ahead(g, v, n, rows))[x] == if IsAhead(g, v, n, x) then multiset(rows)[x] else 0
  {
    if rows != [] {
      AheadCount(g, v, n, rows[1..], x);
      assert rows == [rows[0]] + rows[1..];
    }
  }

  /** How many rows are ahead does not depend on their arrangement. */
  lemma AheadSame(g: Graph, v: Id, n: nat, rows: seq<Row>, listing: seq<Row>)
    requires multiset(rows) == multiset(listing)
    ensures |Ahead(g, v, n, rows)| == |Ahead(g, v, n, listing)|
  {
    var a, b := Ahead(g, v, n, rows), Ahead(g, v, n, listing);
    forall x ensures multiset(a)[x] == multiset(b)[x] {
      AheadCount(g, v, n, rows, x);
      AheadCount(g, v, n, listing, x);
    }
    assert multiset(a) == multiset(b);
    assert |a| == |multiset(a)| && |b| == |multiset(b)|;
  }

  lemma {:induction false} AheadOfAll(g: Graph, v: Id, n: nat, rows: seq<Row>, p: nat)
    requires p <= |rows| && forall i :: 0 <= i < p ==> IsAhead(g, v, n, rows[i])
    ensures p <= |Ahead(g, v, n, rows)|
    decreases p
  {
    if p > 0 {
      AheadOfAll(g, v, n, rows[1..], p - 1);
    }
  }

  lemma {:induction false} AheadWithin(g: Graph, v: Id, n: nat, rows: seq<Row>, p: nat)
    requires p <= |rows| && forall i :: p <= i < |rows| ==> !IsAhead(g, v, n, rows[i])
    ensures |Ahead(g, v, n, rows)| <= p
    decreases |rows|
  {
    if rows != [] {
      AheadWithin(g, v, n, rows[1..], if p == 0 then 0 else p - 1);
    }
  }

  // -------------------------------------------------------------------------
  // Enough room
  // -------------------------------------------------------------------------

  /** Every entity within MaxDepth is among the results. */
  ghost predicate Complete(g: Graph, o: Opts, start: Id, listing: seq<Row>, limit: nat)
  {
    forall v, n :: 1 <= n <= o.maxDepth && AtDistance(g, o, start, v, n) ==>
                   exists x :: x in FirstRows(Cut(listing, limit)) && x.id == v
  }

  ghost predicate HasRoom(g: Graph, o: Opts, start: Id, limit: nat)
  {
    o.maxDepth >= 0 &&
    forall v, n :: 1 <= n <= o.maxDepth && AtDistance(g, o, start, v, n) ==>
                   |Ahead(g, v, n, Upto(g, o, start, o.maxDepth))| < limit
  }

  /** The first row of an entity comes after rows that are ahead of it only. */
  lemma FirstRowOf(g: Graph, o: Opts, start: Id, listing: seq<Row>, v: Id, n: nat) returns (p: nat)
    requires IsListing(g, o, start, listing) && AtDistance(g, o, start, v, n) && 1 <= n <= o.maxDepth
    ensures p < |listing| && listing[p].id == v
    ensures p <= |Ahead(g, v, n, Upto(g, o, start, o.maxDepth))|
  {
    var i := NodeIsListed(g, o, start, listing, v, n);
    p := 0;
    while listing[p].id != v
      invariant p <= i && forall j :: 0 <= j < p ==> listing[j].id != v
      decreases i - p
    {
      p := p + 1;
    }
    forall j | 0 <= j < p ensures IsAhead(g, v, n, listing[j]) {
      assert InOrder(g, listing[j], listing[i]);
    }
    AheadOfAll(g, v, n, listing, p);
    AheadSame(g, v, n, Upto(g, o, start, o.maxDepth), listing);
  }

  lemma RoomIsEnough(g: Graph, o: Opts, start: Id, listing: seq<Row>, limit: nat)
    requires HasRoom(g, o, start, limit) && IsListing(g, o, start, listing)
    ensures Complete(g, o, start, listing, limit)
  {
    var rows := Cut(listing, limit);
    forall v, n | 1 <= n <= o.maxDepth && AtDistance(g, o, start, v, n)
      ensures exists x :: x in FirstRows(rows) && x.id == v
    {
      var p := FirstRowOf(g, o, start, listing, v, n);
      assert rows[p] == listing[p];
      FirstRowsCover(rows, p);
    }
  }

  // -------------------------------------------------------------------------
  // Too little room
  // -------------------------------------------------------------------------

  /** ORDER BY depth, created_at, with ties broken against `v`. */
  predicate Against(g: Graph, v: Id, x: Row, y: Row)
  {
    || Depth(x) < Depth(y)
    || (&& Depth(x) == Depth(y)
        && (|| CreatedAt(g, x.id) < CreatedAt(g, y.id)
            || (CreatedAt(g, x.id) == CreatedAt(g, y.id) && (x.id == v ==> y.id == v))))
  }

  ghost predicate SortedAgainst(g: Graph, v: Id, rows: seq<Row>)
  {
    forall i, j :: 0 <= i < j < |rows| ==> Against(g, v, rows[i], rows[j])
  }

  function Place(g: Graph, v: Id, x: Row, rows: seq<Row>): seq<Row>
  {
    if rows == [] || Against(g, v, x, rows[0]) then [x] + rows
    else [rows[0]] + Place(g, v, x, rows[1..])
  }

  function Arrange(g: Graph, v: Id, rows: seq<Row>): seq<Row>
  {
    if rows == [] then [] else Place(g, v, rows[0], Arrange(g, v, rows[1..]))
  }

  lemma {:induction false} PlaceMembers(g: Graph, v: Id, x: Row, rows: seq<Row>)
    ensures multiset(Place(g, v, x, rows)) == multiset(rows) + multiset{x}
  {
    if rows != [] && !Against(g, v, x, rows[0]) {
      PlaceMembers(g, v, x, rows[1..]);
      assert rows == [rows[0]] + rows[1..];
    }
  }

  lemma AgainstIsOrder(g: Graph, v: Id, x: Row, y: Row, z: Row)
    ensures Against(g, v, x, y) || Against(g, v, y, x)
    ensures Against(g, v, x, y) && Against(g, v, y, z) ==> Against(g, v, x, z)
  {
  }

  lemma SortedCons(g: Graph, v: Id, x: Row, rows: seq<Row>)
    requires SortedAgainst(g, v, rows) && forall y :: y in rows ==> Against(g, v, x, y)
    ensures SortedAgainst(g, v, [x] + rows)
  {
  }

  lemma {:induction false} PlaceSorted(g: Graph, v: Id, x: Row, rows: seq<Row>)
    requires SortedAgainst(g, v, rows)
    ensures SortedAgainst(g, v, Place(g, v, x, rows))
  {
    if rows == [] {
    } else if Against(g, v, x, rows[0]) {
      forall y | y in rows ensures Against(g, v, x, y) {
        AgainstIsOrder(g, v, x, rows[0], y);
      }
      SortedCons(g, v, x, rows);
    } else {
      var rest := Place(g, v, x, rows[1..]);
      PlaceSorted(g, v, x, rows[1..]);
      PlaceMembers(g, v, x, rows[1..]);
      AgainstIsOrder(g, v, x, rows[0], x);
      forall y | y in rest ensures Against(g, v, rows[0], y) {
        assert y in multiset(rest);
      }
      SortedCons(g, v, rows[0], rest);
    }
  }

  lemma {:induction false} ArrangeEffect(g: Graph, v: Id, rows: seq<Row>)
    ensures SortedAgainst(g, v, Arrange(g, v, rows)) && multiset(Arrange(g, v, rows)) == multiset(rows)
  {
    if rows != [] {
      ArrangeEffect(g, v, rows[1..]);
      PlaceMembers(g, v, rows[0], Arrange(g, v, rows[1..]));
      PlaceSorted(g, v, rows[0], Arrange(g, v, rows[1..]));
      assert rows == [rows[0]] + rows[1..];
    }
  }

  /** Rows can always be listed, and with ties broken against any one entity. */
  lemma ArrangeIsListing(g: Graph, o: Opts, start: Id, v: Id)
    requires o.maxDepth >= 0
    ensures IsListing(g, o, start, Arrange(g, v, Upto(g, o, start, o.maxDepth)))
  {
    ArrangeEffect(g, v, Upto(g, o, start, o.maxDepth));
  }

  /** Then whoever is ahead of the entity comes before each of its rows. */
  lemma NoRowWithin(g: Graph, o: Opts, start: Id, v: Id, n: nat, q: nat)
    requires o.maxDepth >= 0 && AtDistance(g, o, start, v, n) && 1 <= n <= o.maxDepth
    ensures var listing := Arrange(g, v, Upto(g, o, start, o.maxDepth));
            q < |listing| && listing[q].id == v ==> |Ahead(g, v, n, Upto(g, o, start, o.maxDepth))| <= q
  {
    var rows := Upto(g, o, start, o.maxDepth);
    var listing := Arrange(g, v, rows);
    ArrangeEffect(g, v, rows);
    if q < |listing| && listing[q].id == v {
      ArrangeIsListing(g, o, start, v);
      RowIsNoNearer(g, o, start, listing, listing[q], n);
      forall i | q <= i < |listing| ensures !IsAhead(g, v, n, listing[i]) {
        if q < i { assert Against(g, v, listing[q], listing[i]); }
      }
      AheadWithin(g, v, n, listing, q);
      AheadSame(g, v, n, rows, listing);
    }
  }

  lemma RowIsNoNearer(g: Graph, o: Opts, start: Id, listing: seq<Row>, x: Row, n: nat)
    requires IsListing(g, o, start, listing) && x in listing && AtDistance(g, o, start, x.id, n)
    ensures n <= Depth(x)
  {
    ListedIsWalk(g, o, start, listing, x);
    if Depth(x) < n { NotCloser(g, o, start, x.id, n, Depth(x)); }
  }

  lemma NoRoomLosesOne(g: Graph, o: Opts, start: Id, limit: nat, v: Id, n: nat)
    requires 1 <= n <= o.maxDepth && AtDistance(g, o, start, v, n)
    requires |Ahead(g, v, n, Upto(g, o, start, o.maxDepth))| >= limit
    ensures var listing := Arrange(g, v, Upto(g, o, start, o.maxDepth));
            IsListing(g, o, start, listing) && forall x :: x in FirstRows(Cut(listing, limit)) ==> x.id != v
  {
    var listing := Arrange(g, v, Upto(g, o, start, o.maxDepth));
    ArrangeIsListing(g, o, start, v);
    forall x | x in FirstRows(Cut(listing, limit)) ensures x.id != v {
      FirstRowsMeaning(Cut(listing, limit), x);
      var q :| 0 <= q < |Cut(listing, limit)| && Cut(listing, limit)[q] == x;
      assert listing[q] == x;
      NoRowWithin(g, o, start, v, n, q);
    }
  }

  /** However the database breaks ties, a traversal returns every entity within
      MaxDepth, if and only if for each of them fewer rows than the limit lead
      to other entities and sort at or before its first. */
  lemma CompleteIff(g: Graph, o: Opts, start: Id, limit: nat)
    requires o.maxDepth >= 0
    ensures (forall listing :: IsListing(g, o, start, listing) ==> Complete(g, o, start, listing, limit))
            <==> HasRoom(g, o, start, limit)
  {
    if HasRoom(g, o, start, limit) {
      forall listing | IsListing(g, o, start, listing) ensures Complete(g, o, start, listing, limit) {
        RoomIsEnough(g, o, start, listing, limit);
      }
    } else {
      var v, n :| 1 <= n <= o.maxDepth && AtDistance(g, o, start, v, n)
                  && |Ahead(g, v, n, Upto(g, o, start, o.maxDepth))| >= limit;
      NoRoomLosesOne(g, o, start, limit, v, n);
    }
  }

  // -------------------------------------------------------------------------
  // One entity of two
  // -------------------------------------------------------------------------

  const ONCE := Edge(0, 1, "likes", 1.0)
  const TWICE := Edge(0, 1, "knows", 1.0)
  const OTHER := Edge(0, 2, "knows", 1.0)
  const TWO := Opts(Outbound, 1, 2, [], "", 0.0, NO_FILTER)

  /** Two relations to one entity, and one to a younger one. */
  const PAIR := Graph(map[0 := Node("t", {}, false, 0), 1 := Node("t", {}, false, 1), 2 := Node("t", {}, false, 2)],
                      [ONCE, TWICE, OTHER])

  function Hop(r: Edge): Row
  {
    Row(r.target, [0, r.target], [r])
  }

  lemma PairEdge(r: Edge)
    requires r in PAIR.relations
    ensures Extends(PAIR, TWO, Row(0, [0], []), r) && Extend(Row(0, [0], []), r) == Hop(r)
  {
    assert Passes(NO_FILTER, {});
    assert [0] + [r.target] == [0, r.target];
  }

  lemma PairJoin(r: Edge, rest: seq<Edge>)
    requires r in PAIR.relations
    ensures var row := Row(0, [0], []);
            Join(PAIR, TWO, row, [r] + rest) == [Hop(r)] + Join(PAIR, TWO, row, rest)
  {
    PairEdge(r);
    assert ([r] + rest)[1..] == rest;
  }

  lemma PairJoins()
    ensures Join(PAIR, TWO, Row(0, [0], []), PAIR.relations) == [Hop(ONCE), Hop(TWICE), Hop(OTHER)]
  {
    PairJoin(OTHER, []);
    PairJoin(TWICE, [OTHER]);
    PairJoin(ONCE, [TWICE, OTHER]);
    assert PAIR.relations == [ONCE] + [TWICE, OTHER] && [TWICE, OTHER] == [TWICE] + [OTHER] && [OTHER] == [OTHER] + [];
  }

  lemma PairRows()
    ensures Upto(PAIR, TWO, 0, 1) == [Hop(ONCE), Hop(TWICE), Hop(OTHER)]
  {
    var row := Row(0, [0], []);
    PairJoins();
    assert Level(PAIR, TWO, 0, 0) == [row] && [row][1..] == [];
    assert JoinAll(PAIR, TWO, [row]) == Join(PAIR, TWO, row, PAIR.relations);
  }

  lemma PairDistance()
    ensures AtDistance(PAIR, TWO, 0, 2, 1)
  {
    assert Ball(PAIR, TWO, 0, 0) == {0};
    assert OTHER in PAIR.relations && Follows(PAIR, TWO, 0, OTHER, 2);
    assert Adjacent(PAIR, TWO, 0, 2);
  }

  lemma SameMembers(xs: seq<Row>, ys: seq<Row>)
    requires multiset(xs) == multiset(ys)
    ensures forall x :: x in xs <==> x in ys
  {
    assert forall x :: x in xs <==> x in multiset(xs);
  }

  lemma YoungerIsLast(listing: seq<Row>)
    requires IsListing(PAIR, TWO, 0, listing)
    ensures |listing| == 3 && listing[2] == Hop(OTHER)
  {
    PairRows();
    var rows := [Hop(ONCE), Hop(TWICE), Hop(OTHER)];
    assert |listing| == |multiset(listing)| == |multiset(rows)| == 3;
    SameMembers(rows, listing);
    var k :| 0 <= k < 3 && listing[k] == Hop(OTHER);
    if k < 2 { assert InOrder(PAIR, listing[k], listing[2]); }
    assert listing[2] in rows;
  }

  lemma ElderFirst(first: seq<Row>)
    requires multiset(first) + multiset{Hop(OTHER)} == multiset{Hop(ONCE), Hop(TWICE), Hop(OTHER)}
    ensures forall x :: x in first ==> x.id == 1
  {
    assert multiset(first) == multiset{Hop(ONCE), Hop(TWICE)};
    forall x | x in first ensures x.id == 1 {
      assert x in multiset(first);
    }
  }

  /** With MaxResults 2 the younger one, a hop away, is not returned, although
      there are only two entities to return. */
  lemma OneOfTwo(listing: seq<Row>)
    requires IsListing(PAIR, TWO, 0, listing)
    ensures Defaults(TWO) == TWO && TWO.maxResults == 2 && AtDistance(PAIR, TWO, 0, 2, 1)
    ensures forall x :: x in FirstRows(Cut(listing, TWO.maxResults)) ==> x.id == 1
  {
    PairDistance();
    PairRows();
    YoungerIsLast(listing);
    assert listing == listing[..2] + [Hop(OTHER)];
    ElderFirst(listing[..2]);
    forall x | x in FirstRows(listing[..2]) ensures x.id == 1 {
      FirstRowsMeaning(listing[..2], x);
    }
  }
}
