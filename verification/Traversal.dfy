/** Graph traversal of store/traverse.go.  The recursive query lists every
    simple path of allowed edges through entities that pass the filter; the
    loop over its rows keeps the first row of each entity.  Both are compared
    with plain breadth-first distance in the filtered graph. */
module Traversal {
  import opened Basics
  import opened Filters

  type Id = nat

  /** The columns of an entity and of a relation that the query reads. */
  datatype Node = Node(entityType: string, tags: set<string>, deleted: bool, createdAt: int)

  datatype Edge = Edge(source: Id, target: Id, relationType: string, confidence: real)

  datatype Graph = Graph(entities: map<Id, Node>, relations: seq<Edge>)

  datatype Direction = Both | Outbound | Inbound

  datatype Opts = Opts(direction: Direction, maxDepth: int, maxResults: int, relationTypes: seq<string>,
                       entityType: string, minConfidence: real, filter: QueryFilter)

  /** TraverseOpts.defaults. */
  function Defaults(o: Opts): (r: Opts)
    ensures 1 <= r.maxDepth <= 10 && 1 <= r.maxResults
    ensures 1 <= o.maxDepth <= 10 && 1 <= o.maxResults ==> r == o
    ensures r == o.(maxDepth := r.maxDepth, maxResults := r.maxResults)
    ensures o.maxDepth < 1 ==> r.maxDepth == 2
    ensures o.maxDepth >= 10 ==> r.maxDepth == 10
    ensures o.maxResults < 1 ==> r.maxResults == 100
    ensures o.maxResults >= 1 ==> r.maxResults == o.maxResults
    ensures 1 <= o.maxDepth <= 10 ==> r.maxDepth == o.maxDepth
  {
    var depth := if o.maxDepth <= 0 then 2 else o.maxDepth;
    o.(maxDepth := if depth > 10 then 10 else depth,
       maxResults := if o.maxResults <= 0 then 100 else o.maxResults)
  }

  /** A row of the recursive query: the entity reached, the nodes of the path
      to it and its edges. */
  datatype Row = Row(id: Id, visited: seq<Id>, path: seq<Edge>)

  function Depth(row: Row): nat { |row.path| }

  /** The edge may be followed from `u`. */
  predicate EdgeAllowed(o: Opts, r: Edge, u: Id)
  {
    && (((o.direction.Both? || o.direction.Outbound?) && r.source == u)
        || ((o.direction.Both? || o.direction.Inbound?) && r.target == u))
    && (o.relationTypes == [] || r.relationType in o.relationTypes)
    && (o.minConfidence == 0.0 || r.confidence >= o.minConfidence)
  }

  function FarEnd(r: Edge, u: Id): Id
  {
    if r.source == u then r.target else r.source
  }

  /** The entity may be entered. */
  predicate NodeAllowed(g: Graph, o: Opts, v: Id)
  {
    && v in g.entities && !g.entities[v].deleted
    && (o.entityType == "" || g.entities[v].entityType == o.entityType)
    && Passes(o.filter, g.entities[v].tags)
  }

  predicate Follows(g: Graph, o: Opts, u: Id, r: Edge, v: Id)
  {
    EdgeAllowed(o, r, u) && FarEnd(r, u) == v && NodeAllowed(g, o, v)
  }

  /** Outbound edges are inbound edges seen from the other end, and following
      both directions is following either. */
  lemma DirectionsAreDual(o: Opts, r: Edge, u: Id, v: Id)
    ensures EdgeAllowed(o.(direction := Outbound), r, u) && FarEnd(r, u) == v <==>
            EdgeAllowed(o.(direction := Inbound), r, v) && FarEnd(r, v) == u && r.source == u
    ensures EdgeAllowed(o.(direction := Both), r, u) <==>
            EdgeAllowed(o.(direction := Outbound), r, u) || EdgeAllowed(o.(direction := Inbound), r, u)
  {
  }

  /** The columns of a relation that leads from `u` to `v` under the options:
      a row of the table, with the two as its ends in a direction allowed, of a
      type asked for if any is, and confident enough if that is asked. */
  predicate LeadsTo(g: Graph, o: Opts, r: Edge, u: Id, v: Id)
  {
    && r in g.relations
    && ((r.source == u && r.target == v && !o.direction.Inbound?)
        || (r.target == u && r.source == v && !o.direction.Outbound?))
    && (|o.relationTypes| > 0 ==> exists i :: 0 <= i < |o.relationTypes| && o.relationTypes[i] == r.relationType)
    && (o.minConfidence != 0.0 ==> o.minConfidence <= r.confidence)
  }

  /** The columns of an entity a traversal may enter. */
  predicate MayEnter(g: Graph, o: Opts, v: Id)
  {
    && v in g.entities && g.entities[v].deleted == false
    && (|o.entityType| > 0 ==> g.entities[v].entityType == o.entityType)
    && Passes(o.filter, g.entities[v].tags)
  }

  /** A step of the query is a relation and an entity with those columns. */
  lemma FollowsIff(g: Graph, o: Opts, u: Id, r: Edge, v: Id)
    ensures r in g.relations && Follows(g, o, u, r, v) <==> LeadsTo(g, o, r, u, v) && MayEnter(g, o, v)
  {
  }

  // -------------------------------------------------------------------------
  // The recursive query
  // -------------------------------------------------------------------------

  predicate Extends(g: Graph, o: Opts, row: Row, r: Edge)
  {
    && Depth(row) < o.maxDepth
    && Follows(g, o, row.id, r, FarEnd(r, row.id))
    && FarEnd(r, row.id) !in row.visited
  }

  function Extend(row: Row, r: Edge): Row
  {
    Row(FarEnd(r, row.id), row.visited + [FarEnd(r, row.id)], row.path + [r])
  }

  /** The join of one row with the relation table. */
  function Join(g: Graph, o: Opts, row: Row, relations: seq<Edge>): seq<Row>
  {
    if relations == [] then []
    else
      var r := relations[0];
      (if Extends(g, o, row, r) then [Extend(row, r)] else []) + Join(g, o, row, relations[1..])
  }

  function JoinAll(g: Graph, o: Opts, rows: seq<Row>): seq<Row>
  {
    if rows == [] then [] else Join(g, o, rows[0], g.relations) + JoinAll(g, o, rows[1..])
  }

  /** The rows the recursion adds in its n-th round. */
  function Level(g: Graph, o: Opts, start: Id, n: nat): seq<Row>
  {
    if n > 0 then JoinAll(g, o, Level(g, o, start, n - 1))
    else if start in g.entities && !g.entities[start].deleted then [Row(start, [start], [])]
    else []
  }

  /** The rows of rounds 1 to n; no later round adds any once n is MaxDepth. */
  function Upto(g: Graph, o: Opts, start: Id, n: nat): seq<Row>
  {
    if n == 0 then [] else Upto(g, o, start, n - 1) + Level(g, o, start, n)
  }

  lemma {:induction false} JoinSource(g: Graph, o: Opts, row: Row, relations: seq<Edge>, x: Row)
    returns (r: Edge)
    requires x in Join(g, o, row, relations)
    ensures r in relations && Extends(g, o, row, r) && x == Extend(row, r)
  {
    r := relations[0];
    if !(Extends(g, o, row, r) && x == Extend(row, r)) {
      r := JoinSource(g, o, row, relations[1..], x);
    }
  }

  lemma {:induction false} JoinHas(g: Graph, o: Opts, row: Row, relations: seq<Edge>, r: Edge)
    requires r in relations && Extends(g, o, row, r)
    ensures Extend(row, r) in Join(g, o, row, relations)
  {
    if r != relations[0] {
      assert relations == [relations[0]] + relations[1..];
      JoinHas(g, o, row, relations[1..], r);
    }
  }

  lemma {:induction false} JoinAllSource(g: Graph, o: Opts, rows: seq<Row>, x: Row) returns (row: Row)
    requires x in JoinAll(g, o, rows)
    ensures row in rows && x in Join(g, o, row, g.relations)
  {
    row := rows[0];
    if x !in Join(g, o, row, g.relations) {
      row := JoinAllSource(g, o, rows[1..], x);
    }
  }

  lemma {:induction false} JoinAllHas(g: Graph, o: Opts, rows: seq<Row>, row: Row, x: Row)
    requires row in rows && x in Join(g, o, row, g.relations)
    ensures x in JoinAll(g, o, rows)
  {
    if row != rows[0] {
      assert rows == [rows[0]] + rows[1..];
      JoinAllHas(g, o, rows[1..], row, x);
    }
  }

  lemma {:induction false} UptoLevel(g: Graph, o: Opts, start: Id, n: nat, x: Row) returns (k: nat)
    requires x in Upto(g, o, start, n)
    ensures 1 <= k <= n && x in Level(g, o, start, k)
  {
    if x in Level(g, o, start, n) {
      k := n;
    } else {
      k := UptoLevel(g, o, start, n - 1, x);
    }
  }

  lemma {:induction false} LevelInUpto(g: Graph, o: Opts, start: Id, n: nat, x: Row, k: nat)
    requires 1 <= k <= n && x in Level(g, o, start, k)
    ensures x in Upto(g, o, start, n)
    decreases n
  {
    if k < n { LevelInUpto(g, o, start, n - 1, x, k); }
  }

  // -------------------------------------------------------------------------
  // Every row is a simple walk
  // -------------------------------------------------------------------------

  ghost predicate Distinct(s: seq<Id>)
  {
    forall i, j :: 0 <= i < j < |s| ==> s[i] != s[j]
  }

  /** A connected walk of allowed edges from `start`, visiting no node twice,
      with every node after the start allowed. */
  ghost predicate IsWalk(g: Graph, o: Opts, start: Id, row: Row)
  {
    && |row.visited| == |row.path| + 1 && Distinct(row.visited)
    && row.visited[0] == start && row.visited[|row.path|] == row.id
    && (forall i :: 0 <= i < |row.path| ==>
          row.path[i] in g.relations && Follows(g, o, row.visited[i], row.path[i], row.visited[i + 1]))
  }

  lemma ExtendWalk(g: Graph, o: Opts, start: Id, row: Row, r: Edge)
    requires IsWalk(g, o, start, row) && r in g.relations && Extends(g, o, row, r)
    ensures IsWalk(g, o, start, Extend(row, r))
  {
  }

  lemma {:induction false} LevelSound(g: Graph, o: Opts, start: Id, n: nat, x: Row)
    requires x in Level(g, o, start, n)
    ensures IsWalk(g, o, start, x) && Depth(x) == n && (n > 0 ==> n <= o.maxDepth)
    ensures start in g.entities && !g.entities[start].deleted
  {
    if n > 0 {
      var prev := Level(g, o, start, n - 1);
      var row := JoinAllSource(g, o, prev, x);
      LevelSound(g, o, start, n - 1, row);
      var r := JoinSource(g, o, row, g.relations, x);
      ExtendWalk(g, o, start, row, r);
    }
  }

  // -------------------------------------------------------------------------
  // Breadth-first distance
  // -------------------------------------------------------------------------

  ghost predicate Adjacent(g: Graph, o: Opts, u: Id, v: Id)
  {
    exists r :: r in g.relations && Follows(g, o, u, r, v)
  }

  /** One hop, by the columns alone. */
  lemma AdjacentIff(g: Graph, o: Opts, u: Id, v: Id)
    ensures Adjacent(g, o, u, v) <==> MayEnter(g, o, v) && exists r :: LeadsTo(g, o, r, u, v)
  {
    if Adjacent(g, o, u, v) {
      var r :| r in g.relations && Follows(g, o, u, r, v);
      FollowsIff(g, o, u, r, v);
    }
    if r :| LeadsTo(g, o, r, u, v) && MayEnter(g, o, v) {
      FollowsIff(g, o, u, r, v);
    }
  }

  /** The nodes within `n` hops of the start. */
  ghost function Ball(g: Graph, o: Opts, start: Id, n: nat): set<Id>
  {
    if n == 0 then (if start in g.entities && !g.entities[start].deleted then {start} else {})
    else
      var near := Ball(g, o, start, n - 1);
      near + set v | v in g.entities && exists u :: u in near && Adjacent(g, o, u, v)
  }

  /** `v` is exactly `n` hops away. */
  ghost predicate AtDistance(g: Graph, o: Opts, start: Id, v: Id, n: nat)
  {
    v in Ball(g, o, start, n) && (n > 0 ==> v !in Ball(g, o, start, n - 1))
  }

  lemma {:induction false} BallGrows(g: Graph, o: Opts, start: Id, v: Id, m: nat, n: nat)
    requires m <= n && v in Ball(g, o, start, m)
    ensures v in Ball(g, o, start, n)
    decreases n
  {
    if m < n { BallGrows(g, o, start, v, m, n - 1); }
  }

  /** The distance is the least radius of a ball that holds the node. */
  lemma NotCloser(g: Graph, o: Opts, start: Id, v: Id, n: nat, i: nat)
    requires AtDistance(g, o, start, v, n) && i < n
    ensures v !in Ball(g, o, start, i)
  {
    if v in Ball(g, o, start, i) { BallGrows(g, o, start, v, i, n - 1); }
  }

  /** A walk cannot be shorter than the distance of its end. */
  lemma {:induction false} WalkInBall(g: Graph, o: Opts, start: Id, row: Row, i: nat)
    requires IsWalk(g, o, start, row) && i <= |row.path|
    requires start in g.entities && !g.entities[start].deleted
    ensures row.visited[i] in Ball(g, o, start, i)
    decreases i
  {
    if i > 0 {
      WalkInBall(g, o, start, row, i - 1);
      assert Follows(g, o, row.visited[i - 1], row.path[i - 1], row.visited[i]);
      assert Adjacent(g, o, row.visited[i - 1], row.visited[i]);
    }
  }

  /** A node at distance n > 0 is entered from one at distance n - 1. */
  lemma Predecessor(g: Graph, o: Opts, start: Id, v: Id, n: nat) returns (u: Id)
    requires n > 0 && AtDistance(g, o, start, v, n)
    ensures Adjacent(g, o, u, v) && AtDistance(g, o, start, u, n - 1)
  {
    u :| u in Ball(g, o, start, n - 1) && Adjacent(g, o, u, v);
    assert v in g.entities;
  }

  /** A node at distance n has a row of depth n, whose nodes are at distances
      0, 1, ..., n. */
  lemma {:induction false} ShortestRow(g: Graph, o: Opts, start: Id, v: Id, n: nat) returns (x: Row)
    requires AtDistance(g, o, start, v, n) && n <= o.maxDepth
    ensures x in Level(g, o, start, n) && |x.visited| == n + 1 && x.id == v
    ensures Outward(g, o, start, x.visited)
    decreases n
  {
    if n == 0 {
      x := Row(start, [start], []);
    } else {
      var u := Predecessor(g, o, start, v, n);
      var row := ShortestRow(g, o, start, u, n - 1);
      LevelSound(g, o, start, n - 1, row);
      var r :| r in g.relations && Follows(g, o, u, r, v);
      NotVisited(g, o, start, row.visited, v, n);
      assert Depth(row) == n - 1 && row.id == u;
      x := Extend(row, r);
      LevelStep(g, o, start, n - 1, row, r);
    }
  }

  /** The nodes seen are at the distances 0, 1, ... in turn. */
  ghost predicate Outward(g: Graph, o: Opts, start: Id, visited: seq<Id>)
  {
    forall i :: 0 <= i < |visited| ==> AtDistance(g, o, start, visited[i], i)
  }

  lemma NotVisited(g: Graph, o: Opts, start: Id, visited: seq<Id>, v: Id, n: nat)
    requires Outward(g, o, start, visited) && |visited| == n && AtDistance(g, o, start, v, n)
    ensures v !in visited && Outward(g, o, start, visited + [v])
  {
    forall i | 0 <= i < n ensures visited[i] != v {
      assert AtDistance(g, o, start, visited[i], i);
      NotCloser(g, o, start, v, n, i);
    }
  }

  lemma LevelStep(g: Graph, o: Opts, start: Id, n: nat, row: Row, r: Edge)
    requires row in Level(g, o, start, n) && r in g.relations && Extends(g, o, row, r)
    ensures Extend(row, r) in Level(g, o, start, n + 1)
  {
    JoinHas(g, o, row, g.relations, r);
    JoinAllHas(g, o, Level(g, o, start, n), row, Extend(row, r));
  }

  // -------------------------------------------------------------------------
  // Order, limit and deduplication
  // -------------------------------------------------------------------------

  function CreatedAt(g: Graph, v: Id): int
  {
    if v in g.entities then g.entities[v].createdAt else 0
  }

  /** ORDER BY depth, created_at. */
  ghost predicate InOrder(g: Graph, x: Row, y: Row)
  {
    Depth(x) < Depth(y) || (Depth(x) == Depth(y) && CreatedAt(g, x.id) <= CreatedAt(g, y.id))
  }

  /** `listing` is one of the orders the query may return its rows in: ties
      are broken arbitrarily. */
  ghost predicate IsListing(g: Graph, o: Opts, start: Id, listing: seq<Row>)
  {
    && o.maxDepth >= 0
    && multiset(listing) == multiset(Upto(g, o, start, o.maxDepth))
    && (forall i, j :: 0 <= i < j < |listing| ==> InOrder(g, listing[i], listing[j]))
  }

  /** The rows whose node did not occur before. */
  function FirstRows(rows: seq<Row>): seq<Row>
  {
    if rows == [] then []
    else
      var n := |rows| - 1;
      FirstRows(rows[..n]) + if exists i :: 0 <= i < n && rows[i].id == rows[n].id then [] else [rows[n]]
  }

  /** The row loop of Traverse. */
  method Deduplicate(rows: seq<Row>) returns (results: seq<Row>)
    ensures results == FirstRows(rows)
  {
    var seen: set<Id> := {};
    results := [];
    for n := 0 to |rows|
      invariant results == FirstRows(rows[..n])
      invariant forall v :: v in seen <==> exists i :: 0 <= i < n && rows[i].id == v
    {
      assert rows[..n + 1][..n] == rows[..n];
      assert forall i :: 0 <= i < n ==> rows[..n + 1][i] == rows[i];
      if rows[n].id !in seen {
        seen := seen + {rows[n].id};
        results := results + [rows[n]];
      }
    }
    assert rows[..|rows|] == rows;
  }

  /** What deduplication keeps: first occurrences, in their order, one for
      each node. */
  lemma {:induction false} FirstRowsMeaning(rows: seq<Row>, x: Row)
    requires x in FirstRows(rows)
    ensures exists n :: 0 <= n < |rows| && rows[n] == x && forall i :: 0 <= i < n ==> rows[i].id != x.id
  {
    var n := |rows| - 1;
    if x in FirstRows(rows[..n]) {
      FirstRowsMeaning(rows[..n], x);
      var m :| 0 <= m < n && rows[..n][m] == x && forall i :: 0 <= i < m ==> rows[..n][i].id != x.id;
      assert rows[m] == x;
      forall i | 0 <= i < m ensures rows[i].id != x.id {
        assert rows[..n][i] == rows[i];
      }
    } else {
      assert x == rows[n];
    }
  }

  lemma {:induction false} FirstRowsCover(rows: seq<Row>, i: nat)
    requires i < |rows|
    ensures exists x :: x in FirstRows(rows) && x.id == rows[i].id
  {
    var n := |rows| - 1;
    if i < n {
      FirstRowsCover(rows[..n], i);
    } else if k :| 0 <= k < n && rows[k].id == rows[n].id {
      FirstRowsCover(rows[..n], k);
    } else {
      assert rows[n] in FirstRows(rows);
    }
  }

  ghost predicate DistinctNodes(rows: seq<Row>)
  {
    forall i, j :: 0 <= i < j < |rows| ==> rows[i].id != rows[j].id
  }

  lemma {:induction false} FirstRowsDistinct(rows: seq<Row>)
    ensures DistinctNodes(FirstRows(rows)) && |FirstRows(rows)| <= |rows|
  {
    if rows != [] {
      var n := |rows| - 1;
      var kept := FirstRows(rows[..n]);
      FirstRowsDistinct(rows[..n]);
      if !(exists i :: 0 <= i < n && rows[i].id == rows[n].id) {
        forall j | 0 <= j < |kept| ensures kept[j].id != rows[n].id {
          FirstRowsMeaning(rows[..n], kept[j]);
          var m :| 0 <= m < n && rows[..n][m] == kept[j];
          assert rows[m] == kept[j];
        }
        assert FirstRows(rows) == kept + [rows[n]];
      }
    }
  }

  /** Rows keep their order. */
  lemma {:induction false} FirstRowsOrdered(g: Graph, rows: seq<Row>)
    requires forall i, j :: 0 <= i < j < |rows| ==> InOrder(g, rows[i], rows[j])
    ensures forall i, j :: 0 <= i < j < |FirstRows(rows)| ==> InOrder(g, FirstRows(rows)[i], FirstRows(rows)[j])
  {
    if rows != [] {
      var n := |rows| - 1;
      var kept := FirstRows(rows[..n]);
      FirstRowsOrdered(g, rows[..n]);
      forall i | 0 <= i < |kept| ensures InOrder(g, kept[i], rows[n]) {
        FirstRowsMeaning(rows[..n], kept[i]);
        var m :| 0 <= m < n && rows[..n][m] == kept[i];
        assert rows[m] == kept[i];
      }
      assert FirstRows(rows) == kept || FirstRows(rows) == kept + [rows[n]];
    }
  }

  // -------------------------------------------------------------------------
  // Traverse
  // -------------------------------------------------------------------------

  /** Each edge of the path leads from one node of it to the next, which may be
      entered. */
  ghost predicate PathByColumns(g: Graph, o: Opts, x: Row)
  {
    |x.visited| == |x.path| + 1 && forall i :: 0 <= i < |x.path| ==> HopByColumns(g, o, x, i)
  }

  predicate HopByColumns(g: Graph, o: Opts, x: Row, i: nat)
    requires i < |x.path| && |x.visited| == |x.path| + 1
  {
    LeadsTo(g, o, x.path[i], x.visited[i], x.visited[i + 1]) && MayEnter(g, o, x.visited[i + 1])
  }

  lemma WalkByColumns(g: Graph, o: Opts, start: Id, x: Row)
    requires IsWalk(g, o, start, x)
    ensures PathByColumns(g, o, x)
  {
    forall i | 0 <= i < |x.path| ensures HopByColumns(g, o, x, i) {
      FollowsIff(g, o, x.visited[i], x.path[i], x.visited[i + 1]);
    }
  }

  /** The results come nearest first, and of one distance eldest first. */
  ghost predicate ResultsInOrder(g: Graph, results: seq<Row>)
  {
    forall i, j :: 0 <= i < j < |results| ==>
      || |results[i].path| < |results[j].path|
      || (|results[i].path| == |results[j].path| && CreatedAt(g, results[i].id) <= CreatedAt(g, results[j].id))
  }

  lemma TraverseOrdered(g: Graph, o: Opts, start: Id, listing: seq<Row>, limit: nat)
    requires IsListing(g, o, start, listing)
    ensures ResultsInOrder(g, FirstRows(Cut(listing, limit)))
  {
    var rows := Cut(listing, limit);
    assert forall i :: 0 <= i < |rows| ==> rows[i] == listing[i];
    FirstRowsOrdered(g, rows);
    forall i, j | 0 <= i < j < |FirstRows(rows)|
      ensures InOrder(g, FirstRows(rows)[i], FirstRows(rows)[j]) {}
  }

  function Cut(listing: seq<Row>, limit: nat): seq<Row>
  {
    if |listing| <= limit then listing else listing[..limit]
  }

  /** Every listed row is a simple walk, of some depth from 1 to MaxDepth. */
  lemma ListedIsWalk(g: Graph, o: Opts, start: Id, listing: seq<Row>, x: Row)
    requires IsListing(g, o, start, listing) && x in listing
    ensures IsWalk(g, o, start, x) && 1 <= Depth(x) <= o.maxDepth
    ensures x.id in Ball(g, o, start, Depth(x))
  {
    assert x in multiset(listing);
    assert x in Upto(g, o, start, o.maxDepth);
    var k := UptoLevel(g, o, start, o.maxDepth, x);
    LevelSound(g, o, start, k, x);
    WalkInBall(g, o, start, x, k);
  }

  /** A node at distance n within MaxDepth is listed at depth n. */
  lemma NodeIsListed(g: Graph, o: Opts, start: Id, listing: seq<Row>, v: Id, n: nat) returns (i: nat)
    requires IsListing(g, o, start, listing) && AtDistance(g, o, start, v, n) && 1 <= n <= o.maxDepth
    ensures i < |listing| && listing[i].id == v && Depth(listing[i]) == n
  {
    var x := ShortestRow(g, o, start, v, n);
    LevelSound(g, o, start, n, x);
    LevelInUpto(g, o, start, o.maxDepth, x, n);
    assert x in multiset(Upto(g, o, start, o.maxDepth));
    assert x in multiset(listing);
    i :| 0 <= i < |listing| && listing[i] == x;
  }

  lemma {:induction false} HasDistance(g: Graph, o: Opts, start: Id, v: Id, n: nat) returns (d: nat)
    requires v in Ball(g, o, start, n)
    ensures d <= n && AtDistance(g, o, start, v, d)
    decreases n
  {
    if n > 0 && v in Ball(g, o, start, n - 1) {
      d := HasDistance(g, o, start, v, n - 1);
    } else {
      d := n;
    }
  }

  /** The first listed row of a node has the node's distance as its depth. */
  lemma FirstRowIsShortest(g: Graph, o: Opts, start: Id, listing: seq<Row>, p: nat)
    requires IsListing(g, o, start, listing) && p < |listing|
    requires forall i :: 0 <= i < p ==> listing[i].id != listing[p].id
    ensures AtDistance(g, o, start, listing[p].id, Depth(listing[p]))
  {
    var x := listing[p];
    var v := x.id;
    ListedIsWalk(g, o, start, listing, x);
    var d := HasDistance(g, o, start, v, Depth(x));
    if d == 0 {
      StartOnly(g, o, start, v, x);
    } else {
      var i := NodeIsListed(g, o, start, listing, v, d);
      if p < i { assert InOrder(g, listing[p], listing[i]); }
    }
  }

  lemma StartOnly(g: Graph, o: Opts, start: Id, v: Id, x: Row)
    requires IsWalk(g, o, start, x) && Depth(x) >= 1 && x.id == v
    ensures v !in Ball(g, o, start, 0)
  {
  }

  /** Traversal is breadth-first search, whichever order ties come in and
      wherever LIMIT cuts. */
  lemma ResultsAreBfs(g: Graph, o: Opts, start: Id, listing: seq<Row>, limit: nat, x: Row)
    requires IsListing(g, o, start, listing) && x in FirstRows(Cut(listing, limit))
    ensures IsWalk(g, o, start, x) && 1 <= Depth(x) <= o.maxDepth
    ensures AtDistance(g, o, start, x.id, Depth(x))
  {
    var rows := Cut(listing, limit);
    FirstRowsMeaning(rows, x);
    var n :| 0 <= n < |rows| && rows[n] == x && forall i :: 0 <= i < n ==> rows[i].id != x.id;
    assert forall i :: 0 <= i <= n ==> rows[i] == listing[i];
    FirstRowIsShortest(g, o, start, listing, n);
    ListedIsWalk(g, o, start, listing, x);
  }

  /** Whoever is missing although within MaxDepth was cut off by LIMIT, and
      then no result is further away than it. */
  lemma MissingIsFurther(g: Graph, o: Opts, start: Id, listing: seq<Row>, limit: nat, v: Id, n: nat)
    requires IsListing(g, o, start, listing) && AtDistance(g, o, start, v, n) && 1 <= n <= o.maxDepth
    requires forall x :: x in FirstRows(Cut(listing, limit)) ==> x.id != v
    ensures |listing| > limit
    ensures forall x :: x in FirstRows(Cut(listing, limit)) ==> Depth(x) <= n
  {
    var rows := Cut(listing, limit);
    var i := NodeIsListed(g, o, start, listing, v, n);
    if i < |rows| { FirstRowsCover(rows, i); }
    forall x | x in FirstRows(rows) ensures Depth(x) <= n {
      FirstRowsMeaning(rows, x);
      var m :| 0 <= m < |rows| && rows[m] == x;
      assert InOrder(g, listing[m], listing[i]);
    }
  }

  /** Store.Traverse, given the rows in the order the database returns them:
      distinct entities, each at its true distance with a simple path to it,
      none further away than one that is missing; all of them when LIMIT does
      not bind.  Which edges and entities count is said by their columns. */
  method Traverse(g: Graph, o: Opts, start: Id, listing: seq<Row>) returns (results: seq<Row>)
    requires IsListing(g, Defaults(o), start, listing)
    ensures results == FirstRows(Cut(listing, Defaults(o).maxResults))
    ensures DistinctNodes(results) && |results| <= Defaults(o).maxResults && ResultsInOrder(g, results)
    ensures forall x :: x in results ==> PathByColumns(g, Defaults(o), x)
    ensures forall x :: x in results ==>
              && IsWalk(g, Defaults(o), start, x) && 1 <= Depth(x) <= Defaults(o).maxDepth
              && AtDistance(g, Defaults(o), start, x.id, Depth(x))
    ensures |listing| <= Defaults(o).maxResults ==>
            forall v, n :: 1 <= n <= Defaults(o).maxDepth && AtDistance(g, Defaults(o), start, v, n) ==>
              exists x :: x in results && x.id == v
    ensures forall v, n ::
              (&& 1 <= n <= Defaults(o).maxDepth && AtDistance(g, Defaults(o), start, v, n)
               && forall y :: y in results ==> y.id != v)
              ==> forall x :: x in results ==> Depth(x) <= n
  {
    var d := Defaults(o);
    var rows := Cut(listing, d.maxResults);
    results := Deduplicate(rows);
    FirstRowsDistinct(rows);
    forall x | x in results
      ensures IsWalk(g, d, start, x) && 1 <= Depth(x) <= d.maxDepth && AtDistance(g, d, start, x.id, Depth(x))
      ensures PathByColumns(g, d, x)
    {
      ResultsAreBfs(g, d, start, listing, d.maxResults, x);
      WalkByColumns(g, d, start, x);
    }
    TraverseOrdered(g, d, start, listing, d.maxResults);
    forall v, n | 1 <= n <= d.maxDepth && AtDistance(g, d, start, v, n) && forall y :: y in results ==> y.id != v
      ensures |listing| > d.maxResults && forall x :: x in results ==> Depth(x) <= n
    {
      MissingIsFurther(g, d, start, listing, d.maxResults, v, n);
    }
  }

  // -------------------------------------------------------------------------
  // Scoped traversal
  // -------------------------------------------------------------------------

  /** What a scope promises of a node on a result's path: it is live, visible
      in the scope unless the caller's filter has a loophole, and passes the
      caller's filter unless the scope's exclusion replaces the caller's. */
  ghost predicate InScope(g: Graph, c: Scope, filter: Option<QueryFilter>, v: Id)
  {
    && v in g.entities && !g.entities[v].deleted
    && (filter.None? || !Leaks(c, filter.value) ==> Visible(c, g.entities[v].tags))
    && (filter.Some? && !Drops(c, filter.value) ==> Passes(filter.value, g.entities[v].tags))
  }

  /** ScopedStore.Traverse: distinct entities at their true distances in the
      graph the merged filter leaves, each with a simple path whose nodes after
      the start are in scope. */
  method ScopedTraverse(g: Graph, c: Scope, o: Opts, filter: Option<QueryFilter>, start: Id, listing: seq<Row>)
    returns (results: seq<Row>)
    requires IsListing(g, Defaults(o.(filter := MergeFilter(c, filter))), start, listing)
    ensures results == FirstRows(Cut(listing, Defaults(o).maxResults))
    ensures DistinctNodes(results) && |results| <= Defaults(o).maxResults && ResultsInOrder(g, results)
    ensures forall x :: x in results ==> PathByColumns(g, Defaults(o.(filter := MergeFilter(c, filter))), x)
    ensures var d := Defaults(o.(filter := MergeFilter(c, filter)));
            forall x :: x in results ==>
              && IsWalk(g, d, start, x) && 1 <= Depth(x) <= d.maxDepth && AtDistance(g, d, start, x.id, Depth(x))
    ensures forall x, i :: x in results && 1 <= i < |x.visited| ==> InScope(g, c, filter, x.visited[i])
  {
    var scoped := o.(filter := MergeFilter(c, filter));
    results := Traverse(g, scoped, start, listing);
    forall x, i | x in results && 1 <= i < |x.visited| ensures InScope(g, c, filter, x.visited[i]) {
      ScopedNode(g, c, Defaults(scoped), filter, start, x, i);
    }
  }

  lemma ScopedNode(g: Graph, c: Scope, o: Opts, filter: Option<QueryFilter>, start: Id, x: Row, i: nat)
    requires o.filter == MergeFilter(c, filter) && IsWalk(g, o, start, x) && 1 <= i < |x.visited|
    ensures InScope(g, c, filter, x.visited[i])
  {
    assert Follows(g, o, x.visited[i - 1], x.path[i - 1], x.visited[i]);
    var tags := g.entities[x.visited[i]].tags;
    if filter.None? {
      MergeNilIsVisible(c, tags);
    } else {
      if !Leaks(c, filter.value) { PassingIsVisible(c, filter.value, tags); }
      if !Passes(filter.value, tags) { UnwantedDrops(c, filter.value, tags); }
    }
  }
}
