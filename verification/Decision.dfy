/** Matcher.Match of matching/matcher.go: the anchor short-circuit, candidate
    retrieval, ranking and the threshold bands.  What the store returns for
    the anchor, token and embedding lookups is given. */
module Decisions {
  import opened Basics
  import opened Matcher

  datatype Candidate = Candidate(id: string, fields: Fields)

  datatype Scored = Scored(entity: Candidate, score: real)

  datatype Action = ToCreate | ToUpdate | ToConflict | ToReview

  datatype Means = ByAnchor | ByScore | ByNothing

  datatype Decision = Decision(action: Action, matched: Option<string>, confidence: real, means: Means,
                               plan: seq<FieldMergeOp>, candidates: seq<Scored>)

  // -------------------------------------------------------------------------
  // Retrieval
  // -------------------------------------------------------------------------

  ghost predicate DistinctIds(cs: seq<Candidate>)
  {
    forall i, j :: 0 <= i < j < |cs| ==> cs[i].id != cs[j].id
  }

  /** The record is among the hits, and the first with its id. */
  ghost predicate FirstOfId(hits: seq<Candidate>, c: Candidate)
  {
    exists n :: 0 <= n < |hits| && hits[n] == c && forall m :: 0 <= m < n ==> hits[m].id != c.id
  }

  /** The hits whose id did not occur before. */
  function FirstHits(hits: seq<Candidate>): seq<Candidate>
  {
    if hits == [] then []
    else
      var n := |hits| - 1;
      FirstHits(hits[..n]) + if exists i :: 0 <= i < n && hits[i].id == hits[n].id then [] else [hits[n]]
  }

  lemma {:induction false} FirstHitsAreFirst(hits: seq<Candidate>, c: Candidate)
    requires c in FirstHits(hits)
    ensures FirstOfId(hits, c)
  {
    var n := |hits| - 1;
    if c in FirstHits(hits[..n]) {
      FirstHitsAreFirst(hits[..n], c);
      var m :| 0 <= m < n && hits[..n][m] == c && forall i :: 0 <= i < m ==> hits[..n][i].id != c.id;
      assert hits[m] == c && forall i :: 0 <= i < m ==> hits[i] == hits[..n][i];
    }
  }

  lemma {:induction false} FirstHitsCover(hits: seq<Candidate>, i: nat)
    requires i < |hits|
    ensures exists r :: r in FirstHits(hits) && r.id == hits[i].id
  {
    var n := |hits| - 1;
    if i < n {
      FirstHitsCover(hits[..n], i);
    } else if k :| 0 <= k < n && hits[k].id == hits[n].id {
      FirstHitsCover(hits[..n], k);
    } else {
      assert hits[n] in FirstHits(hits);
    }
  }

  lemma {:induction false} FirstHitsDistinct(hits: seq<Candidate>)
    ensures DistinctIds(FirstHits(hits))
  {
    if hits != [] {
      var n := |hits| - 1;
      var kept := FirstHits(hits[..n]);
      FirstHitsDistinct(hits[..n]);
      if !(exists i :: 0 <= i < n && hits[i].id == hits[n].id) {
        forall j | 0 <= j < |kept| ensures kept[j].id != hits[n].id {
          FirstHitsAreFirst(hits[..n], kept[j]);
        }
        assert FirstHits(hits) == kept + [hits[n]];
      }
    }
  }

  /** The hits with repeated ids left out: distinct, the first of each id, and
      nobody is lost. */
  method RetrieveFuzzyCandidates(tokenHits: seq<Candidate>, embeddingHits: seq<Candidate>)
    returns (result: seq<Candidate>)
    ensures result == FirstHits(tokenHits + embeddingHits) && DistinctIds(result)
    ensures forall c :: c in result ==> FirstOfId(tokenHits + embeddingHits, c)
    ensures Represents(result, tokenHits + embeddingHits)
    ensures result == [] <==> tokenHits + embeddingHits == []
  {
    var hits := tokenHits + embeddingHits;
    var seen: set<string> := {};
    result := [];
    for n := 0 to |hits|
      invariant result == FirstHits(hits[..n])
      invariant forall id :: id in seen <==> exists m :: 0 <= m < n && hits[m].id == id
    {
      assert hits[..n + 1][..n] == hits[..n];
      assert forall m :: 0 <= m < n ==> hits[..n + 1][m] == hits[m];
      if hits[n].id !in seen {
        seen := seen + {hits[n].id};
        result := result + [hits[n]];
      }
    }
    assert hits[..|hits|] == hits;
    HitsRepresented(hits);
  }

  /** Every hit is represented, and only hits are. */
  ghost predicate Represents(cands: seq<Candidate>, hits: seq<Candidate>)
  {
    && (forall c :: c in cands ==> c in hits)
    && (forall c :: c in hits ==> exists r :: r in cands && r.id == c.id)
  }

  lemma HitsRepresented(hits: seq<Candidate>)
    ensures DistinctIds(FirstHits(hits)) && Represents(FirstHits(hits), hits)
    ensures forall c :: c in FirstHits(hits) ==> FirstOfId(hits, c)
    ensures FirstHits(hits) == [] <==> hits == []
  {
    FirstHitsDistinct(hits);
    forall c | c in FirstHits(hits) ensures FirstOfId(hits, c) && c in hits {
      FirstHitsAreFirst(hits, c);
    }
    forall c | c in hits ensures exists r :: r in FirstHits(hits) && r.id == c.id {
      var i :| 0 <= i < |hits| && hits[i] == c;
      FirstHitsCover(hits, i);
    }
    if hits != [] { FirstHitsCover(hits, 0); }
  }

  // -------------------------------------------------------------------------
  // Ranking
  // -------------------------------------------------------------------------

  ghost predicate Descending(s: seq<Scored>)
  {
    forall i, j :: 0 <= i < j < |s| ==> s[i].score >= s[j].score
  }

  function InsertByScore(s: seq<Scored>, x: Scored): seq<Scored>
  {
    if s == [] || x.score > s[0].score then [x] + s else [s[0]] + InsertByScore(s[1..], x)
  }

  lemma {:induction false} InsertByScoreMembers(s: seq<Scored>, x: Scored)
    ensures multiset(InsertByScore(s, x)) == multiset(s) + multiset{x}
    ensures forall y :: y in InsertByScore(s, x) ==> y in s || y == x
  {
    if s != [] && x.score <= s[0].score {
      InsertByScoreMembers(s[1..], x);
      assert s == [s[0]] + s[1..];
    }
  }

  lemma {:induction false} InsertByScoreSorted(s: seq<Scored>, x: Scored)
    requires Descending(s)
    ensures Descending(InsertByScore(s, x))
  {
    if s != [] && x.score <= s[0].score {
      var rest := InsertByScore(s[1..], x);
      InsertByScoreSorted(s[1..], x);
      InsertByScoreMembers(s[1..], x);
      forall y | y in rest ensures y.score <= s[0].score {
        if y != x {
          var i :| 0 <= i < |s[1..]| && s[1..][i] == y;
          assert s[i + 1] == y;
        }
      }
    }
  }

  method SortByScore(scored: seq<Scored>) returns (ranked: seq<Scored>)
    ensures Descending(ranked) && multiset(ranked) == multiset(scored)
  {
    ranked := [];
    for n := 0 to |scored|
      invariant Descending(ranked) && multiset(ranked) == multiset(scored[..n])
    {
      InsertByScoreSorted(ranked, scored[n]);
      InsertByScoreMembers(ranked, scored[n]);
      assert scored[..n + 1] == scored[..n] + [scored[n]];
      ranked := InsertByScore(ranked, scored[n]);
    }
    assert scored[..|scored|] == scored;
  }

  ghost function ScoreOf(cfg: Config, data: Fields, c: Candidate): real
  {
    Score(cfg, data, c.fields, cfg.weights)
  }

  /** Each candidate with its score, in retrieval order. */
  ghost predicate AreScores(cfg: Config, data: Fields, cands: seq<Candidate>, scored: seq<Scored>)
  {
    && |scored| == |cands|
    && forall i :: 0 <= i < |cands| ==> scored[i].entity == cands[i] && scored[i].score == ScoreOf(cfg, data, cands[i])
  }

  method ScoreAll(cfg: Config, data: Fields, cands: seq<Candidate>) returns (scored: seq<Scored>)
    ensures AreScores(cfg, data, cands, scored)
  {
    scored := [];
    for n := 0 to |cands|
      invariant |scored| == n
      invariant forall i :: 0 <= i < n ==>
                  scored[i].entity == cands[i] && scored[i].score == ScoreOf(cfg, data, cands[i])
    {
      var score := ScoreCandidate(cfg, data, cands[n].fields);
      scored := scored + [Scored(cands[n], score)];
    }
  }

  /** One of the arrangements a sort by descending score may produce. */
  ghost predicate IsRanking(cfg: Config, data: Fields, cands: seq<Candidate>, ranked: seq<Scored>)
  {
    Descending(ranked)
    && exists scored :: AreScores(cfg, data, cands, scored) && multiset(ranked) == multiset(scored)
  }

  /** The highest score any candidate has. */
  ghost predicate IsBest(cfg: Config, data: Fields, cands: seq<Candidate>, best: real)
  {
    && (exists c :: c in cands && ScoreOf(cfg, data, c) == best)
    && (forall c :: c in cands ==> ScoreOf(cfg, data, c) <= best)
  }

  lemma TopIsBest(cfg: Config, data: Fields, cands: seq<Candidate>, scored: seq<Scored>, ranked: seq<Scored>)
    requires cands != [] && AreScores(cfg, data, cands, scored)
    requires Descending(ranked) && multiset(ranked) == multiset(scored)
    ensures ranked != [] && IsRanking(cfg, data, cands, ranked)
    ensures IsBest(cfg, data, cands, ranked[0].score) && ranked[0].entity in cands
  {
    assert |ranked| == |multiset(ranked)| == |multiset(scored)| == |scored|;
    assert ranked[0] in multiset(ranked);
    assert ranked[0] in multiset(scored);
    var t :| 0 <= t < |scored| && scored[t] == ranked[0];
    assert cands[t] in cands && ScoreOf(cfg, data, cands[t]) == ranked[0].score;
    forall c | c in cands ensures ScoreOf(cfg, data, c) <= ranked[0].score {
      var i :| 0 <= i < |cands| && cands[i] == c;
      assert scored[i] in multiset(scored);
      assert scored[i] in multiset(ranked);
      var j :| 0 <= j < |ranked| && ranked[j] == scored[i];
    }
  }

  // -------------------------------------------------------------------------
  // Bands
  // -------------------------------------------------------------------------

  datatype Band = CreateBand | ReviewBand | AutoBand

  function BandOf(cfg: Config, score: real): Band
  {
    if score < cfg.reviewZone then CreateBand
    else if score >= cfg.autoMatch then AutoBand
    else ReviewBand
  }

  function BandOfAction(a: Action): Band
  {
    match a
    case ToCreate => CreateBand
    case ToReview => ReviewBand
    case _ => AutoBand
  }

  predicate HasConflict(plan: seq<FieldMergeOp>)
  {
    exists p :: p in plan && p.op.Conflict?
  }

  method HasConflictOps(plan: seq<FieldMergeOp>) returns (has: bool)
    ensures has == HasConflict(plan)
  {
    for n := 0 to |plan|
      invariant forall m :: 0 <= m < n ==> !plan[m].op.Conflict?
    {
      if plan[n].op.Conflict? { return true; }
    }
    return false;
  }

  /** An update of `c`, or a conflict when the plan cannot be carried out alone. */
  ghost predicate Merges(cfg: Config, data: Fields, c: Candidate, d: Decision)
  {
    && IsPlan(cfg, data, c.fields, d.plan) && d.matched == Some(c.id)
    && d.action == if exists p :: p in d.plan && p.op.Conflict? then ToConflict else ToUpdate
  }

  /** A decision from scores: the band of the best score, and, unless it is a
      new entity, a candidate that has it. */
  ghost predicate ByBestScore(cfg: Config, data: Fields, cands: seq<Candidate>, d: Decision)
  {
    && d.means.ByScore? && IsRanking(cfg, data, cands, d.candidates) && d.candidates != []
    && IsBest(cfg, data, cands, d.candidates[0].score)
    && BandOfAction(d.action) == BandOf(cfg, d.candidates[0].score)
    && (d.action.ToCreate? <==> d.candidates[0].score < cfg.reviewZone)
    && (d.action.ToReview? <==> cfg.reviewZone <= d.candidates[0].score < cfg.autoMatch)
    && (!BandOfAction(d.action).AutoBand? ==> d.plan == [])
    && (!d.action.ToCreate? ==> d.matched == Some(d.candidates[0].entity.id) && d.confidence == d.candidates[0].score)
    && (BandOfAction(d.action).AutoBand? ==> Merges(cfg, data, d.candidates[0].entity, d))
    && (d.action.ToCreate? ==> d.matched.None? && d.confidence == 0.0)
  }

  method DecideByScore(cfg: Config, data: Fields, cands: seq<Candidate>) returns (d: Decision)
    requires cands != []
    ensures ByBestScore(cfg, data, cands, d)
  {
    var scored := ScoreAll(cfg, data, cands);
    var ranked := SortByScore(scored);
    TopIsBest(cfg, data, cands, scored, ranked);
    var best := ranked[0];
    if best.score < cfg.reviewZone {
      return Decision(ToCreate, None, 0.0, ByScore, [], ranked);
    }
    if best.score >= cfg.autoMatch {
      var plan := BuildMergePlan(cfg, data, best.entity.fields);
      var conflict := HasConflictOps(plan);
      var action := if conflict then ToConflict else ToUpdate;
      return Decision(action, Some(best.entity.id), best.score, ByScore, plan, ranked);
    }
    return Decision(ToReview, Some(best.entity.id), best.score, ByScore, [], ranked);
  }

  /** What the lookups and the scores make of a record. */
  ghost predicate IsDecision(cfg: Config, data: Fields, anchorMatches: seq<Candidate>, hits: seq<Candidate>,
                             cands: seq<Candidate>, d: Decision)
  {
    if |anchorMatches| == 1 then
      && Merges(cfg, data, anchorMatches[0], d) && d.confidence == 1.0 && d.means.ByAnchor?
      && d.candidates == [Scored(anchorMatches[0], 1.0)]
    else if |anchorMatches| > 1 then
      && d.action.ToConflict? && d.matched.None? && d.confidence == 0.0 && d.plan == [] && d.means.ByAnchor?
      && |d.candidates| == |anchorMatches|
      && forall n :: 0 <= n < |anchorMatches| ==> d.candidates[n] == Scored(anchorMatches[n], 1.0)
    else if hits == [] then
      && d.action.ToCreate? && d.matched.None? && d.confidence == 0.0 && d.means.ByNothing?
      && d.plan == [] && d.candidates == []
    else
      && cands == FirstHits(hits) && DistinctIds(cands) && Represents(cands, hits)
      && ByBestScore(cfg, data, cands, d)
  }

  method Match(cfg: Config, data: Fields, anchorMatches: seq<Candidate>, tokenHits: seq<Candidate>,
               embeddingHits: seq<Candidate>) returns (d: Decision, cands: seq<Candidate>)
    ensures IsDecision(cfg, data, anchorMatches, tokenHits + embeddingHits, cands, d)
  {
    cands := [];
    var anchored := seq(|anchorMatches|, n requires 0 <= n < |anchorMatches| => Scored(anchorMatches[n], 1.0));
    if |anchorMatches| == 1 {
      var plan := BuildMergePlan(cfg, data, anchorMatches[0].fields);
      var conflict := HasConflictOps(plan);
      var action := if conflict then ToConflict else ToUpdate;
      d := Decision(action, Some(anchorMatches[0].id), 1.0, ByAnchor, plan, anchored);
      return;
    }
    if |anchorMatches| > 1 {
      d := Decision(ToConflict, None, 0.0, ByAnchor, [], anchored);
      return;
    }
    cands := RetrieveFuzzyCandidates(tokenHits, embeddingHits);
    if |cands| == 0 {
      d := Decision(ToCreate, None, 0.0, ByNothing, [], []);
      return;
    }
    d := DecideByScore(cfg, data, cands);
  }

  /** The band depends on the best score alone, and neither depends on the
      order in which candidates were retrieved or ties were ranked. */
  lemma BandIgnoresOrder(cfg: Config, data: Fields, xs: seq<Candidate>, ys: seq<Candidate>, d: Decision, e: Decision)
    requires ByBestScore(cfg, data, xs, d) && ByBestScore(cfg, data, ys, e)
    requires forall c :: c in xs <==> c in ys
    ensures d.candidates[0].score == e.candidates[0].score
    ensures BandOfAction(d.action) == BandOfAction(e.action)
    ensures d.action.ToCreate? || d.confidence == e.confidence
  {
  }

  /** Hits with one id are one record. */
  ghost predicate OneRecordPerId(hits: seq<Candidate>)
  {
    forall c, e :: c in hits && e in hits && c.id == e.id ==> c == e
  }

  lemma SameEmpty(xs: seq<Candidate>, ys: seq<Candidate>)
    requires forall c :: c in xs <==> c in ys
    ensures xs == [] <==> ys == []
  {
    if xs != [] { assert xs[0] in ys; }
    if ys != [] { assert ys[0] in xs; }
  }

  lemma SameCandidates(hits: seq<Candidate>, hits': seq<Candidate>, cands: seq<Candidate>, cands': seq<Candidate>)
    requires OneRecordPerId(hits) && forall c :: c in hits <==> c in hits'
    requires Represents(cands, hits) && Represents(cands', hits')
    ensures forall c :: c in cands <==> c in cands'
  {
    forall c | c in cands ensures c in cands' {
      var r :| r in cands' && r.id == c.id;
    }
    forall c | c in cands' ensures c in cands {
      var r :| r in cands && r.id == c.id;
    }
  }

  lemma MergesAgree(cfg: Config, data: Fields, c: Candidate, d: Decision, e: Decision)
    requires Merges(cfg, data, c, d) && Merges(cfg, data, c, e)
    ensures d.plan == e.plan && d.action == e.action && d.matched == e.matched
  {
    PlanUnique(cfg, data, c.fields, d.plan);
    PlanUnique(cfg, data, c.fields, e.plan);
  }

  /** Two runs of Match on the same anchor matches and the same set of hits,
      in whatever order and from whichever lookup, agree: on how the decision
      was made, its band and its confidence; on the whole outcome after one
      anchor match; and on the best score after none. */
  lemma MatchIgnoresOrder(cfg: Config, data: Fields, anchorMatches: seq<Candidate>, hits: seq<Candidate>,
                          hits': seq<Candidate>, cands: seq<Candidate>, cands': seq<Candidate>,
                          d: Decision, e: Decision)
    requires IsDecision(cfg, data, anchorMatches, hits, cands, d)
    requires IsDecision(cfg, data, anchorMatches, hits', cands', e)
    requires OneRecordPerId(hits) && forall c :: c in hits <==> c in hits'
    ensures d.means == e.means && BandOfAction(d.action) == BandOfAction(e.action) && d.confidence == e.confidence
    ensures anchorMatches != [] ==> d.action == e.action && d.matched == e.matched && d.plan == e.plan
    ensures d.means.ByScore? ==>
            d.candidates != [] && e.candidates != [] && d.candidates[0].score == e.candidates[0].score
  {
    if |anchorMatches| == 1 {
      MergesAgree(cfg, data, anchorMatches[0], d, e);
    } else if anchorMatches == [] {
      SameEmpty(hits, hits');
      if hits != [] {
        SameCandidates(hits, hits', cands, cands');
        BandIgnoresOrder(cfg, data, cands, cands', d, e);
      }
    }
  }
}
