/** The match decision of matching/matcher.go: weighted scores, thresholds and
    the merge plan. */
module Matcher {
  import opened Similarities

  /** The string fields of a record, as extractFields returns them. */
  type Fields = map<string, string>

  datatype FieldWeight = FieldWeight(field: string, weight: real, similarity: SimilarityFunc)

  datatype Strategy = LatestWins | HighestConfidence | FlagForReview | NoStrategy

  /** `upper` and `tok` stand for the Unicode tables the code relies on. */
  datatype Config = Config(weights: seq<FieldWeight>, strategies: map<string, Strategy>,
                           normalizers: map<string, string -> string>, autoMatch: real, reviewZone: real,
                           tok: Tokenizer, upper: char -> char)

  // -------------------------------------------------------------------------
  // Field access
  // -------------------------------------------------------------------------

  /** Drops underscores and raises the letter after each one. */
  function Camel(upper: char -> char, s: string, raise: bool): string
    decreases |s|
  {
    if s == [] then []
    else if s[0] == '_' then Camel(upper, s[1..], true)
    else [if raise then upper(s[0]) else s[0]] + Camel(upper, s[1..], false)
  }

  function CamelName(cfg: Config, field: string): string
  {
    Camel(cfg.upper, field, false)
  }

  function FieldValue(cfg: Config, fields: Fields, name: string): string
  {
    if name in fields then fields[name]
    else if CamelName(cfg, name) in fields then fields[CamelName(cfg, name)]
    else ""
  }

  function Normalize(cfg: Config, value: string, field: string): string
  {
    if field in cfg.normalizers then cfg.normalizers[field](value) else value
  }

  // -------------------------------------------------------------------------
  // Scores
  // -------------------------------------------------------------------------

  function Weighted(s: real, w: real): real
  {
    if w <= 0.0 then 0.0 else s * w
  }

  /** The similarity of one field, after normalisation. */
  ghost function FieldSimilarity(cfg: Config, extracted: Fields, candidate: Fields, fw: FieldWeight): real
  {
    Similarity(cfg.tok, fw.similarity,
               Normalize(cfg, FieldValue(cfg, extracted, fw.field), fw.field),
               Normalize(cfg, FieldValue(cfg, candidate, fw.field), fw.field))
  }

  ghost function FieldScore(cfg: Config, extracted: Fields, candidate: Fields, fw: FieldWeight): real
  {
    Weighted(FieldSimilarity(cfg, extracted, candidate, fw), fw.weight)
  }

  ghost function Score(cfg: Config, extracted: Fields, candidate: Fields, weights: seq<FieldWeight>): real
  {
    if weights == [] then 0.0
    else Score(cfg, extracted, candidate, weights[..|weights| - 1])
         + FieldScore(cfg, extracted, candidate, weights[|weights| - 1])
  }

  function PositiveSum(weights: seq<FieldWeight>): real
  {
    if weights == [] then 0.0
    else
      var w := weights[|weights| - 1].weight;
      PositiveSum(weights[..|weights| - 1]) + if w <= 0.0 then 0.0 else w
  }

  method CompareField(cfg: Config, extracted: Fields, candidate: Fields, fw: FieldWeight) returns (score: real)
    ensures score == FieldSimilarity(cfg, extracted, candidate, fw)
  {
    var ev := Normalize(cfg, FieldValue(cfg, extracted, fw.field), fw.field);
    var cv := Normalize(cfg, FieldValue(cfg, candidate, fw.field), fw.field);
    score := ComputeSimilarity(cfg.tok, fw.similarity, ev, cv);
  }

  /** One term of the sum. */
  method ScoreField(cfg: Config, extracted: Fields, candidate: Fields, fw: FieldWeight) returns (r: real)
    requires fw.weight > 0.0
    ensures r == FieldScore(cfg, extracted, candidate, fw)
  {
    var score := CompareField(cfg, extracted, candidate, fw);
    r := score * fw.weight;
  }

  lemma ScoreNext(cfg: Config, extracted: Fields, candidate: Fields, ws: seq<FieldWeight>, n: nat)
    requires n < |ws|
    ensures Score(cfg, extracted, candidate, ws[..n + 1])
         == Score(cfg, extracted, candidate, ws[..n]) + FieldScore(cfg, extracted, candidate, ws[n])
    ensures ws[n].weight <= 0.0 ==> FieldScore(cfg, extracted, candidate, ws[n]) == 0.0
  {
    assert ws[..n + 1][..n] == ws[..n] && ws[..n + 1][n] == ws[n];
  }

  method ScoreCandidate(cfg: Config, extracted: Fields, candidate: Fields) returns (totalScore: real)
    ensures totalScore == Score(cfg, extracted, candidate, cfg.weights)
  {
    totalScore := 0.0;
    var ws := cfg.weights;
    for n := 0 to |ws|
      invariant totalScore == Score(cfg, extracted, candidate, ws[..n])
    {
      var fw := ws[n];
      ScoreNext(cfg, extracted, candidate, ws, n);
      if fw.weight <= 0.0 { continue; }
      var term := ScoreField(cfg, extracted, candidate, fw);
      totalScore := totalScore + term;
    }
    assert ws[..|ws|] == ws;
  }

  lemma WeightedRange(s: real, w: real)
    requires 0.0 <= s <= 1.0
    ensures 0.0 <= Weighted(s, w) <= if w <= 0.0 then 0.0 else w
    ensures w > 0.0 ==> (Weighted(s, w) == w <==> s == 1.0)
  {
  }

  lemma FieldSimilarityRange(cfg: Config, x: Fields, y: Fields, fw: FieldWeight)
    ensures 0.0 <= FieldSimilarity(cfg, x, y, fw) <= 1.0
    ensures FieldSimilarity(cfg, x, y, fw) == FieldSimilarity(cfg, y, x, fw)
    ensures FieldSimilarity(cfg, x, x, fw) == 1.0 <==>
            !fw.similarity.Unrecognised? && Normalize(cfg, FieldValue(cfg, x, fw.field), fw.field) != ""
  {
    var ev := Normalize(cfg, FieldValue(cfg, x, fw.field), fw.field);
    var cv := Normalize(cfg, FieldValue(cfg, y, fw.field), fw.field);
    SimilarityProperties(cfg.tok, fw.similarity, ev, cv);
  }

  lemma FieldScoreRange(cfg: Config, x: Fields, y: Fields, fw: FieldWeight)
    ensures 0.0 <= FieldScore(cfg, x, y, fw) <= if fw.weight <= 0.0 then 0.0 else fw.weight
    ensures FieldScore(cfg, x, y, fw) == FieldScore(cfg, y, x, fw)
  {
    FieldSimilarityRange(cfg, x, y, fw);
    WeightedRange(FieldSimilarity(cfg, x, y, fw), fw.weight);
  }

  /** Scores lie between zero and the sum of the positive weights, and do not
      depend on which record is the new one. */
  lemma {:induction false} ScoreRange(cfg: Config, x: Fields, y: Fields, weights: seq<FieldWeight>)
    ensures 0.0 <= Score(cfg, x, y, weights) <= PositiveSum(weights)
    ensures Score(cfg, x, y, weights) == Score(cfg, y, x, weights)
  {
    if weights != [] {
      ScoreRange(cfg, x, y, weights[..|weights| - 1]);
      FieldScoreRange(cfg, x, y, weights[|weights| - 1]);
    }
  }

  /** Scores add up over the fields. */
  lemma {:induction false} ScoreConcat(cfg: Config, x: Fields, y: Fields, us: seq<FieldWeight>, vs: seq<FieldWeight>)
    ensures Score(cfg, x, y, us + vs) == Score(cfg, x, y, us) + Score(cfg, x, y, vs)
    decreases |vs|
  {
    if vs == [] {
      assert us + vs == us;
    } else {
      var n := |vs| - 1;
      ScoreConcat(cfg, x, y, us, vs[..n]);
      assert (us + vs)[..|us| + n] == us + vs[..n];
    }
  }

  /** `u` is the value of the field as its normaliser leaves it. */
  predicate NormalForm(cfg: Config, x: Fields, f: string, u: string)
  {
    if f in cfg.normalizers then cfg.normalizers[f](FieldValue(cfg, x, f)) == u else FieldValue(cfg, x, f) == u
  }

  /** One field: its weight, if positive, times the similarity of the two values
      as the field's normaliser leaves them. */
  lemma ScoreTerm(cfg: Config, x: Fields, y: Fields, fw: FieldWeight, u: string, v: string)
    requires NormalForm(cfg, x, fw.field, u) && NormalForm(cfg, y, fw.field, v)
    ensures Score(cfg, x, y, [fw]) ==
            if fw.weight > 0.0 then Similarity(cfg.tok, fw.similarity, u, v) * fw.weight else 0.0
  {
    ScoreOne(cfg, x, y, fw);
    FormsCompared(cfg, x, y, fw, u, v);
  }

  lemma FormsCompared(cfg: Config, x: Fields, y: Fields, fw: FieldWeight, u: string, v: string)
    requires NormalForm(cfg, x, fw.field, u) && NormalForm(cfg, y, fw.field, v)
    ensures FieldSimilarity(cfg, x, y, fw) == Similarity(cfg.tok, fw.similarity, u, v)
  {
  }

  lemma ScoreOne(cfg: Config, x: Fields, y: Fields, fw: FieldWeight)
    ensures Score(cfg, x, y, [fw]) == Weighted(FieldSimilarity(cfg, x, y, fw), fw.weight)
  {
    assert [fw][..0] == [];
    assert Score(cfg, x, y, [fw]) == Score(cfg, x, y, []) + FieldScore(cfg, x, y, fw);
  }

  /** Records whose fields have the same normal forms score alike. */
  lemma {:induction false} SameFormsScoreAlike(cfg: Config, x: Fields, x': Fields, y: Fields, ws: seq<FieldWeight>)
    requires forall fw, u :: fw in ws && NormalForm(cfg, x, fw.field, u) ==> NormalForm(cfg, x', fw.field, u)
    ensures Score(cfg, x, y, ws) == Score(cfg, x', y, ws)
  {
    if ws != [] {
      var n := |ws| - 1;
      var fw := ws[n];
      assert fw in ws && forall w :: w in ws[..n] ==> w in ws;
      SameFormsScoreAlike(cfg, x, x', y, ws[..n]);
      assert NormalForm(cfg, x, fw.field, Normalize(cfg, FieldValue(cfg, x, fw.field), fw.field));
    }
  }

  /** The field can score at all: known function, value left after normalisation. */
  predicate Counts(cfg: Config, x: Fields, fw: FieldWeight)
  {
    fw.weight <= 0.0
    || (!fw.similarity.Unrecognised? && Normalize(cfg, FieldValue(cfg, x, fw.field), fw.field) != "")
  }

  /** A record scores the full sum against itself if and only if every field
      with a positive weight counts. */
  lemma {:induction false} SelfScoreIff(cfg: Config, x: Fields, weights: seq<FieldWeight>)
    ensures Score(cfg, x, x, weights) == PositiveSum(weights) <==> forall fw :: fw in weights ==> Counts(cfg, x, fw)
  {
    if weights != [] {
      var n := |weights| - 1;
      var fw := weights[n];
      assert weights == weights[..n] + [fw];
      SelfScoreIff(cfg, x, weights[..n]);
      ScoreRange(cfg, x, x, weights[..n]);
      FieldScoreRange(cfg, x, x, fw);
      FieldSimilarityRange(cfg, x, x, fw);
      WeightedRange(FieldSimilarity(cfg, x, x, fw), fw.weight);
      assert Counts(cfg, x, fw) <==> FieldScore(cfg, x, x, fw) == if fw.weight <= 0.0 then 0.0 else fw.weight;
      assert (forall f :: f in weights ==> Counts(cfg, x, f)) <==>
             (forall f :: f in weights[..n] ==> Counts(cfg, x, f)) && Counts(cfg, x, fw);
    }
  }

  // -------------------------------------------------------------------------
  // Merge plans
  // -------------------------------------------------------------------------

  datatype MergeOp = Keep | Write | Conflict

  datatype Reason =
    | ExtractedEmpty | SameNormalized | FillsEmpty | ByLatestWins | ByHighestConfidence | ByReview | ByDefault

  datatype FieldMergeOp = FieldMergeOp(field: string, op: MergeOp, existing: string, extracted: string, reason: Reason)

  function PlanField(cfg: Config, extracted: Fields, existing: Fields, field: string): FieldMergeOp
  {
    var ev := FieldValue(cfg, extracted, field);
    var xv := FieldValue(cfg, existing, field);
    if ev == "" then FieldMergeOp(field, Keep, xv, ev, ExtractedEmpty)
    else if Normalize(cfg, ev, field) == Normalize(cfg, xv, field)
    then FieldMergeOp(field, Keep, xv, ev, SameNormalized)
    else if xv == "" then FieldMergeOp(field, Write, xv, ev, FillsEmpty)
    else
      match if field in cfg.strategies then cfg.strategies[field] else NoStrategy
      case LatestWins => FieldMergeOp(field, Write, xv, ev, ByLatestWins)
      case HighestConfidence => FieldMergeOp(field, Conflict, xv, ev, ByHighestConfidence)
      case FlagForReview => FieldMergeOp(field, Conflict, xv, ev, ByReview)
      case NoStrategy => FieldMergeOp(field, Write, xv, ev, ByDefault)
  }

  /** The two values are the same as the field's normaliser leaves them. */
  predicate SameForm(cfg: Config, f: string, u: string, v: string)
  {
    if f in cfg.normalizers then cfg.normalizers[f](u) == cfg.normalizers[f](v) else u == v
  }

  /** What the plan says of a field, from the two values and the strategy. */
  lemma PlanFieldMeaning(cfg: Config, extracted: Fields, existing: Fields, f: string)
    ensures var p := PlanField(cfg, extracted, existing, f);
            var new', old' := FieldValue(cfg, extracted, f), FieldValue(cfg, existing, f);
            var strategy := if f in cfg.strategies then cfg.strategies[f] else NoStrategy;
            && p.field == f && p.existing == old' && p.extracted == new'
            && (p.op.Keep? <==> new' == "" || SameForm(cfg, f, new', old'))
            && (p.op.Conflict? <==> new' != "" && !SameForm(cfg, f, new', old') && old' != ""
                                    && (strategy.HighestConfidence? || strategy.FlagForReview?))
            && (p.reason.ExtractedEmpty? <==> new' == "")
            && (p.reason.SameNormalized? <==> new' != "" && p.op.Keep?)
            && (p.reason.FillsEmpty? <==> !p.op.Keep? && old' == "")
            && (!p.op.Keep? && old' != "" ==>
                  match strategy
                  case LatestWins => p.reason.ByLatestWins?
                  case HighestConfidence => p.reason.ByHighestConfidence?
                  case FlagForReview => p.reason.ByReview?
                  case NoStrategy => p.reason.ByDefault?)
  {
  }

  function PlannedFields(cfg: Config): set<string>
  {
    (set fw | fw in cfg.weights :: fw.field) + cfg.strategies.Keys
  }

  /** The order of field names: by code point, the shorter first. */
  predicate Less(x: string, y: string)
  {
    if y == [] then false
    else if x == [] then true
    else if x[0] != y[0] then x[0] < y[0]
    else Less(x[1..], y[1..])
  }

  lemma {:induction false} LessTotal(x: string, y: string)
    ensures Less(x, y) || x == y || Less(y, x)
    ensures !(Less(x, y) && Less(y, x)) && !Less(x, x)
  {
    if x != [] { LessTotal(x[1..], x[1..]); }
    if x != [] && y != [] && x[0] == y[0] {
      LessTotal(x[1..], y[1..]);
      assert x == [x[0]] + x[1..] && y == [y[0]] + y[1..];
    }
  }

  lemma {:induction false} LessTransitive(x: string, y: string, z: string)
    requires Less(x, y) && Less(y, z)
    ensures Less(x, z)
  {
    if x != [] && x[0] == y[0] == z[0] {
      LessTransitive(x[1..], y[1..], z[1..]);
    }
  }

  /** The first difference decides, and a proper prefix comes first. */
  lemma {:induction false} LessIff(x: string, y: string)
    ensures Less(x, y) <==>
            exists k: nat :: && k <= |x| && k < |y| && x[..k] == y[..k]
                             && (k == |x| || x[k] < y[k])
  {
    if x == [] {
      if y != [] { assert x[..0] == y[..0]; }
    } else if y != [] {
      LessIff(x[1..], y[1..]);
      if Less(x, y) {
        if x[0] == y[0] {
          var k: nat :| k <= |x[1..]| && k < |y[1..]| && x[1..][..k] == y[1..][..k]
                        && (k == |x[1..]| || x[1..][k] < y[1..][k]);
          assert x[..k + 1] == [x[0]] + x[1..][..k] && y[..k + 1] == [y[0]] + y[1..][..k];
        } else {
          assert x[..0] == y[..0];
        }
      }
      if k: nat :| k <= |x| && k < |y| && x[..k] == y[..k] && (k == |x| || x[k] < y[k]) {
        if k > 0 {
          assert x[..k][0] == y[..k][0];
          assert x[1..][..k - 1] == x[..k][1..] && y[1..][..k - 1] == y[..k][1..];
        }
      }
    }
  }

  ghost predicate StrictlySorted(plan: seq<FieldMergeOp>)
  {
    forall i, j :: 0 <= i < j < |plan| ==> Less(plan[i].field, plan[j].field)
  }

  /** Exactly one op for each field of `fields`, the one PlanField gives. */
  ghost predicate Covers(cfg: Config, extracted: Fields, existing: Fields, plan: seq<FieldMergeOp>, fields: set<string>)
  {
    && (forall p :: p in plan ==> p.field in fields && p == PlanField(cfg, extracted, existing, p.field))
    && (forall f :: f in fields ==> PlanField(cfg, extracted, existing, f) in plan)
  }

  ghost predicate IsPlan(cfg: Config, extracted: Fields, existing: Fields, plan: seq<FieldMergeOp>)
  {
    StrictlySorted(plan) && Covers(cfg, extracted, existing, plan, PlannedFields(cfg))
  }

  lemma CoversField(cfg: Config, extracted: Fields, existing: Fields, plan: seq<FieldMergeOp>, fields: set<string>,
                    f: string)
    requires Covers(cfg, extracted, existing, plan, fields)
    ensures (exists p :: p in plan && p.field == f) <==> f in fields
  {
    if f in fields {
      var p := PlanField(cfg, extracted, existing, f);
      assert p in plan && p.field == f;
    }
  }

  /** A plan has an op for exactly the fields that have a weight or a strategy. */
  lemma PlanFields(cfg: Config, extracted: Fields, existing: Fields, plan: seq<FieldMergeOp>, f: string)
    requires IsPlan(cfg, extracted, existing, plan)
    ensures (exists p :: p in plan && p.field == f) <==>
            f in cfg.strategies || exists fw :: fw in cfg.weights && fw.field == f
  {
    CoversField(cfg, extracted, existing, plan, PlannedFields(cfg), f);
  }

  /** Puts an op of a new field in its place. */
  function Insert(plan: seq<FieldMergeOp>, p: FieldMergeOp): seq<FieldMergeOp>
  {
    if plan == [] || Less(p.field, plan[0].field) then [p] + plan
    else [plan[0]] + Insert(plan[1..], p)
  }

  lemma {:induction false} InsertEffect(plan: seq<FieldMergeOp>, p: FieldMergeOp)
    requires StrictlySorted(plan) && forall q :: q in plan ==> q.field != p.field
    ensures StrictlySorted(Insert(plan, p))
    ensures forall q :: q in Insert(plan, p) <==> q in plan || q == p
  {
    if plan == [] {
    } else if Less(p.field, plan[0].field) {
      forall j | 0 <= j < |plan| ensures Less(p.field, plan[j].field) {
        if j > 0 { LessTransitive(p.field, plan[0].field, plan[j].field); }
      }
    } else {
      assert plan == [plan[0]] + plan[1..];
      InsertEffect(plan[1..], p);
      LessTotal(p.field, plan[0].field);
      assert plan[0] in plan;
      var rest := Insert(plan[1..], p);
      forall q | q in rest ensures Less(plan[0].field, q.field) {
        if q != p {
          var i :| 0 <= i < |plan[1..]| && plan[1..][i] == q;
          assert plan[i + 1] == q;
        }
      }
    }
  }

  lemma CoversMore(cfg: Config, extracted: Fields, existing: Fields, plan: seq<FieldMergeOp>,
                   more: seq<FieldMergeOp>, done: set<string>, f: string)
    requires Covers(cfg, extracted, existing, plan, done)
    requires forall q :: q in more <==> q in plan || q == PlanField(cfg, extracted, existing, f)
    ensures Covers(cfg, extracted, existing, more, done + {f})
  {
    assert PlanField(cfg, extracted, existing, f).field == f;
  }

  lemma CoverOne(cfg: Config, extracted: Fields, existing: Fields, plan: seq<FieldMergeOp>, done: set<string>,
                 f: string)
    requires StrictlySorted(plan) && Covers(cfg, extracted, existing, plan, done) && f !in done
    ensures var p := PlanField(cfg, extracted, existing, f);
            StrictlySorted(Insert(plan, p)) && Covers(cfg, extracted, existing, Insert(plan, p), done + {f})
  {
    var p := PlanField(cfg, extracted, existing, f);
    assert p.field == f;
    InsertEffect(plan, p);
    CoversMore(cfg, extracted, existing, plan, Insert(plan, p), done, f);
  }

  /** Whichever field comes first. */
  ghost function Pick(fields: set<string>): (f: string)
    requires fields != {}
    ensures f in fields
  {
    var f :| f in fields;
    f
  }

  /** The ops of `fields`, each put in its place in turn. */
  ghost function MergePlan(cfg: Config, extracted: Fields, existing: Fields, fields: set<string>): seq<FieldMergeOp>
  {
    if fields == {} then []
    else
      var f := Pick(fields);
      Insert(MergePlan(cfg, extracted, existing, fields - {f}), PlanField(cfg, extracted, existing, f))
  }

  lemma {:induction false} MergePlanCovers(cfg: Config, extracted: Fields, existing: Fields, fields: set<string>)
    ensures var plan := MergePlan(cfg, extracted, existing, fields);
            StrictlySorted(plan) && Covers(cfg, extracted, existing, plan, fields)
  {
    if fields != {} {
      var f := Pick(fields);
      MergePlanCovers(cfg, extracted, existing, fields - {f});
      CoverOne(cfg, extracted, existing, MergePlan(cfg, extracted, existing, fields - {f}), fields - {f}, f);
      assert fields - {f} + {f} == fields;
    }
  }

  /** The next field may be any: its op always ends up in the same place. */
  lemma MergePlanAdd(cfg: Config, extracted: Fields, existing: Fields, done: set<string>, f: string)
    requires f !in done
    ensures MergePlan(cfg, extracted, existing, done + {f})
         == Insert(MergePlan(cfg, extracted, existing, done), PlanField(cfg, extracted, existing, f))
  {
    var plan := MergePlan(cfg, extracted, existing, done);
    MergePlanCovers(cfg, extracted, existing, done);
    MergePlanCovers(cfg, extracted, existing, done + {f});
    CoverOne(cfg, extracted, existing, plan, done, f);
    CoversUnique(cfg, extracted, existing, done + {f}, MergePlan(cfg, extracted, existing, done + {f}),
                 Insert(plan, PlanField(cfg, extracted, existing, f)));
  }

  /** Visits the fields in any order and sorts the ops. */
  method BuildMergePlan(cfg: Config, extracted: Fields, existing: Fields) returns (plan: seq<FieldMergeOp>)
    ensures IsPlan(cfg, extracted, existing, plan)
  {
    var fields := PlannedFields(cfg);
    var rest := fields;
    plan := [];
    while rest != {}
      invariant rest <= fields && plan == MergePlan(cfg, extracted, existing, fields - rest)
      decreases rest
    {
      var f :| f in rest;
      MergePlanAdd(cfg, extracted, existing, fields - rest, f);
      assert fields - (rest - {f}) == (fields - rest) + {f};
      plan := Insert(plan, PlanField(cfg, extracted, existing, f));
      rest := rest - {f};
    }
    assert fields - rest == fields;
    MergePlanCovers(cfg, extracted, existing, fields);
  }

  lemma FirstAgrees(xs: seq<FieldMergeOp>, ys: seq<FieldMergeOp>)
    requires StrictlySorted(xs) && StrictlySorted(ys) && (forall p :: p in xs <==> p in ys)
    requires xs != [] && ys != []
    ensures xs[0] == ys[0]
  {
    assert xs[0] in ys && ys[0] in xs;
    var i :| 0 <= i < |ys| && ys[i] == xs[0];
    var j :| 0 <= j < |xs| && xs[j] == ys[0];
    if i > 0 && j > 0 {
      LessTotal(xs[0].field, ys[0].field);
    }
  }

  lemma HasMember(ys: seq<FieldMergeOp>)
    requires ys != []
    ensures exists p :: p in ys
  {
    assert ys[0] in ys;
  }

  lemma {:induction false} SortedUnique(xs: seq<FieldMergeOp>, ys: seq<FieldMergeOp>)
    requires StrictlySorted(xs) && StrictlySorted(ys) && (forall p :: p in xs <==> p in ys)
    ensures xs == ys
  {
    if xs == [] {
      if ys != [] { HasMember(ys); }
    } else {
      assert xs[0] in ys;
      FirstAgrees(xs, ys);
      TailMembers(xs);
      TailMembers(ys);
      SortedUnique(xs[1..], ys[1..]);
    }
  }

  lemma TailMembers(xs: seq<FieldMergeOp>)
    requires StrictlySorted(xs) && xs != []
    ensures StrictlySorted(xs[1..])
    ensures forall p :: p in xs[1..] <==> p in xs && p != xs[0]
  {
    assert xs == [xs[0]] + xs[1..];
    forall i | 0 <= i < |xs[1..]| ensures xs[1..][i] != xs[0] {
      assert Less(xs[0].field, xs[i + 1].field);
      LessTotal(xs[0].field, xs[0].field);
    }
  }

  lemma CoversUnique(cfg: Config, extracted: Fields, existing: Fields, fields: set<string>,
                     p: seq<FieldMergeOp>, q: seq<FieldMergeOp>)
    requires StrictlySorted(p) && Covers(cfg, extracted, existing, p, fields)
    requires StrictlySorted(q) && Covers(cfg, extracted, existing, q, fields)
    ensures p == q
  {
    SortedUnique(p, q);
  }

  /** There is one plan for two records, whatever the order in which the
      fields are visited. */
  lemma PlanUnique(cfg: Config, extracted: Fields, existing: Fields, p: seq<FieldMergeOp>)
    ensures IsPlan(cfg, extracted, existing, p) <==> p == MergePlan(cfg, extracted, existing, PlannedFields(cfg))
  {
    var plan := MergePlan(cfg, extracted, existing, PlannedFields(cfg));
    MergePlanCovers(cfg, extracted, existing, PlannedFields(cfg));
    if IsPlan(cfg, extracted, existing, p) {
      CoversUnique(cfg, extracted, existing, PlannedFields(cfg), p, plan);
    }
  }
}
