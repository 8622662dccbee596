/** Carrying out a merge plan of matching/matcher.go and planning again.  The
    package leaves plans to its callers; here a write goes to the key under
    which the field would be read. */
module Replans {
  import opened Matcher

  /** Stores a value where FieldValue would look for it. */
  function WriteField(cfg: Config, fields: Fields, name: string, value: string): Fields
  {
    if name in fields then fields[name := value] else fields[CamelName(cfg, name) := value]
  }

  function CarryOut(cfg: Config, existing: Fields, plan: seq<FieldMergeOp>): Fields
  {
    if plan == [] then existing
    else
      var n := |plan| - 1;
      var fields := CarryOut(cfg, existing, plan[..n]);
      if plan[n].op.Write? then WriteField(cfg, fields, plan[n].field, plan[n].extracted) else fields
  }

  // -------------------------------------------------------------------------
  // Names
  // -------------------------------------------------------------------------

  /** Raising a letter never makes an underscore. */
  ghost predicate RaisesLetters(cfg: Config)
  {
    forall c: char :: c != '_' ==> cfg.upper(c) != '_'
  }

  /** No other name has the camel-case form of `f`. */
  ghost predicate Alone(cfg: Config, names: set<string>, f: string)
  {
    forall g :: g in names && CamelName(cfg, g) == CamelName(cfg, f) ==> g == f
  }

  /** Planned names stay distinct under snake-to-camel. */
  ghost predicate DistinctNames(cfg: Config)
  {
    forall f :: f in PlannedFields(cfg) ==> Alone(cfg, PlannedFields(cfg), f)
  }

  lemma {:induction false} CamelHasNoUnderscore(upper: char -> char, s: string, raise: bool)
    requires forall c: char :: c != '_' ==> upper(c) != '_'
    ensures '_' !in Camel(upper, s, raise)
    decreases |s|
  {
    if s != [] { CamelHasNoUnderscore(upper, s[1..], s[0] == '_'); }
  }

  lemma {:induction false} CamelKeepsPlain(upper: char -> char, s: string)
    requires '_' !in s
    ensures Camel(upper, s, false) == s
    decreases |s|
  {
    if s != [] {
      assert s == [s[0]] + s[1..];
      CamelKeepsPlain(upper, s[1..]);
    }
  }

  lemma CamelIdempotent(cfg: Config, f: string)
    requires RaisesLetters(cfg)
    ensures CamelName(cfg, CamelName(cfg, f)) == CamelName(cfg, f)
  {
    CamelHasNoUnderscore(cfg.upper, f, false);
    CamelKeepsPlain(cfg.upper, CamelName(cfg, f));
  }

  /** A part after an underscore joins the ones before it with its first
      letter raised; a last underscore goes. */
  lemma {:induction false} CamelJoins(cfg: Config, p: string, c: char, q: string)
    requires '_' !in p && c != '_'
    ensures CamelName(cfg, p + "_" + [c] + q) == p + [cfg.upper(c)] + CamelName(cfg, q)
    ensures CamelName(cfg, p + "_") == p
    decreases |p|
  {
    if p == [] {
      assert p + "_" + [c] + q == "_" + ([c] + q) && ("_" + ([c] + q))[1..] == [c] + q && ([c] + q)[1..] == q;
      assert Camel(cfg.upper, [c] + q, true) == [cfg.upper(c)] + Camel(cfg.upper, q, false);
      assert p + "_" == "_" && "_"[1..] == [];
    } else {
      CamelJoins(cfg, p[1..], c, q);
      assert p == [p[0]] + p[1..];
      assert (p + "_" + [c] + q)[1..] == p[1..] + "_" + [c] + q;
      assert (p + "_")[1..] == p[1..] + "_";
    }
  }

  // -------------------------------------------------------------------------
  // A field whose name is its own
  // -------------------------------------------------------------------------

  lemma WriteReads(cfg: Config, fields: Fields, f: string, v: string, g: string)
    requires RaisesLetters(cfg) && (f == g || CamelName(cfg, f) != CamelName(cfg, g))
    ensures FieldValue(cfg, WriteField(cfg, fields, f, v), g) == if f == g then v else FieldValue(cfg, fields, g)
  {
    CamelIdempotent(cfg, f);
    CamelIdempotent(cfg, g);
    if f != g {
      assert CamelName(cfg, f) != g && f != CamelName(cfg, g);
    }
  }

  /** The ops of a plan name distinct fields of `names`. */
  ghost predicate DistinctFields(plan: seq<FieldMergeOp>, names: set<string>)
  {
    && (forall p :: p in plan ==> p.field in names)
    && (forall i, j :: 0 <= i < j < |plan| ==> plan[i].field != plan[j].field)
  }

  lemma SortedDistinct(plan: seq<FieldMergeOp>, names: set<string>)
    requires StrictlySorted(plan) && forall p :: p in plan ==> p.field in names
    ensures DistinctFields(plan, names)
  {
    forall i, j | 0 <= i < j < |plan| ensures plan[i].field != plan[j].field {
      LessTotal(plan[i].field, plan[i].field);
    }
  }

  lemma {:induction false} Untouched(cfg: Config, existing: Fields, plan: seq<FieldMergeOp>, names: set<string>,
                                     g: string)
    requires RaisesLetters(cfg) && DistinctFields(plan, names) && Alone(cfg, names, g)
    requires forall p :: p in plan ==> p.field != g
    ensures FieldValue(cfg, CarryOut(cfg, existing, plan), g) == FieldValue(cfg, existing, g)
  {
    if plan != [] {
      var n := |plan| - 1;
      assert plan[n] in plan && forall p :: p in plan[..n] ==> p in plan;
      Untouched(cfg, existing, plan[..n], names, g);
      WriteReads(cfg, CarryOut(cfg, existing, plan[..n]), plan[n].field, plan[n].extracted, g);
    }
  }

  /** The op of a field whose name is its own decides the field's value. */
  lemma {:induction false} CarriedOut(cfg: Config, existing: Fields, plan: seq<FieldMergeOp>, names: set<string>,
                                      i: nat)
    requires RaisesLetters(cfg) && DistinctFields(plan, names) && i < |plan| && Alone(cfg, names, plan[i].field)
    ensures var p := plan[i];
            FieldValue(cfg, CarryOut(cfg, existing, plan), p.field)
            == if p.op.Write? then p.extracted else FieldValue(cfg, existing, p.field)
    decreases |plan|
  {
    var n := |plan| - 1;
    assert plan[n] in plan && plan[i] in plan && forall p :: p in plan[..n] ==> p in plan;
    if i < n {
      CarriedOut(cfg, existing, plan[..n], names, i);
    } else {
      Untouched(cfg, existing, plan[..n], names, plan[n].field);
    }
    WriteReads(cfg, CarryOut(cfg, existing, plan[..n]), plan[n].field, plan[n].extracted, plan[i].field);
  }

  // -------------------------------------------------------------------------
  // What a merge does to a field
  // -------------------------------------------------------------------------

  /** The record offers a value that differs from the stored one. */
  predicate Offers(cfg: Config, extracted: Fields, existing: Fields, f: string)
  {
    var ev, xv := FieldValue(cfg, extracted, f), FieldValue(cfg, existing, f);
    ev != "" && Normalize(cfg, ev, f) != Normalize(cfg, xv, f)
  }

  /** A present value of the field is for a person, or a comparison of
      confidences, to replace. */
  predicate Guarded(cfg: Config, existing: Fields, f: string)
  {
    && FieldValue(cfg, existing, f) != "" && f in cfg.strategies
    && (cfg.strategies[f].FlagForReview? || cfg.strategies[f].HighestConfidence?)
  }

  /** The field takes the new value if that is offered and the old one is not
      guarded, and otherwise stays. */
  predicate Merged(cfg: Config, extracted: Fields, existing: Fields, after: Fields, f: string)
  {
    FieldValue(cfg, after, f) ==
    if Offers(cfg, extracted, existing, f) && !Guarded(cfg, existing, f)
    then FieldValue(cfg, extracted, f) else FieldValue(cfg, existing, f)
  }

  /** Planning again finds the conflict again, or keeps the field. */
  predicate Replanned(cfg: Config, extracted: Fields, existing: Fields, after: Fields, f: string)
  {
    PlanField(cfg, extracted, after, f).op
    == if PlanField(cfg, extracted, existing, f).op.Conflict? then Conflict else Keep
  }

  lemma FieldOutcome(cfg: Config, extracted: Fields, existing: Fields, plan: seq<FieldMergeOp>, names: set<string>,
                     f: string)
    requires RaisesLetters(cfg) && DistinctFields(plan, names) && Alone(cfg, names, f)
    requires PlanField(cfg, extracted, existing, f) in plan
    ensures Merged(cfg, extracted, existing, CarryOut(cfg, existing, plan), f)
    ensures Replanned(cfg, extracted, existing, CarryOut(cfg, existing, plan), f)
  {
    var i :| 0 <= i < |plan| && plan[i] == PlanField(cfg, extracted, existing, f);
    CarriedOut(cfg, existing, plan, names, i);
    MergedReplans(cfg, extracted, existing, CarryOut(cfg, existing, plan), f);
  }

  lemma MergedReplans(cfg: Config, extracted: Fields, existing: Fields, after: Fields, f: string)
    requires Merged(cfg, extracted, existing, after, f)
    ensures Replanned(cfg, extracted, existing, after, f)
  {
  }

  /** A field whose camel-case form no other planned field shares takes the new
      value exactly when it is offered and not guarded, and is kept or found
      in conflict again by the next plan, whatever becomes of other fields. */
  lemma MergeOutcome(cfg: Config, extracted: Fields, existing: Fields, plan: seq<FieldMergeOp>, f: string)
    requires IsPlan(cfg, extracted, existing, plan) && RaisesLetters(cfg)
    requires f in PlannedFields(cfg) && Alone(cfg, PlannedFields(cfg), f)
    ensures Merged(cfg, extracted, existing, CarryOut(cfg, existing, plan), f)
    ensures Replanned(cfg, extracted, existing, CarryOut(cfg, existing, plan), f)
  {
    SortedDistinct(plan, PlannedFields(cfg));
    FieldOutcome(cfg, extracted, existing, plan, PlannedFields(cfg), f);
  }

  lemma FieldConflictIff(cfg: Config, extracted: Fields, existing: Fields, f: string)
    ensures PlanField(cfg, extracted, existing, f).op.Conflict? <==>
            Offers(cfg, extracted, existing, f) && Guarded(cfg, existing, f)
  {
  }

  /** A plan has a conflict exactly when some guarded field is offered a new value. */
  lemma ConflictIff(cfg: Config, extracted: Fields, existing: Fields, plan: seq<FieldMergeOp>)
    requires IsPlan(cfg, extracted, existing, plan)
    ensures (exists p :: p in plan && p.op.Conflict?) <==>
            exists f :: f in PlannedFields(cfg) && Offers(cfg, extracted, existing, f) && Guarded(cfg, existing, f)
  {
    if p :| p in plan && p.op.Conflict? {
      FieldConflictIff(cfg, extracted, existing, p.field);
    }
    if f :| f in PlannedFields(cfg) && Offers(cfg, extracted, existing, f) && Guarded(cfg, existing, f) {
      FieldConflictIff(cfg, extracted, existing, f);
    }
  }

  // -------------------------------------------------------------------------
  // Two plans
  // -------------------------------------------------------------------------

  ghost predicate OnlyKeeps(plan: seq<FieldMergeOp>)
  {
    forall o :: o in plan ==> o.op.Keep?
  }

  ghost predicate ConflictFree(plan: seq<FieldMergeOp>)
  {
    forall o :: o in plan ==> !o.op.Conflict?
  }

  lemma NotOnlyKeeps(cfg: Config, extracted: Fields, after: Fields, q: seq<FieldMergeOp>, h: string)
    requires IsPlan(cfg, extracted, after, q) && h in PlannedFields(cfg)
    requires !PlanField(cfg, extracted, after, h).op.Keep?
    ensures !OnlyKeeps(q)
  {
    assert PlanField(cfg, extracted, after, h) in q;
  }

  lemma SettledOnce(cfg: Config, extracted: Fields, existing: Fields, p: seq<FieldMergeOp>, q: seq<FieldMergeOp>,
                    o: FieldMergeOp)
    requires IsPlan(cfg, extracted, existing, p) && RaisesLetters(cfg) && DistinctNames(cfg)
    requires IsPlan(cfg, extracted, CarryOut(cfg, existing, p), q) && o in q
    ensures !o.op.Write? && (o.op.Keep? || !ConflictFree(p))
  {
    MergeOutcome(cfg, extracted, existing, p, o.field);
    assert PlanField(cfg, extracted, existing, o.field) in p;
  }

  lemma ConflictStays(cfg: Config, extracted: Fields, existing: Fields, p: seq<FieldMergeOp>, q: seq<FieldMergeOp>,
                      w: FieldMergeOp)
    requires IsPlan(cfg, extracted, existing, p) && RaisesLetters(cfg) && DistinctNames(cfg)
    requires IsPlan(cfg, extracted, CarryOut(cfg, existing, p), q) && w in p && w.op.Conflict?
    ensures !OnlyKeeps(q)
  {
    MergeOutcome(cfg, extracted, existing, p, w.field);
    NotOnlyKeeps(cfg, extracted, CarryOut(cfg, existing, p), q, w.field);
  }

  /** With distinct names, a second plan writes nothing, and it only keeps if
      and only if the first had no conflict. */
  lemma SecondPlan(cfg: Config, extracted: Fields, existing: Fields, p: seq<FieldMergeOp>, q: seq<FieldMergeOp>)
    requires IsPlan(cfg, extracted, existing, p) && RaisesLetters(cfg) && DistinctNames(cfg)
    requires IsPlan(cfg, extracted, CarryOut(cfg, existing, p), q)
    ensures forall o :: o in q ==> !o.op.Write?
    ensures OnlyKeeps(q) <==> ConflictFree(p)
  {
    forall o | o in q ensures !o.op.Write? && (o.op.Keep? || !ConflictFree(p)) {
      SettledOnce(cfg, extracted, existing, p, q, o);
    }
    if !ConflictFree(p) {
      var w :| w in p && w.op.Conflict?;
      ConflictStays(cfg, extracted, existing, p, q, w);
    }
  }

  // -------------------------------------------------------------------------
  // Names that collide
  // -------------------------------------------------------------------------

  /** The normaliser of `f` does not confuse `x`, `y` and no value. */
  predicate TellsApart(cfg: Config, f: string, x: string, y: string)
  {
    && x != "" && y != ""
    && Normalize(cfg, x, f) != Normalize(cfg, y, f)
    && Normalize(cfg, x, f) != Normalize(cfg, "", f)
    && Normalize(cfg, y, f) != Normalize(cfg, "", f)
  }

  /** Two planned names with one camel-case form. */
  predicate SharedForm(cfg: Config, f: string, g: string)
  {
    f in PlannedFields(cfg) && g in PlannedFields(cfg) && f != g && CamelName(cfg, f) == CamelName(cfg, g)
  }

  /** Such names, and two values that the normalisers of both tell apart. */
  predicate Collide(cfg: Config, f: string, g: string, x: string, y: string)
  {
    SharedForm(cfg, f, g) && TellsApart(cfg, f, x, y) && TellsApart(cfg, g, x, y)
  }

  /** Every write of such a plan goes to the one key `k`. */
  ghost predicate WritesOnlyTo(cfg: Config, plan: seq<FieldMergeOp>, k: string, x: string, y: string)
  {
    forall p :: p in plan && p.op.Write? ==> CamelName(cfg, p.field) == k && (p.extracted == x || p.extracted == y)
  }

  lemma {:induction false} OneKey(cfg: Config, plan: seq<FieldMergeOp>, k: string, x: string, y: string)
    requires WritesOnlyTo(cfg, plan, k, x, y)
    ensures var after := CarryOut(cfg, map[], plan);
            || after == map[k := x] || after == map[k := y]
            || (after == map[] && forall p :: p in plan ==> !p.op.Write?)
  {
    if plan != [] {
      var n := |plan| - 1;
      assert plan == plan[..n] + [plan[n]];
      OneKey(cfg, plan[..n], k, x, y);
    }
  }

  /** Whoever is offered anything shares the camel-case form of `f` and `g`. */
  lemma OffersShareKey(cfg: Config, f: string, g: string, x: string, y: string, h: string)
    requires RaisesLetters(cfg) && CamelName(cfg, f) == CamelName(cfg, g)
    ensures var ev := FieldValue(cfg, map[f := x, g := y], h);
            ev == "" || (CamelName(cfg, h) == CamelName(cfg, f) && (ev == x || ev == y))
  {
    CamelIdempotent(cfg, h);
    CamelIdempotent(cfg, f);
  }

  lemma CollidingPlan(cfg: Config, f: string, g: string, x: string, y: string, plan: seq<FieldMergeOp>)
    requires RaisesLetters(cfg) && CamelName(cfg, f) == CamelName(cfg, g)
    requires IsPlan(cfg, map[f := x, g := y], map[], plan)
    ensures WritesOnlyTo(cfg, plan, CamelName(cfg, f), x, y) && ConflictFree(plan)
  {
    forall p | p in plan
      ensures !p.op.Conflict?
      ensures p.op.Write? ==> CamelName(cfg, p.field) == CamelName(cfg, f) && (p.extracted == x || p.extracted == y)
    {
      OffersShareKey(cfg, f, g, x, y, p.field);
    }
  }

  /** The empty field was offered a value, and is offered it again. */
  predicate LosesValue(cfg: Config, extracted: Fields, after: Fields, h: string)
  {
    && PlanField(cfg, extracted, map[], h).op.Write?
    && !PlanField(cfg, extracted, after, h).op.Keep?
    && !Replanned(cfg, extracted, map[], after, h) && !Merged(cfg, extracted, map[], after, h)
  }

  /** A field offered `x` that afterwards reads `v`. */
  lemma Overwritten(cfg: Config, extracted: Fields, h: string, x: string, v: string)
    requires RaisesLetters(cfg) && TellsApart(cfg, h, x, v)
    requires FieldValue(cfg, extracted, h) == x
    ensures PlanField(cfg, extracted, map[], h).op.Write?
    ensures LosesValue(cfg, extracted, map[CamelName(cfg, h) := v], h)
  {
    CamelIdempotent(cfg, h);
    assert FieldValue(cfg, map[CamelName(cfg, h) := v], h) == v;
  }

  lemma PlanWrites(cfg: Config, extracted: Fields, existing: Fields, plan: seq<FieldMergeOp>, f: string)
    requires IsPlan(cfg, extracted, existing, plan) && f in PlannedFields(cfg)
    requires PlanField(cfg, extracted, existing, f).op.Write?
    ensures exists p :: p in plan && p.op.Write?
  {
    assert PlanField(cfg, extracted, existing, f) in plan;
  }

  /** Two planned names with one camel-case form: two values offered, one kept. */
  lemma CollisionLoses(cfg: Config, f: string, g: string, x: string, y: string, plan: seq<FieldMergeOp>)
    returns (h: string)
    requires RaisesLetters(cfg) && Collide(cfg, f, g, x, y)
    requires IsPlan(cfg, map[f := x, g := y], map[], plan)
    ensures h in PlannedFields(cfg) && LosesValue(cfg, map[f := x, g := y], CarryOut(cfg, map[], plan), h)
  {
    var extracted := map[f := x, g := y];
    CollidingPlan(cfg, f, g, x, y, plan);
    OneKey(cfg, plan, CamelName(cfg, f), x, y);
    Overwritten(cfg, extracted, f, x, y);
    Overwritten(cfg, extracted, g, y, x);
    PlanWrites(cfg, extracted, map[], plan, f);
    h := if CarryOut(cfg, map[], plan) == map[CamelName(cfg, f) := y] then f else g;
  }

  /** Whatever the records, a second plan only keeps if the first had no conflict. */
  ghost predicate AlwaysSettles(cfg: Config)
  {
    forall extracted: Fields, existing: Fields, p, q ::
      IsPlan(cfg, extracted, existing, p) && IsPlan(cfg, extracted, CarryOut(cfg, existing, p), q)
      ==> (OnlyKeeps(q) <==> ConflictFree(p))
  }

  /** Whatever the records, a second plan treats each field as it should. */
  ghost predicate AlwaysReplans(cfg: Config)
  {
    forall extracted: Fields, existing: Fields, p, f ::
      IsPlan(cfg, extracted, existing, p) && f in PlannedFields(cfg)
      ==> Replanned(cfg, extracted, existing, CarryOut(cfg, existing, p), f)
  }

  /** Whatever the records, each field takes the new value when offered and not guarded. */
  ghost predicate AlwaysMerges(cfg: Config)
  {
    forall extracted: Fields, existing: Fields, p, f ::
      IsPlan(cfg, extracted, existing, p) && f in PlannedFields(cfg)
      ==> Merged(cfg, extracted, existing, CarryOut(cfg, existing, p), f)
  }

  lemma Unsettled(cfg: Config, extracted: Fields, existing: Fields, p: seq<FieldMergeOp>, q: seq<FieldMergeOp>)
    requires IsPlan(cfg, extracted, existing, p) && IsPlan(cfg, extracted, CarryOut(cfg, existing, p), q)
    requires ConflictFree(p) && !OnlyKeeps(q)
    ensures !AlwaysSettles(cfg)
  {
  }

  lemma Unmerged(cfg: Config, extracted: Fields, existing: Fields, p: seq<FieldMergeOp>, f: string)
    requires IsPlan(cfg, extracted, existing, p) && f in PlannedFields(cfg)
    ensures !Merged(cfg, extracted, existing, CarryOut(cfg, existing, p), f) ==> !AlwaysMerges(cfg)
    ensures !Replanned(cfg, extracted, existing, CarryOut(cfg, existing, p), f) ==> !AlwaysReplans(cfg)
  {
  }

  lemma LossUnsettles(cfg: Config, extracted: Fields, existing: Fields, p: seq<FieldMergeOp>, h: string)
    requires IsPlan(cfg, extracted, existing, p) && ConflictFree(p) && h in PlannedFields(cfg)
    requires !PlanField(cfg, extracted, CarryOut(cfg, existing, p), h).op.Keep?
    ensures !AlwaysSettles(cfg)
  {
    var q := MergePlan(cfg, extracted, CarryOut(cfg, existing, p), PlannedFields(cfg));
    PlanUnique(cfg, extracted, CarryOut(cfg, existing, p), q);
    NotOnlyKeeps(cfg, extracted, CarryOut(cfg, existing, p), q, h);
    Unsettled(cfg, extracted, existing, p, q);
  }

  lemma CollisionWitness(cfg: Config, f: string, g: string, x: string, y: string)
    returns (extracted: Fields, p: seq<FieldMergeOp>, h: string)
    requires RaisesLetters(cfg) && Collide(cfg, f, g, x, y)
    ensures IsPlan(cfg, extracted, map[], p) && ConflictFree(p)
    ensures h in PlannedFields(cfg) && LosesValue(cfg, extracted, CarryOut(cfg, map[], p), h)
  {
    extracted := map[f := x, g := y];
    p := MergePlan(cfg, extracted, map[], PlannedFields(cfg));
    PlanUnique(cfg, extracted, map[], p);
    CollidingPlan(cfg, f, g, x, y, p);
    h := CollisionLoses(cfg, f, g, x, y, p);
  }

  lemma CollisionBreaks(cfg: Config, f: string, g: string, x: string, y: string)
    requires RaisesLetters(cfg) && Collide(cfg, f, g, x, y)
    ensures !AlwaysSettles(cfg) && !AlwaysReplans(cfg) && !AlwaysMerges(cfg)
  {
    var extracted, p, h := CollisionWitness(cfg, f, g, x, y);
    LossUnsettles(cfg, extracted, map[], p, h);
    Unmerged(cfg, extracted, map[], p, h);
  }

  /** Fields whose names collide have two values that both tell apart. */
  ghost predicate CollisionsShow(cfg: Config)
  {
    forall f, g :: SharedForm(cfg, f, g) ==> exists x, y :: Collide(cfg, f, g, x, y)
  }

  /** Merging and planning again behave for all records and all plans if and
      only if the planned names stay distinct under snake-to-camel. */
  lemma DistinctNamesIff(cfg: Config)
    requires RaisesLetters(cfg) && CollisionsShow(cfg)
    ensures AlwaysSettles(cfg) <==> DistinctNames(cfg)
    ensures AlwaysReplans(cfg) <==> DistinctNames(cfg)
    ensures AlwaysMerges(cfg) <==> DistinctNames(cfg)
  {
    if DistinctNames(cfg) {
      DistinctNamesSuffice(cfg);
    } else {
      var f :| f in PlannedFields(cfg) && !Alone(cfg, PlannedFields(cfg), f);
      var g :| g in PlannedFields(cfg) && CamelName(cfg, g) == CamelName(cfg, f) && g != f;
      assert SharedForm(cfg, f, g);
      var x, y :| Collide(cfg, f, g, x, y);
      CollisionBreaks(cfg, f, g, x, y);
    }
  }

  lemma DistinctNamesSuffice(cfg: Config)
    requires RaisesLetters(cfg) && DistinctNames(cfg)
    ensures AlwaysSettles(cfg) && AlwaysReplans(cfg) && AlwaysMerges(cfg)
  {
    forall extracted: Fields, existing: Fields, p, q
      | IsPlan(cfg, extracted, existing, p) && IsPlan(cfg, extracted, CarryOut(cfg, existing, p), q)
      ensures OnlyKeeps(q) <==> ConflictFree(p)
    {
      SecondPlan(cfg, extracted, existing, p, q);
    }
    forall extracted: Fields, existing: Fields, p, f | IsPlan(cfg, extracted, existing, p) && f in PlannedFields(cfg)
      ensures Merged(cfg, extracted, existing, CarryOut(cfg, existing, p), f)
      ensures Replanned(cfg, extracted, existing, CarryOut(cfg, existing, p), f)
    {
      MergeOutcome(cfg, extracted, existing, p, f);
    }
  }

  lemma PlainTellsApart(cfg: Config, f: string)
    requires cfg.normalizers == map[]
    ensures TellsApart(cfg, f, "x", "y")
  {
    assert "x"[0] != "y"[0];
  }

  /** In particular for every configuration without normalisers. */
  lemma PlainNamesIff(cfg: Config)
    requires RaisesLetters(cfg) && cfg.normalizers == map[]
    ensures AlwaysSettles(cfg) <==> DistinctNames(cfg)
    ensures AlwaysReplans(cfg) <==> DistinctNames(cfg)
    ensures AlwaysMerges(cfg) <==> DistinctNames(cfg)
  {
    forall f, g | SharedForm(cfg, f, g) ensures exists x, y :: Collide(cfg, f, g, x, y) {
      PlainTellsApart(cfg, f);
      PlainTellsApart(cfg, g);
      assert Collide(cfg, f, g, "x", "y");
    }
    DistinctNamesIff(cfg);
  }

  function ExampleUpper(c: char): char
  {
    if c == 'b' then 'B' else c
  }

  /** "a_b" and "aB" have one camel-case form, so no configuration that plans
      both, without normalisers, always settles. */
  lemma ReplanCollision(cfg: Config)
    requires cfg.upper == ExampleUpper && cfg.normalizers == map[]
    requires "a_b" in PlannedFields(cfg) && "aB" in PlannedFields(cfg)
    ensures !AlwaysSettles(cfg) && !AlwaysReplans(cfg) && !AlwaysMerges(cfg)
  {
    assert "a_b"[1..] == "_b" && "_b"[1..] == "b" && "b"[1..] == "" && "aB"[1..] == "B" && "B"[1..] == "";
    assert Camel(ExampleUpper, "b", true) == "B" == Camel(ExampleUpper, "B", false);
    assert Camel(ExampleUpper, "_b", false) == "B";
    assert CamelName(cfg, "a_b") == "a" + "B" == CamelName(cfg, "aB");
    assert |"a_b"| != |"aB"|;
    PlainTellsApart(cfg, "a_b");
    PlainTellsApart(cfg, "aB");
    CollisionBreaks(cfg, "a_b", "aB", "x", "y");
  }
}
