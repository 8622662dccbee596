/** Tag filters: the predicate the read queries apply, and the scope of
    scoped.go that is merged into it. */
module Filters {
  import opened Basics

  datatype QueryFilter = QueryFilter(tags: seq<string>, anyTags: seq<string>, excludeTag: string,
                                     unlessTags: seq<string>)

  const NO_FILTER := QueryFilter([], [], "", [])

  predicate Overlap(x: set<string>, y: seq<string>)
  {
    exists t :: t in x && t in y
  }

  /** All of `tags`, one of `anyTags`, and not `excludeTag` unless exempted. */
  predicate Passes(f: QueryFilter, tags: set<string>)
  {
    && (forall t :: t in f.tags ==> t in tags)
    && (f.anyTags == [] || Overlap(tags, f.anyTags))
    && (f.excludeTag == "" || f.excludeTag !in tags || Overlap(tags, f.unlessTags))
  }

  // -------------------------------------------------------------------------
  // Scopes
  // -------------------------------------------------------------------------

  datatype Scope = Scope(requireTags: seq<string>, excludeTag: string, unlessTags: seq<string>)

  /** ScopedStore.mergeFilter. */
  function MergeFilter(c: Scope, filter: Option<QueryFilter>): QueryFilter
  {
    var f := if filter.Some? then filter.value else NO_FILTER;
    var merged := f.(tags := f.tags + c.requireTags);
    if c.excludeTag == "" then merged
    else merged.(excludeTag := c.excludeTag, unlessTags := f.unlessTags + c.unlessTags)
  }

  /** ScopedStore.entityVisible. */
  predicate Visible(c: Scope, tags: set<string>)
  {
    && (forall t :: t in c.requireTags ==> t in tags)
    && (c.excludeTag == "" || c.excludeTag !in tags || Overlap(tags, c.unlessTags))
  }

  /** Tags that satisfy the merged filter through the caller's exemption `u`
      and nothing more than needed. */
  function Loophole(c: Scope, f: QueryFilter, u: string, any: seq<string>): set<string>
  {
    (set t | t in f.tags) + (set t | t in c.requireTags) + {c.excludeTag, u} + set t | t in any
  }

  ghost predicate AnyChoice(f: QueryFilter, any: seq<string>)
  {
    if f.anyTags == [] then any == [] else |any| == 1 && any[0] in f.anyTags
  }

  /** The caller's exemptions can let through an entity the scope hides. */
  ghost predicate Leaks(c: Scope, f: QueryFilter)
  {
    && c.excludeTag != ""
    && exists u, any :: u in f.unlessTags && AnyChoice(f, any) && !Overlap(Loophole(c, f, u, any), c.unlessTags)
  }

  /** What both the scope and the caller's filter let through is never lost. */
  lemma MergedKeepsBoth(c: Scope, f: QueryFilter, tags: set<string>)
    requires Passes(f, tags) && Visible(c, tags)
    ensures Passes(MergeFilter(c, Some(f)), tags)
  {
    var m := MergeFilter(c, Some(f));
    if c.excludeTag != "" && c.excludeTag in tags {
      var t :| t in tags && t in c.unlessTags;
      assert t in m.unlessTags;
    }
  }

  /** With no filter of the caller's own, the query and the scope check agree. */
  lemma MergeNilIsVisible(c: Scope, tags: set<string>)
    ensures Passes(MergeFilter(c, None), tags) <==> Visible(c, tags)
  {
  }

  /** The merged query returns only visible entities, whatever their tags, if
      and only if the caller's exemptions leave no loophole; in particular it
      does when the caller adds none, or the scope excludes nothing. */
  lemma MergedIsVisibleIff(c: Scope, f: QueryFilter)
    ensures (forall tags :: Passes(MergeFilter(c, Some(f)), tags) ==> Visible(c, tags)) <==> !Leaks(c, f)
    ensures f.unlessTags == [] || c.excludeTag == "" ==> !Leaks(c, f)
  {
    var m := MergeFilter(c, Some(f));
    if Leaks(c, f) {
      var u, any :| u in f.unlessTags && AnyChoice(f, any) && !Overlap(Loophole(c, f, u, any), c.unlessTags);
      LoopholePasses(c, f, u, any);
      assert !Visible(c, Loophole(c, f, u, any));
    } else {
      forall tags | Passes(m, tags) ensures Visible(c, tags) {
        PassingIsVisible(c, f, tags);
      }
    }
  }

  lemma LoopholePasses(c: Scope, f: QueryFilter, u: string, any: seq<string>)
    requires c.excludeTag != "" && u in f.unlessTags && AnyChoice(f, any)
    ensures Passes(MergeFilter(c, Some(f)), Loophole(c, f, u, any))
    ensures c.excludeTag in Loophole(c, f, u, any)
  {
  }

  lemma PassingIsVisible(c: Scope, f: QueryFilter, tags: set<string>)
    requires !Leaks(c, f) && Passes(MergeFilter(c, Some(f)), tags)
    ensures Visible(c, tags)
  {
    var m := MergeFilter(c, Some(f));
    assert forall t :: t in c.requireTags ==> t in m.tags;
    if c.excludeTag != "" && c.excludeTag in tags {
      assert Overlap(tags, m.unlessTags);
      var t :| t in tags && t in m.unlessTags;
      if t in f.unlessTags {
        var any: seq<string> := [];
        if f.anyTags != [] {
          var a :| a in tags && a in f.anyTags;
          any := [a];
        }
        assert AnyChoice(f, any);
        assert Overlap(Loophole(c, f, t, any), c.unlessTags);
        var w :| w in Loophole(c, f, t, any) && w in c.unlessTags;
        assert forall x :: x in f.tags ==> x in m.tags;
        assert w in tags;
      }
    }
  }

  /** The loophole is real: a scope hiding "secret" entities unless tagged
      "staff", and a caller who adds the exemption "me". */
  lemma LoopholeExample()
    ensures var c, f := Scope([], "secret", ["staff"]), QueryFilter([], [], "", ["me"]);
            Passes(MergeFilter(c, Some(f)), {"secret", "me"}) && !Visible(c, {"secret", "me"})
  {
  }

  // -------------------------------------------------------------------------
  // The caller's own exclusion
  // -------------------------------------------------------------------------

  /** The least an entity must carry to be asked for by both and yet excluded
      by the caller. */
  function Unwanted(c: Scope, f: QueryFilter, any: seq<string>): set<string>
  {
    (set t | t in f.tags) + (set t | t in c.requireTags) + {f.excludeTag} + set t | t in any
  }

  /** The scope's exclusion takes the place of the caller's, and lets through
      an entity the caller excluded. */
  ghost predicate Drops(c: Scope, f: QueryFilter)
  {
    && c.excludeTag != "" && f.excludeTag != ""
    && exists any :: && AnyChoice(f, any) && !Overlap(Unwanted(c, f, any), f.unlessTags)
                     && (c.excludeTag in Unwanted(c, f, any) ==> exists u :: u in c.unlessTags && u !in f.unlessTags)
  }

  lemma DroppedPasses(c: Scope, f: QueryFilter, any: seq<string>) returns (tags: set<string>)
    requires c.excludeTag != "" && f.excludeTag != ""
    requires AnyChoice(f, any) && !Overlap(Unwanted(c, f, any), f.unlessTags)
    requires c.excludeTag in Unwanted(c, f, any) ==> exists u :: u in c.unlessTags && u !in f.unlessTags
    ensures Passes(MergeFilter(c, Some(f)), tags) && !Passes(f, tags)
  {
    tags := Unwanted(c, f, any);
    if c.excludeTag in tags {
      var u :| u in c.unlessTags && u !in f.unlessTags;
      tags := tags + {u};
      assert u in MergeFilter(c, Some(f)).unlessTags;
    }
  }

  lemma UnwantedDrops(c: Scope, f: QueryFilter, tags: set<string>)
    requires Passes(MergeFilter(c, Some(f)), tags) && !Passes(f, tags)
    ensures Drops(c, f)
  {
    var m := MergeFilter(c, Some(f));
    assert forall x :: x in f.tags || x in c.requireTags ==> x in m.tags;
    var any: seq<string> := [];
    if f.anyTags != [] {
      var a :| a in tags && a in f.anyTags;
      any := [a];
    }
    assert AnyChoice(f, any);
    assert forall x :: x in Unwanted(c, f, any) ==> x in tags;
    assert !Overlap(Unwanted(c, f, any), f.unlessTags);
    if c.excludeTag in Unwanted(c, f, any) {
      var u :| u in tags && u in m.unlessTags;
      assert u in c.unlessTags && u !in f.unlessTags;
    }
  }

  /** The merged query returns only what the caller's own filter asks for,
      whatever the tags, if and only if the scope's exclusion drops none of
      the caller's; in particular when either excludes nothing. */
  lemma MergedIsWantedIff(c: Scope, f: QueryFilter)
    ensures (forall tags :: Passes(MergeFilter(c, Some(f)), tags) ==> Passes(f, tags)) <==> !Drops(c, f)
    ensures c.excludeTag == "" || f.excludeTag == "" ==> !Drops(c, f)
  {
    if Drops(c, f) {
      var any :| && AnyChoice(f, any) && !Overlap(Unwanted(c, f, any), f.unlessTags)
                 && (c.excludeTag in Unwanted(c, f, any) ==> exists u :: u in c.unlessTags && u !in f.unlessTags);
      var tags := DroppedPasses(c, f, any);
    } else {
      forall tags | Passes(MergeFilter(c, Some(f)), tags) ensures Passes(f, tags) {
        if !Passes(f, tags) { UnwantedDrops(c, f, tags); }
      }
    }
  }

  /** A caller who excludes "draft", in a scope that excludes "secret", is
      given drafts. */
  lemma DroppedExample()
    ensures var c, f := Scope([], "secret", []), QueryFilter([], [], "draft", []);
            Passes(MergeFilter(c, Some(f)), {"draft"}) && !Passes(f, {"draft"})
  {
  }
}
