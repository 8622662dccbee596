/** What the Jaro and Jaro-Winkler similarities come to, in terms of the two
    strings and not of how matching/similarity.go computes them. */
module JaroLaws {
  import opened Jaro

  /** Which characters may be matched: equal ones in one place, or in places
      less than half the longer length apart. */
  lemma CompatibleIff(a: string, b: string, i: nat, j: nat)
    requires i < |a| && j < |b|
    ensures var apart, longer := if i < j then j - i else i - j, if |a| < |b| then |b| else |a|;
            Compatible(a, b, i, j) <==> a[i] == b[j] && (apart == 0 || apart < longer / 2)
  {
  }

  /** The positions at which two strings of equal length differ. */
  ghost function Differences(x: string, y: string): set<nat>
    requires |x| == |y|
  {
    set i: nat | i < |x| && x[i] != y[i]
  }

  lemma {:induction false} MismatchesCount(x: string, y: string)
    requires |x| == |y|
    ensures Mismatches(x, y) == |Differences(x, y)|
  {
    if x == [] {
      assert Differences(x, y) == {};
    } else {
      var l := |x| - 1;
      MismatchesCount(x[..l], y[..l]);
      assert Differences(x, y) == Differences(x[..l], y[..l]) + if x[l] == y[l] then {} else {l};
    }
  }

  /** The loss of three shares: unmatched characters of either string, and half
      the matched ones that are out of order. */
  lemma FormulaLoss(m: nat, t: nat, l1: nat, l2: nat)
    requires m > 0 && l1 > 0 && l2 > 0
    ensures 3.0 * (1.0 - Formula(m, t, l1, l2))
         == (1.0 - m as real / l1 as real) + (1.0 - m as real / l2 as real) + t as real / (2.0 * m as real)
  {
    HalfShare(t as real, m as real);
  }

  lemma HalfShare(t: real, h: real)
    requires h > 0.0
    ensures (h - t / 2.0) / h == 1.0 - t / (2.0 * h)
  {
    var x, q := (h - t / 2.0) / h, t / (2.0 * h);
    assert x * h == h - t / 2.0;
    assert q * (2.0 * h) == t;
    Cancel(h, x, 1.0 - q);
  }

  lemma Cancel(h: real, x: real, y: real)
    requires h > 0.0 && x * h == y * h
    ensures x == y
  {
    assert (x - y) * h == 0.0;
  }

  /** With everything matched. */
  lemma FormulaComplete(n: nat, t: nat)
    requires n > 0
    ensures Formula(n, t, n, n) == 1.0 - t as real / (6.0 * n as real)
  {
    HalfShare(t as real, n as real);
    ThirdShare(t as real, n as real);
    assert n as real / n as real == 1.0;
  }

  lemma ThirdShare(t: real, h: real)
    requires h > 0.0
    ensures t / (2.0 * h) == 3.0 * (t / (6.0 * h))
  {
    var x, q := t / (2.0 * h), t / (6.0 * h);
    assert q * (6.0 * h) == t && x * (2.0 * h) == t;
    Cancel(2.0 * h, x, 3.0 * q);
  }

  /** With one string matched in full and in order. */
  lemma FormulaPrefix(m: nat, l: nat)
    requires m > 0 && l > 0
    ensures Formula(m, 0, m, l) == (2.0 + m as real / l as real) / 3.0
  {
    assert m as real / m as real == 1.0;
  }

  /** The value for any pairing that no compatible pair could improve on: the
      mean of three losses, of characters of either string left unmatched, and
      of half the matched ones that stand in different order. */
  lemma ValueByPairing(a: string, b: string, p: map<nat, nat>)
    requires Stable(a, b, p) && a != b && |p| > 0
    ensures var left, right := Selected(a, |a|, p.Keys), Selected(b, |b|, p.Values);
            && |left| == |right| == |p| && |a| > 0 && |b| > 0
            && 3.0 * (1.0 - Similarity(a, b))
               == (1.0 - |p| as real / |a| as real) + (1.0 - |p| as real / |b| as real)
                  + |Differences(left, right)| as real / (2.0 * |p| as real)
  {
    MatchingStable(a, b);
    StableUnique(a, b, p, Matching(a, b));
    MatchedSize(a, b);
    MismatchesCount(MatchedLeft(a, b), MatchedRight(a, b));
    FormulaLoss(|p|, Transpositions(a, b), |a|, |b|);
  }

  lemma CompletePairing(a: string, b: string, p: map<nat, nat>)
    requires IsPairing(a, b, p) && |p| == |a| == |b|
    ensures |Matching(a, b)| == |a| && MatchedLeft(a, b) == a && MatchedRight(a, b) == b
  {
    MatchingIsMaximum(a, b);
    MatchedSize(a, b);
    SelectedAtMost(a, |a|, Matching(a, b).Keys);
    SelectedAtMost(b, |b|, Matching(a, b).Values);
    assert a[..|a|] == a && b[..|b|] == b;
  }

  /** If the characters of one string can all be paired with those of the other
      within the window, each position that differs costs a sixth of its share. */
  lemma RearrangedValue(a: string, b: string, p: map<nat, nat>)
    requires IsPairing(a, b, p) && |p| == |a| == |b| > 0
    ensures Similarity(a, b) == 1.0 - |Differences(a, b)| as real / (6.0 * |a| as real)
  {
    CompletePairing(a, b, p);
    MismatchesCount(a, b);
    if a == b {
      assert Differences(a, b) == {};
    } else {
      FormulaComplete(|a|, |Differences(a, b)|);
    }
  }

  lemma PrefixPairing(a: string, s: string)
    ensures Matching(a, a + s) == Diagonal(|a|)
  {
    var p, b := Diagonal(|a|), a + s;
    forall i: nat, j: nat | i < |a| && Compatible(a, b, i, j) ensures Settled(p, i, j) {
      if j < i { assert j in p && p[j] == j; }
    }
    MatchingStable(a, b);
    StableUnique(a, b, Matching(a, b), p);
  }

  lemma PrefixMatched(a: string, s: string)
    ensures |Matching(a, a + s)| == |a| && MatchedLeft(a, a + s) == a && MatchedRight(a, a + s) == a
  {
    var p := Diagonal(|a|);
    PrefixPairing(a, s);
    DiagonalMarks(|a|);
    MatchedSize(a, a + s);
    SelectedAll(a, |a|, p.Keys);
    SelectedAtMost(a, |a|, p.Keys);
    PrefixSelected(a, s, |a + s|, p.Values);
    assert a[..|a|] == a;
  }

  /** A string against its own extension: only the new characters count. */
  lemma ExtensionValue(a: string, s: string)
    requires a != []
    ensures Similarity(a, a + s) == (2.0 + |a| as real / |a + s| as real) / 3.0
  {
    PrefixMatched(a, s);
    MismatchesBound(a, a);
    FormulaPrefix(|a|, |a + s|);
    if s == [] { assert a + s == a; }
  }

  lemma DiagonalMarks(n: nat)
    ensures forall i: nat :: i in Diagonal(n).Values <==> i < n
    ensures forall i: nat :: i in Diagonal(n).Keys <==> i < n
  {
    var p := Diagonal(n);
    forall i: nat | i < n ensures i in p.Values {
      assert i in p && p[i] == i;
    }
  }

  lemma {:induction false} PrefixSelected(a: string, s: string, n: nat, picked: set<nat>)
    requires |a| <= n <= |a + s| && forall i: nat :: i in picked <==> i < |a|
    ensures Selected(a + s, n, picked) == a
    decreases n
  {
    if n == |a| {
      SelectedAll(a + s, n, picked);
      SelectedAtMost(a + s, n, picked);
      assert (a + s)[..n] == a;
    } else {
      PrefixSelected(a, s, n - 1, picked);
    }
  }

  /** Jaro-Winkler makes good a tenth of what Jaro takes off for each of the
      first four characters on which the strings agree from the start. */
  lemma WinklerValue(a: string, b: string, k: nat)
    requires k <= 4 && k <= |a| && k <= |b| && a[..k] == b[..k]
    requires k == 4 || k == |a| || k == |b| || a[k] != b[k]
    ensures 1.0 - Winkler(a, b) == (1.0 - 0.1 * k as real) * (1.0 - Similarity(a, b))
  {
    CommonPrefixUnique(a, b, PrefixCap(a, b), k);
    SimilarityProperties(a, b);
    var j := Similarity(a, b);
    if j == 0.0 {
      if k > 0 { assert a[..k][0] == b[..k][0]; assert Compatible(a, b, 0, 0); }
    } else {
      BoostLoss(j, k as real * 0.1);
    }
  }

  lemma BoostLoss(j: real, p: real)
    ensures 1.0 - Boosted(j, p) == (1.0 - p) * (1.0 - j)
  {
  }
}
