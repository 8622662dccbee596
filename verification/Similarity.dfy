/** The token-set similarity and the dispatch of matching/similarity.go. */
module Similarities {
  import Basics
  import Levenshtein
  import Jaro

  /** Lowercasing and splitting at white space, left to the caller. */
  type Tokenizer = string -> seq<string>

  function TokenSet(tok: Tokenizer, s: string): set<string>
  {
    set t | t in tok(s)
  }

  /** Shared tokens as a share of all tokens. */
  function Jaccard(a: set<string>, b: set<string>): real
  {
    if a == {} && b == {} then 1.0
    else if a == {} || b == {} then 0.0
    else |a * b| as real / |a + b| as real
  }

  lemma SubsetSize(a: set<string>, b: set<string>)
    requires a <= b
    ensures |a| <= |b| && (|a| == |b| ==> a == b)
  {
    assert b == a + (b - a);
    assert |b| == |a| + |b - a|;
  }

  lemma JaccardProperties(a: set<string>, b: set<string>)
    ensures 0.0 <= Jaccard(a, b) <= 1.0
    ensures Jaccard(a, b) == 1.0 <==> a == b
    ensures Jaccard(a, b) == 0.0 <==> a != b && a !! b
    ensures Jaccard(a, b) == Jaccard(b, a)
  {
    assert a * b == b * a && a + b == b + a;
    if a != {} && b != {} {
      SubsetSize(a * b, a + b);
      assert |a + b| > 0 by { SubsetSize(a, a + b); assert |a| > 0; }
      Basics.Ratio(|a * b| as real, |a + b| as real);
      assert a * b == a + b <==> a == b by {
        if a * b == a + b {
          assert forall t :: t in a ==> t in a * b;
          assert forall t :: t in b ==> t in a * b;
        }
      }
      assert |a * b| == 0 <==> a * b == {};
    }
  }

  /** The share of common tokens among all that occur, each counted once. */
  lemma JaccardValue(a: set<string>, b: set<string>)
    requires a != {} || b != {}
    ensures Jaccard(a, b) * (|a| + |b| - |a * b|) as real == |a * b| as real
  {
    assert a == (a - b) + a * b && a + b == (a - b) + b;
    assert |a + b| == |a| + |b| - |a * b|;
    if a == {} || b == {} { assert a * b == {}; }
  }

  /** The tokens of `a` that are also in `b`. */
  method CountShared(a: set<string>, b: set<string>) returns (n: nat)
    ensures n == |a * b|
  {
    n := 0;
    var rest := a;
    while rest != {}
      invariant rest <= a && n + |rest * b| == |a * b|
      decreases rest
    {
      var t :| t in rest;
      var less := rest - {t};
      if t in b {
        assert rest * b == less * b + {t};
        n := n + 1;
      } else {
        assert rest * b == less * b;
      }
      rest := less;
    }
  }

  /** The tokens of `b` that are not in `a`. */
  method CountNew(a: set<string>, b: set<string>) returns (n: nat)
    ensures n == |b - a|
  {
    n := 0;
    var rest := b;
    while rest != {}
      invariant rest <= b && n + |rest - a| == |b - a|
      decreases rest
    {
      var t :| t in rest;
      var less := rest - {t};
      if t !in a {
        assert rest - a == (less - a) + {t};
        n := n + 1;
      } else {
        assert rest - a == less - a;
      }
      rest := less;
    }
  }

  method TokenJaccard(tok: Tokenizer, s1: string, s2: string) returns (r: real)
    ensures r == Jaccard(TokenSet(tok, s1), TokenSet(tok, s2))
  {
    var tokens1, tokens2 := TokenSet(tok, s1), TokenSet(tok, s2);
    if tokens1 == {} && tokens2 == {} { return 1.0; }
    if tokens1 == {} || tokens2 == {} { return 0.0; }
    var intersection := CountShared(tokens1, tokens2);
    var added := CountNew(tokens1, tokens2);
    var union := |tokens1| + added;
    assert tokens1 + tokens2 == tokens1 + (tokens2 - tokens1);
    assert union == |tokens1 + tokens2| && |tokens1| > 0;
    r := intersection as real / union as real;
  }

  datatype SimilarityFunc = Exact | JaroWinkler | Edit | Tokens | Unrecognised

  ghost function Similarity(tok: Tokenizer, fn: SimilarityFunc, a: string, b: string): real
  {
    if a == "" || b == "" then 0.0
    else
      match fn
      case Exact => if a == b then 1.0 else 0.0
      case JaroWinkler => Jaro.Winkler(a, b)
      case Edit => Levenshtein.Score(a, b)
      case Tokens => Jaccard(TokenSet(tok, a), TokenSet(tok, b))
      case Unrecognised => 0.0
  }

  method ComputeSimilarity(tok: Tokenizer, fn: SimilarityFunc, a: string, b: string) returns (r: real)
    ensures r == Similarity(tok, fn, a, b)
    ensures a == "" || b == "" || fn.Unrecognised? ==> r == 0.0
    ensures a != "" && b != "" && fn.Exact? ==> r == if a == b then 1.0 else 0.0
    ensures a != "" && b != "" && fn.JaroWinkler? ==> r == Jaro.Winkler(a, b)
    ensures a != "" && b != "" && fn.Edit? ==> r == Levenshtein.Score(a, b)
    ensures a != "" && b != "" && fn.Tokens? ==> r == Jaccard(TokenSet(tok, a), TokenSet(tok, b))
  {
    if a == "" || b == "" { return 0.0; }
    match fn {
      case Exact => r := if a == b then 1.0 else 0.0;
      case JaroWinkler => r := Jaro.JaroWinkler(a, b);
      case Edit => r := Levenshtein.NormalizedLevenshtein(a, b);
      case Tokens => r := TokenJaccard(tok, a, b);
      case Unrecognised => r := 0.0;
    }
  }

  /** Every similarity is in [0, 1] and symmetric; a value compared with itself
      scores 1 exactly when it is non-empty and the function is known; and all
      but the token function score 1 on equal values only. */
  lemma SimilarityProperties(tok: Tokenizer, fn: SimilarityFunc, a: string, b: string)
    ensures 0.0 <= Similarity(tok, fn, a, b) <= 1.0
    ensures Similarity(tok, fn, a, b) == Similarity(tok, fn, b, a)
    ensures Similarity(tok, fn, a, a) == if a != "" && !fn.Unrecognised? then 1.0 else 0.0
    ensures Similarity(tok, fn, a, b) == 1.0 && !fn.Tokens? ==> a == b
  {
    match fn
    case JaroWinkler =>
      Jaro.WinklerProperties(a, b);
      Jaro.WinklerProperties(a, a);
      Jaro.SimilarityProperties(a, b);
    case Edit =>
      Levenshtein.ScoreProperties(a, b);
      Levenshtein.ScoreProperties(a, a);
    case Tokens =>
      JaccardProperties(TokenSet(tok, a), TokenSet(tok, b));
      JaccardProperties(TokenSet(tok, a), TokenSet(tok, a));
    case _ =>
  }
}
