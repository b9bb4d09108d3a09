/** `SemanticMatcher`: which vocabulary words a prompt names, and which
    detection those words describe best.

    The sentence-embedding model and cosine similarity are not modelled: every
    operation that needs them takes `sim`, the similarity the model would give
    a keyword and a detection label, as a parameter. */
module SemanticMatcher {
  import opened Wrappers
  import opened Text
  import opened Detections

  /** `util.cos_sim(model.encode(keyword), model.encode(label))`. */
  type Similarity = (string, string) -> real

  /** The terms scored when the prompt names no vocabulary word. */
  const Fallback: seq<string> := ["car", "vehicle"]

  /** The absolute cut-off on the best mean similarity. */
  const Threshold: real := 0.3

  predicate Distinct(s: seq<string>) {
    forall i, j :: 0 <= i < j < |s| ==> s[i] != s[j]
  }

  // ---------------------------------------------------------------------------
  // extract_keywords
  // ---------------------------------------------------------------------------

  /** The words of `vocab`, in `vocab`'s order, that are members of `words`. */
  function KeepMembers(vocab: seq<string>, words: set<string>): (r: seq<string>)
    ensures forall w :: w in r <==> w in vocab && w in words
    ensures |r| <= |vocab|
  {
    if vocab == [] then []
    else (if vocab[0] in words then [vocab[0]] else []) + KeepMembers(vocab[1..], words)
  }

  /** `extract_keywords(text_prompt, vocabulary)`. The vocabulary is a Python set;
      `vocab` is the order in which iterating over it yields its members, so it
      has no duplicates. */
  function ExtractKeywords(prompt: string, vocab: seq<string>): (r: seq<string>)
    ensures forall w :: w in r <==> w in vocab && w in Split(Lower(prompt))
    ensures forall w :: w in r ==> IsWord(w) && IsLowerCase(w)
  {
    KeepMembers(vocab, Tokens(prompt))
  }

  lemma {:induction false} KeepMembersDistinct(vocab: seq<string>, words: set<string>)
    requires Distinct(vocab)
    ensures Distinct(KeepMembers(vocab, words))
  {
    if vocab != [] {
      assert Distinct(vocab[1..]) by {
        forall i, j | 0 <= i < j < |vocab[1..]| ensures vocab[1..][i] != vocab[1..][j] {
          assert vocab[1..][i] == vocab[i + 1] && vocab[1..][j] == vocab[j + 1];
        }
      }
      KeepMembersDistinct(vocab[1..], words);
      assert vocab[0] !in vocab[1..] by {
        forall k | 0 <= k < |vocab[1..]| ensures vocab[1..][k] != vocab[0] {
          assert vocab[1..][k] == vocab[k + 1];
        }
      }
    }
  }

  /** The keywords are a duplicate-free sub-collection of the vocabulary. */
  lemma ExtractKeywordsDistinct(prompt: string, vocab: seq<string>)
    requires Distinct(vocab)
    ensures Distinct(ExtractKeywords(prompt, vocab))
    ensures |ExtractKeywords(prompt, vocab)| <= |vocab|
  {
    KeepMembersDistinct(vocab, Tokens(prompt));
  }

  lemma {:induction false} DistinctCount(s: seq<string>, x: string)
    requires Distinct(s)
    ensures multiset(s)[x] == if x in s then 1 else 0
  {
    if s != [] {
      assert s == [s[0]] + s[1..];
      assert Distinct(s[1..]) by {
        forall i, j | 0 <= i < j < |s[1..]| ensures s[1..][i] != s[1..][j] {
          assert s[1..][i] == s[i + 1] && s[1..][j] == s[j + 1];
        }
      }
      assert s[0] !in s[1..] by {
        forall k | 0 <= k < |s[1..]| ensures s[1..][k] != s[0] {
          assert s[1..][k] == s[k + 1];
        }
      }
      DistinctCount(s[1..], x);
    }
  }

  lemma DistinctSameMembers(a: seq<string>, b: seq<string>)
    requires Distinct(a) && Distinct(b)
    requires forall x :: x in a <==> x in b
    ensures multiset(a) == multiset(b)
  {
    forall x ensures multiset(a)[x] == multiset(b)[x] {
      DistinctCount(a, x);
      DistinctCount(b, x);
    }
  }

  /** Two iteration orders of the same vocabulary set give the same keywords,
      up to order. */
  lemma ExtractKeywordsOrderFree(prompt: string, v1: seq<string>, v2: seq<string>)
    requires Distinct(v1) && Distinct(v2)
    requires forall w :: w in v1 <==> w in v2
    ensures multiset(ExtractKeywords(prompt, v1)) == multiset(ExtractKeywords(prompt, v2))
  {
    ExtractKeywordsDistinct(prompt, v1);
    ExtractKeywordsDistinct(prompt, v2);
    DistinctSameMembers(ExtractKeywords(prompt, v1), ExtractKeywords(prompt, v2));
  }

  /** A run of spaces in the prompt separates words as one space does. */
  lemma SpaceRunsIgnored(a: string, b: string, vocab: seq<string>)
    ensures ExtractKeywords(a + [' ', ' '] + b, vocab) == ExtractKeywords(a + [' '] + b, vocab)
  {
    TokensOfSpaceRun(a, b);
  }

  // ---------------------------------------------------------------------------
  // find_best_match
  // ---------------------------------------------------------------------------

  /** The keywords the scoring uses: the prompt's, or the fallback when there are none. */
  function MatchTerms(keywords: seq<string>): (t: seq<string>)
    ensures |t| > 0
  {
    if |keywords| == 0 then Fallback else keywords
  }

  /** The column sum of the similarity matrix for one label. */
  function TermSum(terms: seq<string>, name: string, sim: Similarity): real {
    if terms == [] then 0.0 else sim(terms[0], name) + TermSum(terms[1..], name, sim)
  }

  /** `torch.mean(cosine_scores, dim=0)` at one detection: the average
      similarity of the label to the terms. */
  function MeanScore(terms: seq<string>, name: string, sim: Similarity): (m: real)
    requires |terms| > 0
    ensures (|terms| as real) * m == TermSum(terms, name, sim)
  {
    TermSum(terms, name, sim) / (|terms| as real)
  }

  /** One mean score per detection index (labels are not deduplicated). */
  function Scores(terms: seq<string>, dets: seq<Detection>, sim: Similarity): (s: seq<real>)
    requires |terms| > 0
    ensures |s| == |dets|
  {
    seq(|dets|, i requires 0 <= i < |dets| => MeanScore(terms, dets[i].name, sim))
  }

  /** `k` is the first position of a maximum of `s`. */
  predicate IsFirstMax(s: seq<real>, k: nat) {
    && k < |s|
    && (forall j :: 0 <= j < |s| ==> s[j] <= s[k])
    && (forall j :: 0 <= j < k ==> s[j] < s[k])
  }

  /** `torch.argmax` over a one-dimensional tensor: the first index of the maximum. */
  function ArgMax(s: seq<real>): (k: nat)
    requires |s| > 0
    ensures IsFirstMax(s, k)
  {
    if |s| == 1 then 0
    else
      var k := ArgMax(s[..|s| - 1]);
      if s[|s| - 1] > s[k] then |s| - 1 else k
  }

  /** The first maximum is unique, so `ArgMax` is the only index meeting it. */
  lemma FirstMaxUnique(s: seq<real>, k: nat, m: nat)
    requires IsFirstMax(s, k) && IsFirstMax(s, m)
    ensures k == m
  {
    assert s[k] == s[m];
  }

  /** `find_best_match(keywords, detected_objects)`. */
  function FindBestMatch(keywords: seq<string>, dets: seq<Detection>, sim: Similarity): (r: Option<Detection>)
    ensures |dets| == 0 ==> r == None
    ensures r.None? <==>
      (|dets| == 0 || forall i :: 0 <= i < |dets| ==> Scores(MatchTerms(keywords), dets, sim)[i] < Threshold)
    ensures r.Some? ==>
      exists k: nat :: IsFirstMax(Scores(MatchTerms(keywords), dets, sim), k) && r.value == dets[k] &&
        Scores(MatchTerms(keywords), dets, sim)[k] >= Threshold
  {
    if |dets| == 0 then None
    else
      var scores := Scores(MatchTerms(keywords), dets, sim);
      var best := ArgMax(scores);
      if scores[best] < Threshold then None else Some(dets[best])
  }

  /** With no keywords, scoring uses exactly "car" and "vehicle". */
  lemma FallbackTerms(dets: seq<Detection>, sim: Similarity)
    ensures FindBestMatch([], dets, sim) == FindBestMatch(["car", "vehicle"], dets, sim)
  {
  }

  /** Detections that share a label share a score, so a later one never wins
      over an earlier one with the same label. */
  lemma RepeatedLabelLoses(keywords: seq<string>, dets: seq<Detection>, sim: Similarity, i: nat, j: nat, k: nat)
    requires i < j < |dets| && dets[i].name == dets[j].name
    requires IsFirstMax(Scores(MatchTerms(keywords), dets, sim), k)
    ensures Scores(MatchTerms(keywords), dets, sim)[i] == Scores(MatchTerms(keywords), dets, sim)[j]
    ensures k != j
  {
    var s := Scores(MatchTerms(keywords), dets, sim);
    assert s[i] == s[j];
  }

  lemma {:induction false} TermSumConcat(a: seq<string>, b: seq<string>, name: string, sim: Similarity)
    ensures TermSum(a + b, name, sim) == TermSum(a, name, sim) + TermSum(b, name, sim)
  {
    if a != [] {
      assert (a + b)[1..] == a[1..] + b;
      TermSumConcat(a[1..], b, name, sim);
    } else {
      assert a + b == b;
    }
  }

  /** Taking one term out of the middle removes exactly its similarity. */
  lemma TermSumRemove(t: seq<string>, i: nat, name: string, sim: Similarity)
    requires i < |t|
    ensures TermSum(t, name, sim) == sim(t[i], name) + TermSum(t[..i] + t[i + 1..], name, sim)
  {
    var tail := [t[i]] + t[i + 1..];
    assert t == t[..i] + tail;
    TermSumConcat(t[..i], tail, name, sim);
    assert tail[1..] == t[i + 1..];
    TermSumConcat(t[..i], t[i + 1..], name, sim);
  }

  lemma MultisetRemove(t: seq<string>, i: nat)
    requires i < |t|
    ensures multiset(t[..i] + t[i + 1..]) == multiset(t) - multiset{t[i]}
  {
    assert t == t[..i] + [t[i]] + t[i + 1..];
  }

  /** The column sum does not depend on the order of the terms. */
  lemma {:induction false} TermSumPermutation(s: seq<string>, t: seq<string>, name: string, sim: Similarity)
    requires multiset(s) == multiset(t)
    ensures TermSum(s, name, sim) == TermSum(t, name, sim)
    decreases |s|
  {
    if s == [] {
      assert |t| == |multiset(t)| == 0;
    } else {
      var x := s[0];
      assert x in multiset(t);
      var i :| 0 <= i < |t| && t[i] == x;
      MultisetRemove(t, i);
      assert s == [x] + s[1..];
      assert multiset(s[1..]) == multiset(s) - multiset{x};
      TermSumPermutation(s[1..], t[..i] + t[i + 1..], name, sim);
      TermSumRemove(t, i, name, sim);
    }
  }

  /** The match does not depend on the order in which the keywords arrive. */
  lemma KeywordOrderFree(k1: seq<string>, k2: seq<string>, dets: seq<Detection>, sim: Similarity)
    requires multiset(k1) == multiset(k2)
    ensures FindBestMatch(k1, dets, sim) == FindBestMatch(k2, dets, sim)
  {
    assert |k1| == |multiset(k1)| == |multiset(k2)| == |k2|;
    var t1, t2 := MatchTerms(k1), MatchTerms(k2);
    assert multiset(t1) == multiset(t2);
    forall i | 0 <= i < |dets|
      ensures Scores(t1, dets, sim)[i] == Scores(t2, dets, sim)[i]
    {
      TermSumPermutation(t1, t2, dets[i].name, sim);
    }
    assert Scores(t1, dets, sim) == Scores(t2, dets, sim);
  }

  /** The match is the same whichever order the vocabulary set is iterated in. */
  lemma VocabularyOrderFree(prompt: string, v1: seq<string>, v2: seq<string>, dets: seq<Detection>, sim: Similarity)
    requires Distinct(v1) && Distinct(v2)
    requires forall w :: w in v1 <==> w in v2
    ensures FindBestMatch(ExtractKeywords(prompt, v1), dets, sim) == FindBestMatch(ExtractKeywords(prompt, v2), dets, sim)
  {
    ExtractKeywordsOrderFree(prompt, v1, v2);
    KeywordOrderFree(ExtractKeywords(prompt, v1), ExtractKeywords(prompt, v2), dets, sim);
  }

  lemma {:induction false} TermSumBounds(terms: seq<string>, name: string, sim: Similarity, lo: real, hi: real)
    requires forall i :: 0 <= i < |terms| ==> lo <= sim(terms[i], name) <= hi
    ensures (|terms| as real) * lo <= TermSum(terms, name, sim) <= (|terms| as real) * hi
  {
    if terms != [] {
      var n := |terms| as real;
      TermSumBounds(terms[1..], name, sim, lo, hi);
      assert (|terms[1..]| as real) == n - 1.0;
      assert n * lo == (n - 1.0) * lo + lo;
      assert n * hi == (n - 1.0) * hi + hi;
    }
  }

  /** A mean of similarities lies within their range; with cosine similarity
      every score, and so the best one, lies in [-1, 1]. */
  lemma MeanScoreBounds(terms: seq<string>, name: string, sim: Similarity, lo: real, hi: real)
    requires |terms| > 0
    requires forall i :: 0 <= i < |terms| ==> lo <= sim(terms[i], name) <= hi
    ensures lo <= MeanScore(terms, name, sim) <= hi
  {
    TermSumBounds(terms, name, sim, lo, hi);
    var n := |terms| as real;
    var total := TermSum(terms, name, sim);
    assert total / n >= lo by {
      assert total >= n * lo;
    }
    assert total / n <= hi by {
      assert total <= n * hi;
    }
  }
}
