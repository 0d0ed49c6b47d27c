/**
 * Question selection (QuestionManager.prepare_questions): both pools are
 * shuffled, the requested total is split 60/40, a prefix of each shuffled
 * pool is taken (a shorter pool silently gives fewer questions) and the
 * concatenation is shuffled once more.
 */
module Sampling {
  import opened Questions

  function Min(a: nat, b: nat): nat
  {
    if a <= b then a else b
  }

  /** Share of the total drawn from the specific pool, as a ratio n/d. */
  const SpecificRatioNumerator: nat := 6
  const SpecificRatioDenominator: nat := 10

  /**
   * The quotas (specific, general) for a requested total: the specific quota
   * is the integer part of 0.6 * total and the two quotas add up to the total.
   */
  function Quotas(total: nat): (q: (nat, nat))
    ensures 10 * q.0 <= 6 * total < 10 * q.0 + 10
    ensures q.0 + q.1 == total
  {
    var numSpecific := (SpecificRatioNumerator * total) / SpecificRatioDenominator;
    (numSpecific, total - numSpecific)
  }

  /** The slice `s[:n]`: a prefix of `s`, silently shorter when `s` has fewer than `n` elements. */
  function Take<T>(s: seq<T>, n: nat): (r: seq<T>)
    ensures |r| == Min(n, |s|)
    ensures r == s[..|r|]
  {
    if n <= |s| then s[..n] else s
  }

  /** The concatenation of the two slices, before the final shuffle. */
  function Blend(specific: seq<Question>, general: seq<Question>, total: nat): (r: seq<Question>)
    ensures |r| == Min(Quotas(total).0, |specific|) + Min(Quotas(total).1, |general|)
  {
    Take(specific, Quotas(total).0) + Take(general, Quotas(total).1)
  }

  ghost predicate IsPermutation<T>(a: seq<T>, b: seq<T>)
  {
    multiset(a) == multiset(b)
  }

  /**
   * `selected` is a possible outcome of the selection: for some shuffle of each
   * pool, it is a shuffle of the two prefixes put one after the other.
   */
  ghost predicate IsSample(selected: seq<Question>, specific: seq<Question>, general: seq<Question>, total: nat)
  {
    exists s, g {:trigger Blend(s, g, total)} ::
      IsPermutation(s, specific) && IsPermutation(g, general) && IsPermutation(selected, Blend(s, g, total))
  }

  lemma PrefixIncluded<T>(s: seq<T>, k: nat)
    requires k <= |s|
    ensures multiset(s[..k]) <= multiset(s)
  {
    assert s == s[..k] + s[k..];
  }

  /**
   * Every selected question is accounted for by a part of the specific pool of
   * size min(quota, pool size) and a part of the general pool of size
   * min(quota, pool size): nothing is fabricated, nothing is duplicated beyond
   * the pools, and a short pool is not compensated by the other one.
   */
  lemma SampleDrawnFromPools(selected: seq<Question>, specific: seq<Question>, general: seq<Question>, total: nat)
    returns (fromSpecific: multiset<Question>, fromGeneral: multiset<Question>)
    requires IsSample(selected, specific, general, total)
    ensures fromSpecific <= multiset(specific) && |fromSpecific| == Min(Quotas(total).0, |specific|)
    ensures fromGeneral <= multiset(general) && |fromGeneral| == Min(Quotas(total).1, |general|)
    ensures multiset(selected) == fromSpecific + fromGeneral
  {
    var s, g :| IsPermutation(s, specific) && IsPermutation(g, general) && IsPermutation(selected, Blend(s, g, total));
    var ts, tg := Take(s, Quotas(total).0), Take(g, Quotas(total).1);
    PrefixIncluded(s, |ts|);
    PrefixIncluded(g, |tg|);
    fromSpecific, fromGeneral := multiset(ts), multiset(tg);
  }

  /**
   * The number of selected questions is min(quota, |specific|) + min(quota, |general|);
   * it never exceeds the total and equals it when both pools cover their quotas.
   */
  lemma SampleLength(selected: seq<Question>, specific: seq<Question>, general: seq<Question>, total: nat)
    requires IsSample(selected, specific, general, total)
    ensures |selected| == Min(Quotas(total).0, |specific|) + Min(Quotas(total).1, |general|)
    ensures |selected| <= total
    ensures Quotas(total).0 <= |specific| && Quotas(total).1 <= |general| ==> |selected| == total
  {
    var a, b := SampleDrawnFromPools(selected, specific, general, total);
    assert |multiset(selected)| == |selected|;
  }

  /** Every selected question comes from one of the pools, at most as often as the pools hold it. */
  lemma SampleContained(selected: seq<Question>, specific: seq<Question>, general: seq<Question>, total: nat)
    requires IsSample(selected, specific, general, total)
    ensures multiset(selected) <= multiset(specific) + multiset(general)
    ensures forall q :: q in selected ==> q in specific || q in general
  {
    var a, b := SampleDrawnFromPools(selected, specific, general, total);
    forall q | q in selected
      ensures q in specific || q in general
    {
      assert q in multiset(selected);
    }
  }

  /** A pool shorter than its quota makes the selection shorter than the total: the other pool does not fill in. */
  lemma ShortfallNotRedistributed(selected: seq<Question>, specific: seq<Question>, general: seq<Question>, total: nat)
    requires IsSample(selected, specific, general, total)
    requires |specific| < Quotas(total).0 || |general| < Quotas(total).1
    ensures |selected| < total
  {
    SampleLength(selected, specific, general, total);
  }

  /** Three specific and a hundred general questions with total 10: 3 + 4 questions are selected. */
  lemma ShortSpecificPoolExample(selected: seq<Question>, specific: seq<Question>, general: seq<Question>)
    requires |specific| == 3 && |general| == 100
    requires IsSample(selected, specific, general, 10)
    ensures |selected| == 7
  {
  }

  /** With both pools empty (for instance both stores unreadable) nothing is selected. */
  lemma EmptyPoolsGiveEmptySelection(selected: seq<Question>, total: nat)
    requires IsSample(selected, [], [], total)
    ensures selected == []
  {
  }

  /** `random.shuffle`: Fisher-Yates in place, with the random index left as an arbitrary choice. */
  method Shuffle<T>(a: array<T>)
    modifies a
    ensures multiset(a[..]) == multiset(old(a[..]))
  {
    var i := a.Length;
    while i > 1
      invariant 0 <= i <= a.Length
      invariant multiset(a[..]) == multiset(old(a[..]))
    {
      i := i - 1;
      var j :| 0 <= j <= i;
      a[i], a[j] := a[j], a[i];
    }
  }

  method ToArray<T>(s: seq<T>) returns (a: array<T>)
    ensures fresh(a) && a[..] == s
  {
    a := new T[|s|](i requires 0 <= i < |s| => s[i]);
  }

  /**
   * Selects the questions of one quiz from the two pools (the contents of the
   * specific and the general store): the result is one of the possible samples.
   */
  method PrepareQuestions(specific: seq<Question>, general: seq<Question>, total: nat)
    returns (selected: seq<Question>)
    ensures IsSample(selected, specific, general, total)
  {
    var specificQuestions := ToArray(specific);
    var generalQuestions := ToArray(general);
    Shuffle(specificQuestions);
    Shuffle(generalQuestions);
    var (numSpecific, numGeneral) := Quotas(total);
    ghost var s, g := specificQuestions[..], generalQuestions[..];
    var selectedQuestions := ToArray(Take(specificQuestions[..], numSpecific) + Take(generalQuestions[..], numGeneral));
    assert selectedQuestions[..] == Blend(s, g, total);
    Shuffle(selectedQuestions);
    selected := selectedQuestions[..];
    assert IsPermutation(s, specific) && IsPermutation(g, general) && IsPermutation(selected, Blend(s, g, total));
  }
}
