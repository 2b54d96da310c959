/** "Did you mean" suggestions: the nearest known ids, ranked by edit distance and then by id. */
module Suggestions {
  import opened EditDistance
  import opened Ordering

  const MAX_SUGGESTION_DISTANCE: nat := 3
  const MAX_SUGGESTION_INPUT_CHARS: nat := 256

  // ---- The ranking ----

  /** `x` ranks no later than `y` as a suggestion for `searched`. */
  ghost predicate RanksBefore(searched: string, x: string, y: string) {
    Distance(searched, x) < Distance(searched, y)
    || (Distance(searched, x) == Distance(searched, y) && LexLeq(x, y))
  }

  lemma RankTotal(searched: string, x: string, y: string)
    ensures RanksBefore(searched, x, y) || RanksBefore(searched, y, x)
    ensures RanksBefore(searched, x, y) && RanksBefore(searched, y, x) ==> x == y
  {
    LexTotal(x, y);
  }

  ghost predicate Ranked(searched: string, ids: seq<string>) {
    forall i, j | 0 <= i < j < |ids| :: RanksBefore(searched, ids[i], ids[j])
  }

  // ---- What the search promises ----

  /** Both the searched id and the candidate respect the length cap and are at most three edits apart. */
  ghost predicate Plausible(searched: string, id: string) {
    && |searched| <= MAX_SUGGESTION_INPUT_CHARS
    && |id| <= MAX_SUGGESTION_INPUT_CHARS
    && Distance(searched, id) <= MAX_SUGGESTION_DISTANCE
  }

  /** How often a plausible id occurs among `existing`; duplicates are suggested as often as they occur. */
  ghost function PlausibleIn(searched: string, existing: seq<string>): multiset<string> {
    if existing == [] then multiset{}
    else
      var last := existing[|existing| - 1];
      PlausibleIn(searched, existing[..|existing| - 1]) +
      (if Plausible(searched, last) then multiset{last} else multiset{})
  }

  /** `hits` are ranked, drawn from `all`, and no excluded element ranks strictly before an included one. */
  ghost predicate IsTopSlice(searched: string, hits: seq<string>, all: multiset<string>) {
    && Ranked(searched, hits) && multiset(hits) <= all
    && forall x, y | x in all - multiset(hits) && y in hits :: RanksBefore(searched, y, x)
  }

  /**
   * `hits` are the first `max` plausible ids: ranked, drawn from `existing`, as many as there can
   * be, and with no excluded id ranking strictly before an included one.
   */
  ghost predicate IsTopRanked(hits: seq<string>, searched: string, existing: seq<string>, max: nat) {
    var all := PlausibleIn(searched, existing);
    IsTopSlice(searched, hits, all) && |hits| == Min(max, |all|)
  }

  lemma {:induction false} PlausibleCounts(searched: string, existing: seq<string>, id: string)
    ensures PlausibleIn(searched, existing)[id] ==
            if Plausible(searched, id) then multiset(existing)[id] else 0
  {
    if existing != [] {
      var last := existing[|existing| - 1];
      PlausibleCounts(searched, existing[..|existing| - 1], id);
      assert existing == existing[..|existing| - 1] + [last];
    }
  }

  lemma SamePlausible(searched: string, existing: seq<string>, existing': seq<string>)
    requires multiset(existing) == multiset(existing')
    ensures PlausibleIn(searched, existing) == PlausibleIn(searched, existing')
  {
    forall id
      ensures PlausibleIn(searched, existing)[id] == PlausibleIn(searched, existing')[id]
    {
      PlausibleCounts(searched, existing, id);
      PlausibleCounts(searched, existing', id);
    }
  }

  /** A ranked top slice of a multiset starts with an element that ranks before all the others. */
  lemma HeadRanksFirst(searched: string, hits: seq<string>, all: multiset<string>, x: string)
    requires IsTopSlice(searched, hits, all) && hits != [] && x in all
    ensures RanksBefore(searched, hits[0], x)
  {
    RankTotal(searched, x, x);
    if x in multiset(hits) {
      assert x in hits;
      var i :| 0 <= i < |hits| && hits[i] == x;
    } else {
      assert x in all - multiset(hits);
    }
  }

  lemma DropHead(searched: string, hits: seq<string>, all: multiset<string>)
    requires IsTopSlice(searched, hits, all) && hits != []
    ensures IsTopSlice(searched, hits[1..], all - multiset{hits[0]})
  {
    assert hits == [hits[0]] + hits[1..];
    assert multiset(hits) == multiset{hits[0]} + multiset(hits[1..]);
    assert all - multiset{hits[0]} - multiset(hits[1..]) == all - multiset(hits);
  }

  lemma SameHead(searched: string, hits: seq<string>, hits': seq<string>, all: multiset<string>)
    requires IsTopSlice(searched, hits, all) && IsTopSlice(searched, hits', all) && hits != [] && hits' != []
    ensures hits[0] == hits'[0]
  {
    assert hits[0] in multiset(hits) && hits'[0] in multiset(hits');
    HeadRanksFirst(searched, hits, all, hits'[0]);
    HeadRanksFirst(searched, hits', all, hits[0]);
    RankTotal(searched, hits[0], hits'[0]);
  }

  /** Ranked top slices of one multiset that have the same length are equal. */
  lemma {:induction false} TopSliceUnique(searched: string, hits: seq<string>, hits': seq<string>,
                                          all: multiset<string>)
    requires IsTopSlice(searched, hits, all) && IsTopSlice(searched, hits', all)
    requires |hits| == |hits'|
    ensures hits == hits'
    decreases |hits|
  {
    if hits != [] {
      SameHead(searched, hits, hits', all);
      DropHead(searched, hits, all);
      DropHead(searched, hits', all);
      TopSliceUnique(searched, hits[1..], hits'[1..], all - multiset{hits[0]});
      assert hits == [hits[0]] + hits[1..] && hits' == [hits'[0]] + hits'[1..];
    }
  }

  /** The promise has one answer, and shuffling the candidate list does not change it. */
  lemma TopRankedUnique(hits: seq<string>, hits': seq<string>, searched: string,
                        existing: seq<string>, existing': seq<string>, max: nat)
    requires multiset(existing) == multiset(existing')
    requires IsTopRanked(hits, searched, existing, max)
    requires IsTopRanked(hits', searched, existing', max)
    ensures hits == hits'
  {
    SamePlausible(searched, existing, existing');
    TopSliceUnique(searched, hits, hits', PlausibleIn(searched, existing));
  }

  /**
   * What a suggestion is, in numbers: a known id, at most 256 characters long as the searched id
   * is, and at most three edits away. A list that is not full holds every such id, and in a full
   * one every id left out is further away than each one in it, or as far and later in the order.
   */
  lemma SuggestedExactly(hits: seq<string>, searched: string, existing: seq<string>, max: nat, id: string)
    requires IsTopRanked(hits, searched, existing, max)
    ensures id in hits ==>
              id in existing && |searched| <= 256 && |id| <= 256 && Distance(searched, id) <= 3
    ensures id in existing && |searched| <= 256 && |id| <= 256 && Distance(searched, id) <= 3 && id !in hits ==>
              && |hits| == max
              && forall hit | hit in hits ::
                   || Distance(searched, hit) < Distance(searched, id)
                   || (Distance(searched, hit) == Distance(searched, id) && LexLeq(hit, id))
  {
    var all := PlausibleIn(searched, existing);
    PlausibleCounts(searched, existing, id);
    if id in hits {
      assert id in multiset(hits);
    } else if id in all {
      assert id in all - multiset(hits);
      assert |all| == |multiset(hits)| + |all - multiset(hits)|;
      forall hit | hit in hits
        ensures RanksBefore(searched, hit, id)
      {
      }
    }
  }

  // ---- The search ----

  type Candidate = (nat, string)

  predicate CandidateLeq(x: Candidate, y: Candidate) {
    x.0 < y.0 || (x.0 == y.0 && LexLeq(x.1, y.1))
  }

  function Ids(candidates: seq<Candidate>): (ids: seq<string>)
    ensures |ids| == |candidates|
    ensures forall i | 0 <= i < |ids| :: ids[i] == candidates[i].1
  {
    seq(|candidates|, i requires 0 <= i < |candidates| => candidates[i].1)
  }

  ghost predicate Measured(searched: string, candidates: seq<Candidate>) {
    forall c | c in candidates :: c.0 == Distance(searched, c.1)
  }

  lemma CandidateOrder()
    ensures TotalPreorder(CandidateLeq)
  {
    forall x: Candidate, y: Candidate
      ensures CandidateLeq(x, y) || CandidateLeq(y, x)
    {
      LexTotal(x.1, y.1);
    }
    forall x: Candidate, y: Candidate, z: Candidate | CandidateLeq(x, y) && CandidateLeq(y, z)
      ensures CandidateLeq(x, z)
    {
      if LexLeq(x.1, y.1) && LexLeq(y.1, z.1) {
        LexTransitive(x.1, y.1, z.1);
      }
    }
  }

  lemma IdsCons(c: Candidate, rest: seq<Candidate>)
    ensures multiset(Ids([c] + rest)) == multiset{c.1} + multiset(Ids(rest))
    ensures multiset([c] + rest) == multiset{c} + multiset(rest)
  {
    assert Ids([c] + rest) == [c.1] + Ids(rest);
  }

  lemma {:induction false} IdCounts(searched: string, candidates: seq<Candidate>, id: string)
    requires Measured(searched, candidates)
    ensures multiset(Ids(candidates))[id] == multiset(candidates)[(Distance(searched, id), id)]
  {
    if candidates != [] {
      IdCounts(searched, candidates[1..], id);
      IdsCons(candidates[0], candidates[1..]);
      assert candidates == [candidates[0]] + candidates[1..];
      assert candidates[0].0 == Distance(searched, candidates[0].1);
    }
  }

  /** Sorting measured candidates keeps their ids and puts them in rank order. */
  lemma SortedIsRanked(searched: string, sorted: seq<Candidate>, candidates: seq<Candidate>)
    requires Measured(searched, candidates) && multiset(sorted) == multiset(candidates)
    requires SortedBy(CandidateLeq, sorted)
    ensures Ranked(searched, Ids(sorted)) && multiset(Ids(sorted)) == multiset(Ids(candidates))
  {
    forall c | c in sorted
      ensures c in candidates
    {
      assert c in multiset(sorted);
    }
    forall id
      ensures multiset(Ids(sorted))[id] == multiset(Ids(candidates))[id]
    {
      IdCounts(searched, sorted, id);
      IdCounts(searched, candidates, id);
    }
  }

  lemma PrefixMultiset(ids: seq<string>, k: nat)
    requires k <= |ids|
    ensures multiset(ids[..k]) <= multiset(ids)
    ensures multiset(ids) - multiset(ids[..k]) == multiset(ids[k..])
  {
    assert ids == ids[..k] + ids[k..];
  }

  /** The first elements of a ranked sequence are a top slice of it. */
  lemma PrefixIsTopSlice(ids: seq<string>, searched: string, k: nat)
    requires Ranked(searched, ids) && k <= |ids|
    ensures IsTopSlice(searched, ids[..k], multiset(ids))
  {
    PrefixMultiset(ids, k);
    forall x, y | x in multiset(ids[k..]) && y in ids[..k]
      ensures RanksBefore(searched, y, x)
    {
      var i :| 0 <= i < k && ids[i] == y;
      assert x in ids[k..];
      var j :| k <= j < |ids| && ids[j] == x;
    }
  }

  /** Taking the first `max` of everything plausible, in rank order, is the promised answer. */
  lemma PrefixIsTopRanked(ids: seq<string>, searched: string, existing: seq<string>, max: nat)
    requires Ranked(searched, ids) && multiset(ids) == PlausibleIn(searched, existing)
    ensures IsTopRanked(ids[..Min(max, |ids|)], searched, existing, max)
  {
    PrefixIsTopSlice(ids, searched, Min(max, |ids|));
  }

  lemma PlausibleStep(searched: string, existing: seq<string>, n: nat)
    requires n < |existing|
    ensures PlausibleIn(searched, existing[..n + 1]) == PlausibleIn(searched, existing[..n]) +
            (if Plausible(searched, existing[n]) then multiset{existing[n]} else multiset{})
  {
    assert existing[..n + 1][..n] == existing[..n];
  }

  lemma IdsAppend(candidates: seq<Candidate>, c: Candidate)
    ensures multiset(Ids(candidates + [c])) == multiset(Ids(candidates)) + multiset{c.1}
  {
    assert Ids(candidates + [c]) == Ids(candidates) + [c.1];
  }

  /** The candidates within reach, measured, in list order. */
  method Measure(searched: string, existing: seq<string>) returns (candidates: seq<Candidate>)
    requires |searched| <= MAX_SUGGESTION_INPUT_CHARS
    ensures Measured(searched, candidates)
    ensures multiset(Ids(candidates)) == PlausibleIn(searched, existing)
  {
    candidates := [];
    for n := 0 to |existing|
      invariant Measured(searched, candidates)
      invariant multiset(Ids(candidates)) == PlausibleIn(searched, existing[..n])
    {
      var id := existing[n];
      PlausibleStep(searched, existing, n);
      if |id| <= MAX_SUGGESTION_INPUT_CHARS {
        var dist := LevenshteinDistance(searched, id);
        if dist <= MAX_SUGGESTION_DISTANCE {
          IdsAppend(candidates, (dist, id));
          candidates := candidates + [(dist, id)];
        }
      }
    }
    assert existing[..|existing|] == existing;
  }

  method FindSimilarIds(searched: string, existing: seq<string>, max: nat) returns (hits: seq<string>)
    ensures IsTopRanked(hits, searched, existing, max)
  {
    if |searched| > MAX_SUGGESTION_INPUT_CHARS {
      NothingPlausible(searched, existing);
      return [];
    }
    var candidates := Measure(searched, existing);
    CandidateOrder();
    var sorted := SortBy(CandidateLeq, candidates);
    SortedIsRanked(searched, sorted, candidates);
    PrefixIsTopRanked(Ids(sorted), searched, existing, max);
    hits := Ids(sorted)[..Min(max, |sorted|)];
  }

  lemma {:induction false} NothingPlausible(searched: string, existing: seq<string>)
    requires |searched| > MAX_SUGGESTION_INPUT_CHARS
    ensures PlausibleIn(searched, existing) == multiset{}
  {
    if existing != [] {
      NothingPlausible(searched, existing[..|existing| - 1]);
    }
  }
}
