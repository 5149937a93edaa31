/** The last step of a ranking with a bonus: a candidate that lost its place to promoted ones gets it back
    (packages/context/ranking.py). */
module PromotionGuard {
  import opened Names
  import opened FlipWeight

  const ANCHOR_SLOTS := 2

  /** `c` sorts before `anchor` once the bonus is taken off again, and was ranked without it. */
  predicate OutranksClean(c: Candidate, anchor: Candidate, weight: int) {
    var score := if c.promoted then c.score - weight else c.score;
    && (c.promoted ==> score >= MINIMUM_SCORE)
    && (score > anchor.score || (score == anchor.score && TieBefore(c, anchor)))
  }

  /** How many of the first `k` candidates, other than the one at `at`, sorted before it. */
  function Outranking(ranked: seq<Candidate>, at: nat, k: nat, weight: int): nat
    requires at < |ranked| && k <= |ranked|
  {
    if k == 0 then 0
    else Outranking(ranked, at, k - 1, weight)
         + (if k - 1 != at && OutranksClean(ranked[k - 1], ranked[at], weight) then 1 else 0)
  }

  /** The candidate held one of the first places before the bonus. */
  predicate HeldSlot(ranked: seq<Candidate>, at: nat, weight: int)
    requires at < |ranked|
  {
    Outranking(ranked, at, |ranked|, weight) < ANCHOR_SLOTS
  }

  predicate Eligible(ranked: seq<Candidate>, at: nat, weight: int) {
    && ANCHOR_SLOTS <= at < |ranked|
    && !ranked[at].promoted && ranked[at].moduleMatch && HeldSlot(ranked, at, weight)
  }

  /** The first eligible place from `from` on, or the length. */
  function AnchorAt(ranked: seq<Candidate>, from: nat, weight: int): (at: nat)
    requires from <= |ranked|
    ensures from <= at <= |ranked|
    ensures at < |ranked| ==> Eligible(ranked, at, weight)
    ensures forall i :: from <= i < at ==> !Eligible(ranked, i, weight)
    decreases |ranked| - from
  {
    if from == |ranked| || Eligible(ranked, from, weight) then from else AnchorAt(ranked, from + 1, weight)
  }

  /** Place `at` moves to the last of the first places. */
  function Restored(ranked: seq<Candidate>, at: nat): (r: seq<Candidate>)
    requires ANCHOR_SLOTS <= at < |ranked|
    ensures |r| == |ranked|
  {
    ranked[..ANCHOR_SLOTS - 1] + [ranked[at]] + ranked[ANCHOR_SLOTS - 1..at] + ranked[at + 1..]
  }

  /** The guard acts: a promoted candidate has the last of the first places, and some candidate is eligible. */
  predicate Acts(ranked: seq<Candidate>, weight: int) {
    && |ranked| >= ANCHOR_SLOTS && ranked[ANCHOR_SLOTS - 1].promoted
    && AnchorAt(ranked, ANCHOR_SLOTS, weight) < |ranked|
  }

  function Protected(ranked: seq<Candidate>, weight: int): seq<Candidate> {
    if Acts(ranked, weight) then Restored(ranked, AnchorAt(ranked, ANCHOR_SLOTS, weight)) else ranked
  }

  // What the guard keeps.

  lemma RestoredKeeps(ranked: seq<Candidate>, at: nat)
    requires ANCHOR_SLOTS <= at < |ranked|
    ensures multiset(Restored(ranked, at)) == multiset(ranked)
    ensures Restored(ranked, at)[0] == ranked[0] && Restored(ranked, at)[1] == ranked[at]
  {
    assert ranked == ranked[..1] + ranked[1..at] + [ranked[at]] + ranked[at + 1..];
  }

  lemma {:induction false} NothingRelevant(s: seq<Candidate>)
    requires forall i :: 0 <= i < |s| ==> !s[i].relevant
    ensures Relevant(s) == []
  {
    if s != [] { NothingRelevant(s[..|s| - 1]); }
  }

  /** The first relevant candidate is the one no earlier candidate is relevant before. */
  lemma {:induction false} RelevantFirstAt(s: seq<Candidate>, k: nat)
    requires k < |s| && s[k].relevant && forall i :: 0 <= i < k ==> !s[i].relevant
    ensures Relevant(s) != [] && Relevant(s)[0] == s[k]
  {
    var front := s[..|s| - 1];
    if k < |front| {
      RelevantFirstAt(front, k);
    } else {
      NothingRelevant(front);
    }
  }

  /** The guard only rearranges, never moves the first candidate, and so never changes which relevant
      candidate comes first when the list opens with one. */
  lemma GuardKeepsFirst(ranked: seq<Candidate>, weight: int)
    ensures multiset(Protected(ranked, weight)) == multiset(ranked)
    ensures ranked != [] ==> Protected(ranked, weight) != [] && Protected(ranked, weight)[0] == ranked[0]
    ensures ranked != [] && ranked[0].relevant ==>
              Relevant(ranked) != [] && Relevant(Protected(ranked, weight)) != []
              && Relevant(Protected(ranked, weight))[0] == Relevant(ranked)[0]
  {
    if Acts(ranked, weight) { RestoredKeeps(ranked, AnchorAt(ranked, ANCHOR_SLOTS, weight)); }
    if ranked != [] && ranked[0].relevant {
      RelevantFirstAt(ranked, 0);
      RelevantFirstAt(Protected(ranked, weight), 0);
    }
  }

  // Counting.

  predicate Counts(ranked: seq<Candidate>, at: nat, i: nat, weight: int)
    requires at < |ranked|
  {
    i < |ranked| && i != at && OutranksClean(ranked[i], ranked[at], weight)
  }

  lemma {:induction false} CountsOne(ranked: seq<Candidate>, at: nat, k: nat, weight: int, i: nat)
    requires at < |ranked| && i < k <= |ranked| && Counts(ranked, at, i, weight)
    ensures Outranking(ranked, at, k, weight) >= 1
  {
    if i < k - 1 { CountsOne(ranked, at, k - 1, weight, i); }
  }

  lemma {:induction false} CountsTwo(ranked: seq<Candidate>, at: nat, k: nat, weight: int, i: nat, j: nat)
    requires at < |ranked| && i < j < k <= |ranked|
    requires Counts(ranked, at, i, weight) && Counts(ranked, at, j, weight)
    ensures Outranking(ranked, at, k, weight) >= 2
  {
    if j < k - 1 { CountsTwo(ranked, at, k - 1, weight, i, j); } else { CountsOne(ranked, at, j, weight, i); }
  }

  lemma {:induction false} CountsNone(ranked: seq<Candidate>, at: nat, k: nat, weight: int)
    requires at < |ranked| && k <= |ranked| && forall i: nat :: i < k ==> !Counts(ranked, at, i, weight)
    ensures Outranking(ranked, at, k, weight) == 0
  {
    if k > 0 {
      assert !Counts(ranked, at, k - 1, weight);
      CountsNone(ranked, at, k - 1, weight);
    }
  }

  lemma {:induction false} CountsOnly(ranked: seq<Candidate>, at: nat, k: nat, weight: int, only: nat)
    requires at < |ranked| && k <= |ranked|
    requires forall i: nat :: i < k && Counts(ranked, at, i, weight) ==> i == only
    ensures Outranking(ranked, at, k, weight) <= 1
  {
    if k > 0 {
      if Counts(ranked, at, k - 1, weight) {
        CountsNone(ranked, at, k - 1, weight);
      } else {
        CountsOnly(ranked, at, k - 1, weight, only);
      }
    }
  }

  // What the guard does, place by place.

  /** A candidate as it was before the bonus. */
  function WithoutBonus(c: Candidate, weight: int): Candidate {
    if c.promoted then c.(score := c.score - weight, promoted := false) else c
  }

  /** Without the bonus `c` would have been listed, and before `anchor`. */
  ghost predicate ListedBefore(c: Candidate, anchor: Candidate, weight: int) {
    && (c.promoted ==> WithoutBonus(c, weight).score >= 1)
    && Outranks(WithoutBonus(c, weight), anchor)
  }

  lemma OutranksCleanIff(c: Candidate, anchor: Candidate, weight: int)
    ensures OutranksClean(c, anchor, weight) <==> ListedBefore(c, anchor, weight)
  {
  }

  /** The places, other than `at`, of candidates that sort before it once the bonus is taken off again. */
  ghost function CleanlyBefore(ranked: seq<Candidate>, at: nat, weight: int): set<nat>
    requires at < |ranked|
  {
    set i: nat | i < |ranked| && i != at && ListedBefore(ranked[i], ranked[at], weight)
  }

  ghost function CountedBefore(ranked: seq<Candidate>, at: nat, k: nat, weight: int): set<nat>
    requires at < |ranked| && k <= |ranked|
  {
    set i: nat | i < k && i != at && OutranksClean(ranked[i], ranked[at], weight)
  }

  lemma OneMorePlace(a: set<nat>, b: set<nat>, n: nat, here: bool)
    requires n !in a && b == a + (if here then {n} else {})
    ensures |b| == |a| + (if here then 1 else 0)
  {
  }

  lemma {:induction false} OutrankingIs(ranked: seq<Candidate>, at: nat, k: nat, weight: int)
    requires at < |ranked| && k <= |ranked|
    ensures Outranking(ranked, at, k, weight) == |CountedBefore(ranked, at, k, weight)|
  {
    hide OutranksClean;
    if k == 0 {
      assert CountedBefore(ranked, at, 0, weight) == {};
    } else {
      OutrankingIs(ranked, at, k - 1, weight);
      var here := k - 1 != at && OutranksClean(ranked[k - 1], ranked[at], weight);
      assert CountedBefore(ranked, at, k, weight)
          == CountedBefore(ranked, at, k - 1, weight) + (if here then {k - 1} else {});
      OneMorePlace(CountedBefore(ranked, at, k - 1, weight), CountedBefore(ranked, at, k, weight), k - 1, here);
    }
  }

  /** A displaced candidate: past the first two places, without the bonus, in a module that matched, and with fewer
      than two others before it once the bonus is taken off. */
  ghost predicate Displaced(ranked: seq<Candidate>, at: nat, weight: int) {
    && 2 <= at < |ranked|
    && !ranked[at].promoted && ranked[at].moduleMatch && |CleanlyBefore(ranked, at, weight)| < 2
  }

  lemma EligibleIff(ranked: seq<Candidate>, at: nat, weight: int)
    ensures Eligible(ranked, at, weight) <==> Displaced(ranked, at, weight)
  {
    hide Outranking, OutranksClean, ListedBefore;
    if at < |ranked| {
      OutrankingIs(ranked, at, |ranked|, weight);
      forall i | 0 <= i < |ranked|
        ensures OutranksClean(ranked[i], ranked[at], weight) <==> ListedBefore(ranked[i], ranked[at], weight)
      {
        OutranksCleanIff(ranked[i], ranked[at], weight);
      }
      assert CountedBefore(ranked, at, |ranked|, weight) == CleanlyBefore(ranked, at, weight);
    }
  }

  /** The candidate at `at` takes the second place, and those in between move down by one. */
  ghost predicate MovedUp(ranked: seq<Candidate>, r: seq<Candidate>, at: nat) {
    && 2 <= at < |ranked| == |r|
    && r[0] == ranked[0] && r[1] == ranked[at]
    && (forall j :: 2 <= j <= at ==> r[j] == ranked[j - 1])
    && (forall j :: at < j < |r| ==> r[j] == ranked[j])
  }

  /** The guard moves up the first displaced candidate, if the second place is a promoted one's, and does nothing
      otherwise. */
  ghost predicate Guards(ranked: seq<Candidate>, r: seq<Candidate>, weight: int) {
    if |ranked| >= 2 && ranked[1].promoted && exists at: nat :: Displaced(ranked, at, weight) then
      exists at: nat :: && Displaced(ranked, at, weight) && MovedUp(ranked, r, at)
                        && forall i: nat :: i < at ==> !Displaced(ranked, i, weight)
    else
      r == ranked
  }

  lemma EarlyIsNotDisplaced(ranked: seq<Candidate>, i: nat, at: nat, weight: int)
    requires |ranked| >= 2 && at == AnchorAt(ranked, ANCHOR_SLOTS, weight) && (i < at || at == |ranked|)
    ensures !Displaced(ranked, i, weight)
  {
    EligibleIff(ranked, i, weight);
  }

  lemma RestoredIs(ranked: seq<Candidate>, at: nat)
    requires ANCHOR_SLOTS <= at < |ranked|
    ensures MovedUp(ranked, Restored(ranked, at), at)
  {
  }

  lemma GuardIs(ranked: seq<Candidate>, weight: int)
    ensures Guards(ranked, Protected(ranked, weight), weight)
  {
    hide Eligible, Displaced;
    forall at: nat ensures Eligible(ranked, at, weight) <==> Displaced(ranked, at, weight) {
      EligibleIff(ranked, at, weight);
    }
    if |ranked| >= 2 && ranked[1].promoted {
      var at := AnchorAt(ranked, ANCHOR_SLOTS, weight);
      forall i: nat | i < at ensures !Displaced(ranked, i, weight) { EarlyIsNotDisplaced(ranked, i, at, weight); }
      if at < |ranked| {
        RestoredIs(ranked, at);
      } else {
        forall i: nat ensures !Displaced(ranked, i, weight) { EarlyIsNotDisplaced(ranked, i, at, weight); }
      }
    }
  }

  method HeldAContentSlot(ranked: seq<Candidate>, at: nat, weight: int) returns (held: bool)
    requires at < |ranked|
    ensures held == HeldSlot(ranked, at, weight)
    ensures held <==> |CleanlyBefore(ranked, at, weight)| < 2
  {
    OutrankingIs(ranked, at, |ranked|, weight);
    assert CountedBefore(ranked, at, |ranked|, weight) == CleanlyBefore(ranked, at, weight);
    var outranking := 0;
    for k := 0 to |ranked|
      invariant outranking == Outranking(ranked, at, k, weight)
    {
      if k == at { continue; }
      var score := ranked[k].score;
      if ranked[k].promoted {
        score := score - weight;
        if score < MINIMUM_SCORE { continue; }
      }
      if score > ranked[at].score || (score == ranked[at].score && TieBefore(ranked[k], ranked[at])) {
        outranking := outranking + 1;
      }
    }
    held := outranking < ANCHOR_SLOTS;
  }

  lemma RestoredByRemoval(ranked: seq<Candidate>, at: nat)
    requires ANCHOR_SLOTS <= at < |ranked|
    ensures var rest := ranked[..at] + ranked[at + 1..];
            rest[..ANCHOR_SLOTS - 1] + [ranked[at]] + rest[ANCHOR_SLOTS - 1..] == Restored(ranked, at)
  {
    var rest := ranked[..at] + ranked[at + 1..];
    assert rest[..ANCHOR_SLOTS - 1] == ranked[..ANCHOR_SLOTS - 1];
    assert rest[ANCHOR_SLOTS - 1..] == ranked[ANCHOR_SLOTS - 1..at] + ranked[at + 1..];
  }

  lemma AnchorStep(ranked: seq<Candidate>, at: nat, weight: int)
    requires at <= |ranked|
    ensures AnchorAt(ranked, at, weight) ==
            if at == |ranked| || Eligible(ranked, at, weight) then at else AnchorAt(ranked, at + 1, weight)
  {
  }

  method ProtectPromotionAnchor(ranked: seq<Candidate>, weight: int) returns (r: seq<Candidate>)
    ensures r == Protected(ranked, weight)
    ensures Guards(ranked, r, weight)
  {
    hide Guards, AnchorAt, Restored, Outranking, OutranksClean;
    GuardIs(ranked, weight);
    if |ranked| < ANCHOR_SLOTS || !ranked[ANCHOR_SLOTS - 1].promoted { return ranked; }
    var at := ANCHOR_SLOTS;
    while at < |ranked|
      invariant ANCHOR_SLOTS <= at <= |ranked|
      invariant AnchorAt(ranked, ANCHOR_SLOTS, weight) == AnchorAt(ranked, at, weight)
    {
      AnchorStep(ranked, at, weight);
      if !ranked[at].promoted && ranked[at].moduleMatch {
        var held := HeldAContentSlot(ranked, at, weight);
        if held { break; }
      }
      at := at + 1;
    }
    AnchorStep(ranked, at, weight);
    if at == |ranked| { return ranked; }
    RestoredByRemoval(ranked, at);
    var rest := ranked[..at] + ranked[at + 1..];
    r := rest[..ANCHOR_SLOTS - 1] + [ranked[at]] + rest[ANCHOR_SLOTS - 1..];
  }
}
