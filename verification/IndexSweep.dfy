/** The one-pass sweep (scripts/quality_harness.py) against the whole ranking engine
    (packages/context/ranking.py), over the symbols of an index. */
module IndexSweep {
  import opened Names
  import opened FlipWeight
  import opened EngineRanking
  import opened PromotionGuard
  import opened IndexSymbols
  import opened Scoring

  /** What the engine returns for a pool with one changed module. */
  function EngineRank(pool: seq<Candidate>, changed: Name, weight: int): seq<Candidate> {
    Protected(EngineList(AllBumped(pool, changed, weight)), weight)
  }

  /** The first relevant candidate of the engine's answer belongs to the changed module. */
  ghost predicate FlipsToModule(pool: seq<Candidate>, changed: Name, weight: int) {
    var r := Relevant(EngineRank(pool, changed, weight));
    r != [] && r[0].home == changed
  }

  /** For every pool, duplicates included: if the merged list opens with a relevant candidate, the guard does not
      matter, and the changed module comes first exactly when the bonus reaches the closed form of one of its
      relevant candidates, kept or merged away. */
  lemma EngineFlipsIff(pool: seq<Candidate>, changed: Name, weight: int)
    requires Relevant(EngineList(pool)) != [] && changed != Relevant(EngineList(pool))[0].home && weight >= 1
    requires var merged := EngineList(AllBumped(pool, changed, weight)); merged != [] && merged[0].relevant
    ensures FlipsToModule(pool, changed, weight)
            <==> CanOvertake(pool, Relevant(EngineList(pool))[0], changed, weight)
  {
    MergedFlipsIff(pool, changed, weight);
    GuardKeepsFirst(EngineList(AllBumped(pool, changed, weight)), weight);
  }

  // The candidates of an index.

  ghost predicate DistinctNames(pool: seq<Candidate>) {
    forall i, j :: 0 <= i < j < |pool| ==> pool[i].qualifiedName != pool[j].qualifiedName
  }

  /** One candidate a name, none promoted yet, and a match of the module path is a tie to the query. */
  ghost predicate FromIndex(pool: seq<Candidate>) {
    && DistinctNames(pool)
    && forall i :: 0 <= i < |pool| ==> !pool[i].promoted && (pool[i].moduleMatch ==> pool[i].relevant)
  }

  /** Whatever the index holds and whatever the query finds in it, its pool has these properties. */
  lemma IndexPools(all: seq<Symbol>, evidence: Symbol -> Evidence)
    ensures FromIndex(Pool(Symbols(all), evidence))
  {
    var symbols := Symbols(all);
    forall i, j | 0 <= i < j < |symbols| ensures symbols[i].qualifiedName != symbols[j].qualifiedName {
      NamesAreDistinct(all, i, j);
    }
  }

  lemma {:induction false} OnceEach(s: seq<Candidate>, c: Candidate)
    requires DistinctNames(s)
    ensures multiset(s)[c] <= 1
  {
    if s != [] {
      var front, last := s[..|s| - 1], s[|s| - 1];
      assert s == front + [last];
      OnceEach(front, c);
      assert last !in front;
    }
  }

  lemma TwiceCounted(s: seq<Candidate>, i: nat, j: nat)
    requires i < j < |s| && s[i] == s[j]
    ensures multiset(s)[s[i]] >= 2
  {
    assert s == s[..j] + s[j..];
    assert s[..j][i] == s[i] && s[j..][0] == s[i];
    assert s[i] in multiset(s[..j]) && s[i] in multiset(s[j..]);
  }

  lemma NamesakeIsSame(pool: seq<Candidate>, a: Candidate, b: Candidate)
    requires DistinctNames(pool) && a in pool && b in pool && a.qualifiedName == b.qualifiedName
    ensures a == b
  {
    var i :| 0 <= i < |pool| && pool[i] == a;
    var j :| 0 <= j < |pool| && pool[j] == b;
  }

  lemma RankStaysDistinct(pool: seq<Candidate>)
    requires DistinctNames(pool)
    ensures DistinctNames(Rank(pool))
  {
    var r := Rank(pool);
    forall i, j | 0 <= i < j < |r| ensures r[i].qualifiedName != r[j].qualifiedName {
      if r[i].qualifiedName == r[j].qualifiedName {
        SameMembers(r, pool, r[i]);
        SameMembers(r, pool, r[j]);
        NamesakeIsSame(pool, r[i], r[j]);
        TwiceCounted(r, i, j);
        OnceEach(pool, r[i]);
      }
    }
  }

  lemma {:induction false} SurvivingStaysDistinct(s: seq<Candidate>)
    requires DistinctNames(s)
    ensures DistinctNames(Surviving(s))
  {
    if s != [] {
      var front := s[..|s| - 1];
      SurvivingStaysDistinct(front);
      var r := Surviving(front);
      forall i | 0 <= i < |r| ensures r[i].qualifiedName != s[|s| - 1].qualifiedName { assert r[i] in front; }
    }
  }

  lemma MergedAlone(s: seq<Candidate>, c: Candidate)
    requires DistinctNames(s) && c in s
    ensures Merged(s, c) == c
  {
    forall d | d in s && d.qualifiedName == c.qualifiedName ensures d == c { NamesakeIsSame(s, c, d); }
  }

  lemma {:induction false} NothingToMerge(s: seq<Candidate>, k: nat)
    requires DistinctNames(s) && k <= |s|
    ensures Heads(s, k) == s[..k]
  {
    if k > 0 {
      NothingToMerge(s, k - 1);
      MergedAlone(s, s[k - 1]);
      assert s[..k] == s[..k - 1] + [s[k - 1]];
    }
  }

  /** With one candidate a name there is nothing to merge, and the order is strict. */
  lemma DistinctList(pool: seq<Candidate>)
    requires DistinctNames(pool)
    ensures EngineList(pool) == Surviving(Rank(pool)) && DistinctNames(EngineList(pool)) && Ranked(EngineList(pool))
  {
    var s := Surviving(Rank(pool));
    RankStaysDistinct(pool);
    SurvivingStaysDistinct(Rank(pool));
    NothingToMerge(s, |s|);
    assert s[..|s|] == s;
    SurvivingStaysRanked(Rank(pool));
  }

  lemma ListMember(pool: seq<Candidate>, c: Candidate)
    requires DistinctNames(pool)
    ensures c in EngineList(pool) <==> c in pool && c.score >= MINIMUM_SCORE
  {
    DistinctList(pool);
    SurvivorsAre(pool, c);
  }

  lemma StrictlyBefore(s: seq<Candidate>, i: nat, j: nat)
    requires Ranked(s) && DistinctNames(s) && i < j < |s|
    ensures Outranks(s[i], s[j])
  {
    BeforeIsStrict(s[i].qualifiedName, s[j].qualifiedName);
  }

  lemma BumpedStaysDistinct(pool: seq<Candidate>, changed: Name, weight: int)
    requires DistinctNames(pool)
    ensures DistinctNames(AllBumped(pool, changed, weight))
  {
  }

  lemma OwnTraits(pool: seq<Candidate>, c: Candidate)
    requires FromIndex(pool) && c in EngineList(pool)
    ensures !c.promoted && (c.moduleMatch ==> c.relevant) && c.score >= MINIMUM_SCORE
  {
    ListMember(pool, c);
    var i :| 0 <= i < |pool| && pool[i] == c;
  }

  // The list after the bonus, before the guard.

  function After(pool: seq<Candidate>, changed: Name, weight: int): seq<Candidate> {
    EngineList(AllBumped(pool, changed, weight))
  }

  lemma AfterIsStrict(pool: seq<Candidate>, changed: Name, weight: int)
    requires DistinctNames(pool)
    ensures Ranked(After(pool, changed, weight)) && DistinctNames(After(pool, changed, weight))
  {
    BumpedStaysDistinct(pool, changed, weight);
    DistinctList(AllBumped(pool, changed, weight));
  }

  lemma AfterHas(pool: seq<Candidate>, changed: Name, weight: int, c: Candidate) returns (p: nat)
    requires DistinctNames(pool) && weight >= 1 && c in EngineList(pool)
    ensures p < |After(pool, changed, weight)| && After(pool, changed, weight)[p] == Bumped(c, changed, weight)
  {
    ListMember(pool, c);
    BumpedMember(pool, changed, weight, c);
    BumpedStaysDistinct(pool, changed, weight);
    ListMember(AllBumped(pool, changed, weight), Bumped(c, changed, weight));
    p :| p < |After(pool, changed, weight)| && After(pool, changed, weight)[p] == Bumped(c, changed, weight);
  }

  lemma AfterFrom(pool: seq<Candidate>, changed: Name, weight: int, p: nat) returns (k: nat)
    requires DistinctNames(pool) && weight >= 1 && p < |After(pool, changed, weight)|
    ensures k < |EngineList(pool)| && After(pool, changed, weight)[p] == Bumped(EngineList(pool)[k], changed, weight)
  {
    var b := After(pool, changed, weight)[p];
    BumpedStaysDistinct(pool, changed, weight);
    ListMember(AllBumped(pool, changed, weight), b);
    var c := BumpedOrigin(pool, changed, weight, b);
    ListMember(pool, c);
    k :| k < |EngineList(pool)| && EngineList(pool)[k] == c;
  }

  lemma ComesFirst(s: seq<Candidate>, q: nat, p: nat)
    requires Ranked(s) && DistinctNames(s) && q < |s| && p < |s| && Outranks(s[q], s[p])
    ensures q < p
  {
    NeverLevel(s[q], s[p]);
    if q > p { StrictlyBefore(s, p, q); }
  }

  lemma BonusIsTakenOff(d: Candidate, c: Candidate, changed: Name, weight: int)
    requires !d.promoted && d.score >= MINIMUM_SCORE && weight >= 1 && Outranks(d, c)
    ensures Outranks(Bumped(d, changed, weight), c) && OutranksClean(Bumped(d, changed, weight), c, weight)
  {
  }

  /** A candidate that outranks one without the bonus still does, and in `After` comes first. */
  lemma StillBefore(pool: seq<Candidate>, changed: Name, weight: int, i: nat, k: nat, p: nat) returns (q: nat)
    requires FromIndex(pool) && weight >= 1 && i < k < |EngineList(pool)|
    requires p < |After(pool, changed, weight)| && After(pool, changed, weight)[p] == EngineList(pool)[k]
    ensures q < p && After(pool, changed, weight)[q] == Bumped(EngineList(pool)[i], changed, weight)
    ensures OutranksClean(After(pool, changed, weight)[q], After(pool, changed, weight)[p], weight)
  {
    hide EngineList, After, Bumped, OutranksClean, Outranks, Ranked, DistinctNames;
    var before, after := EngineList(pool), After(pool, changed, weight);
    DistinctList(pool);
    AfterIsStrict(pool, changed, weight);
    StrictlyBefore(before, i, k);
    OwnTraits(pool, before[i]);
    q := AfterHas(pool, changed, weight, before[i]);
    BonusIsTakenOff(before[i], before[k], changed, weight);
    ComesFirst(after, q, p);
  }

  /** If the list opens with an unrelated candidate, it opened with it before the bonus. */
  lemma HeadStays(pool: seq<Candidate>, changed: Name, weight: int)
    requires FromIndex(pool) && weight >= 1 && After(pool, changed, weight) != []
    requires !After(pool, changed, weight)[0].relevant
    ensures EngineList(pool) != [] && EngineList(pool)[0] == After(pool, changed, weight)[0]
  {
    var k := AfterFrom(pool, changed, weight, 0);
    if k > 0 { var q := StillBefore(pool, changed, weight, 0, k, 0); }
  }

  lemma CountsBoth(ranked: seq<Candidate>, at: nat, weight: int, i: nat, j: nat)
    requires at < |ranked| && i != j && Counts(ranked, at, i, weight) && Counts(ranked, at, j, weight)
    ensures !HeldSlot(ranked, at, weight)
  {
    if i < j {
      CountsTwo(ranked, at, |ranked|, weight, i, j);
    } else {
      CountsTwo(ranked, at, |ranked|, weight, j, i);
    }
  }

  /** A candidate from the third place on did not hold one of the first two. */
  lemma LaterHeldNoSlot(pool: seq<Candidate>, changed: Name, weight: int, k: nat, at: nat)
    requires FromIndex(pool) && weight >= 1 && 2 <= k < |EngineList(pool)|
    requires at < |After(pool, changed, weight)| && After(pool, changed, weight)[at] == EngineList(pool)[k]
    ensures !HeldSlot(After(pool, changed, weight), at, weight)
  {
    DistinctList(pool);
    var q0 := StillBefore(pool, changed, weight, 0, k, at);
    var q1 := StillBefore(pool, changed, weight, 1, k, at);
    CountsBoth(After(pool, changed, weight), at, weight, q0, q1);
  }

  /** A candidate without the bonus that is eligible was the second before it, if the first is unrelated. */
  lemma EligibleIsSecond(pool: seq<Candidate>, changed: Name, weight: int, at: nat)
    requires FromIndex(pool) && weight >= 1 && After(pool, changed, weight) != []
    requires !After(pool, changed, weight)[0].relevant && Eligible(After(pool, changed, weight), at, weight)
    ensures |EngineList(pool)| >= 2 && After(pool, changed, weight)[at] == EngineList(pool)[1]
  {
    hide EngineList, After, Outranking;
    HeadStays(pool, changed, weight);
    var k := AfterFrom(pool, changed, weight, at);
    OwnTraits(pool, EngineList(pool)[k]);
    if k >= 2 { LaterHeldNoSlot(pool, changed, weight, k, at); }
  }

  /** The second candidate before the bonus counts as having held its place. */
  lemma SecondHeldSlot(pool: seq<Candidate>, changed: Name, weight: int, at: nat)
    requires FromIndex(pool) && weight >= 1 && |EngineList(pool)| >= 2
    requires at < |After(pool, changed, weight)| && After(pool, changed, weight)[at] == EngineList(pool)[1]
    ensures HeldSlot(After(pool, changed, weight), at, weight)
  {
    var before, after := EngineList(pool), After(pool, changed, weight);
    DistinctList(pool);
    AfterIsStrict(pool, changed, weight);
    var only := StillBefore(pool, changed, weight, 0, 1, at);
    forall i: nat | i < |after| && Counts(after, at, i, weight) ensures i == only {
      var k := AfterFrom(pool, changed, weight, i);
      OwnTraits(pool, before[k]);
      if k > 1 { StrictlyBefore(before, 1, k); }
    }
    CountsOnly(after, at, |after|, weight, only);
  }

  // When the guard holds the first relevant candidate back.

  /** The list opens with an unrelated candidate, and the next one's module path matches the query. */
  predicate Guarded(ranked: seq<Candidate>) {
    |ranked| >= 2 && !ranked[0].relevant && ranked[1].moduleMatch
  }

  /** The candidate another module has to pass. */
  function Bar(ranked: seq<Candidate>): Candidate
    requires Relevant(ranked) != []
  {
    if Guarded(ranked) then ranked[0] else Relevant(ranked)[0]
  }

  lemma GuardedLeader(pool: seq<Candidate>)
    requires FromIndex(pool) && Guarded(EngineList(pool))
    ensures Relevant(EngineList(pool)) != [] && Relevant(EngineList(pool))[0] == EngineList(pool)[1]
  {
    OwnTraits(pool, EngineList(pool)[1]);
    RelevantFirstAt(EngineList(pool), 1);
  }

  lemma FirstTwoDiffer(s: seq<Candidate>)
    requires DistinctNames(s) && |s| >= 2
    ensures s[0] != s[1]
  {
  }

  lemma OnlyTheFirst(s: seq<Candidate>, k: nat)
    requires Ranked(s) && DistinctNames(s) && |s| >= 2 && k < |s| && s[k] != s[0]
    ensures !Outranks(s[k], s[1])
  {
    if Outranks(s[k], s[1]) { ComesFirst(s, k, 1); }
  }

  /** Nothing without the bonus comes between an unrelated first candidate and the leader. */
  lemma NothingBetween(pool: seq<Candidate>, changed: Name, weight: int, k: nat)
    requires FromIndex(pool) && weight >= 1 && |EngineList(pool)| >= 2 && k < |EngineList(pool)|
    requires |After(pool, changed, weight)| >= 2 && After(pool, changed, weight)[0] == EngineList(pool)[0]
    requires After(pool, changed, weight)[1] == EngineList(pool)[k]
    ensures !Outranks(After(pool, changed, weight)[1], EngineList(pool)[1])
  {
    hide EngineList, After, Outranks, Ranked, DistinctNames;
    DistinctList(pool);
    AfterIsStrict(pool, changed, weight);
    FirstTwoDiffer(After(pool, changed, weight));
    OnlyTheFirst(EngineList(pool), k);
  }

  lemma SecondStays(pool: seq<Candidate>, changed: Name, weight: int, p: nat)
    requires FromIndex(pool) && weight >= 1 && Guarded(EngineList(pool))
    requires p < |After(pool, changed, weight)| && After(pool, changed, weight)[p] == EngineList(pool)[1]
    requires !After(pool, changed, weight)[0].relevant && p >= 1 && !After(pool, changed, weight)[1].promoted
    ensures p == 1 && EngineRank(pool, changed, weight) == After(pool, changed, weight)
  {
    hide EngineList, Outranks, Ranked, DistinctNames;
    if p > 1 {
      HeadStays(pool, changed, weight);
      AfterIsStrict(pool, changed, weight);
      StrictlyBefore(After(pool, changed, weight), 1, p);
      var k := AfterFrom(pool, changed, weight, 1);
      NothingBetween(pool, changed, weight, k);
    }
  }

  lemma SecondIsRestored(pool: seq<Candidate>, changed: Name, weight: int, p: nat)
    requires FromIndex(pool) && weight >= 1 && Guarded(EngineList(pool))
    requires 2 <= p < |After(pool, changed, weight)| && After(pool, changed, weight)[p] == EngineList(pool)[1]
    requires !After(pool, changed, weight)[0].relevant && After(pool, changed, weight)[1].promoted
    ensures var r := EngineRank(pool, changed, weight);
            |r| >= 2 && r[0] == After(pool, changed, weight)[0] && r[1] == EngineList(pool)[1]
  {
    var after := After(pool, changed, weight);
    OwnTraits(pool, EngineList(pool)[1]);
    SecondHeldSlot(pool, changed, weight, p);
    assert Eligible(after, p, weight);
    var at := AnchorAt(after, ANCHOR_SLOTS, weight);
    EligibleIsSecond(pool, changed, weight, at);
    RestoredKeeps(after, at);
  }

  /** Behind an unrelated candidate that is not overtaken, the guard gives the leader its place back. */
  lemma LeaderIsHeld(pool: seq<Candidate>, changed: Name, weight: int)
    requires FromIndex(pool) && weight >= 1 && Guarded(EngineList(pool)) && changed != EngineList(pool)[1].home
    requires After(pool, changed, weight) != [] && !After(pool, changed, weight)[0].relevant
    ensures var r := Relevant(EngineRank(pool, changed, weight)); r != [] && r[0] == EngineList(pool)[1]
  {
    hide EngineList, After, EngineRank;
    var leader, after := EngineList(pool)[1], After(pool, changed, weight);
    OwnTraits(pool, leader);
    var p := AfterHas(pool, changed, weight, leader);
    if after[1].promoted {
      SecondIsRestored(pool, changed, weight, p);
    } else {
      SecondStays(pool, changed, weight, p);
    }
    RelevantFirstAt(EngineRank(pool, changed, weight), 1);
  }

  /** Otherwise it does nothing behind an unrelated candidate. */
  lemma GuardRests(pool: seq<Candidate>, changed: Name, weight: int)
    requires FromIndex(pool) && weight >= 1 && !Guarded(EngineList(pool))
    requires After(pool, changed, weight) != [] && !After(pool, changed, weight)[0].relevant
    ensures EngineRank(pool, changed, weight) == After(pool, changed, weight)
  {
    var after := After(pool, changed, weight);
    if Acts(after, weight) {
      HeadStays(pool, changed, weight);
      EligibleIsSecond(pool, changed, weight, AnchorAt(after, ANCHOR_SLOTS, weight));
    }
  }

  /** A relevant survivor of the changed module that passes the bar under the bonus. */
  predicate Passes(pool: seq<Candidate>, leader: Candidate, bar: Candidate, changed: Name, weight: int, c: Candidate) {
    Competes(pool, leader, c) && c.home == changed && weight >= ChangedFileFlipWeight(bar, c)
  }

  ghost predicate CanPass(pool: seq<Candidate>, leader: Candidate, bar: Candidate, changed: Name, weight: int) {
    exists c :: Passes(pool, leader, bar, changed, weight, c)
  }

  /** Whoever passes an unrelated first candidate opens the list. */
  lemma PasserOpens(pool: seq<Candidate>, changed: Name, weight: int, c: Candidate)
    requires FromIndex(pool) && weight >= 1 && Guarded(EngineList(pool))
    requires Passes(pool, EngineList(pool)[1], EngineList(pool)[0], changed, weight, c)
    ensures After(pool, changed, weight) != [] && After(pool, changed, weight)[0].relevant
  {
    var head, after := EngineList(pool)[0], After(pool, changed, weight);
    ListMember(pool, c);
    var p := AfterHas(pool, changed, weight, c);
    if !after[0].relevant {
      HeadStays(pool, changed, weight);
      FlipIff(head, c, weight);
      AfterIsStrict(pool, changed, weight);
      NeverLevel(head, Bumped(c, changed, weight));
    }
  }

  /** The first candidate of the list passes the bar if it is promoted. */
  lemma OpenerPasses(pool: seq<Candidate>, changed: Name, weight: int)
    requires FromIndex(pool) && weight >= 1 && Guarded(EngineList(pool)) && changed != EngineList(pool)[1].home
    requires After(pool, changed, weight) != [] && After(pool, changed, weight)[0].relevant
    requires After(pool, changed, weight)[0].home == changed
    ensures CanPass(pool, EngineList(pool)[1], EngineList(pool)[0], changed, weight)
  {
    var before, after := EngineList(pool), After(pool, changed, weight);
    var k := AfterFrom(pool, changed, weight, 0);
    var p := AfterHas(pool, changed, weight, before[0]);
    OwnTraits(pool, before[k]);
    AfterIsStrict(pool, changed, weight);
    StrictlyBefore(after, 0, p);
    FlipIff(before[0], before[k], weight);
    ListMember(pool, before[k]);
    assert Passes(pool, before[1], before[0], changed, weight, before[k]);
  }

  lemma HigherBar(head: Candidate, leader: Candidate, c: Candidate)
    requires Outranks(head, leader)
    ensures ChangedFileFlipWeight(leader, c) <= ChangedFileFlipWeight(head, c)
  {
    NeverLevel(head, leader);
    if head.score == leader.score && TieBefore(c, head) && !TieBefore(c, leader) { TieWeak(c, head, leader); }
  }

  lemma GuardedFlipsIff(pool: seq<Candidate>, changed: Name, weight: int)
    requires FromIndex(pool) && weight >= 1 && Guarded(EngineList(pool)) && changed != EngineList(pool)[1].home
    ensures FlipsToModule(pool, changed, weight)
            <==> CanPass(pool, EngineList(pool)[1], EngineList(pool)[0], changed, weight)
  {
    var before, after := EngineList(pool), After(pool, changed, weight);
    GuardedLeader(pool);
    MergedFlipsIff(pool, changed, weight);
    if after[0].relevant {
      RelevantFirstAt(after, 0);
      GuardKeepsFirst(after, weight);
      if after[0].home == changed { OpenerPasses(pool, changed, weight); }
      if CanPass(pool, before[1], before[0], changed, weight) {
        var c :| Passes(pool, before[1], before[0], changed, weight, c);
        DistinctList(pool);
        StrictlyBefore(before, 0, 1);
        HigherBar(before[0], before[1], c);
      }
    } else {
      LeaderIsHeld(pool, changed, weight);
      if CanPass(pool, before[1], before[0], changed, weight) {
        var c :| Passes(pool, before[1], before[0], changed, weight, c);
        PasserOpens(pool, changed, weight, c);
      }
    }
  }

  lemma FreeFlipsIff(pool: seq<Candidate>, changed: Name, weight: int)
    requires FromIndex(pool) && weight >= 1 && !Guarded(EngineList(pool)) && Relevant(EngineList(pool)) != []
    requires changed != Relevant(EngineList(pool))[0].home
    ensures FlipsToModule(pool, changed, weight)
            <==> CanOvertake(pool, Relevant(EngineList(pool))[0], changed, weight)
  {
    var after := After(pool, changed, weight);
    MergedFlipsIff(pool, changed, weight);
    if after[0].relevant { GuardKeepsFirst(after, weight); } else { GuardRests(pool, changed, weight); }
  }

  lemma OvertakeIsPass(pool: seq<Candidate>, leader: Candidate, changed: Name, weight: int)
    ensures CanOvertake(pool, leader, changed, weight) <==> CanPass(pool, leader, leader, changed, weight)
  {
    if CanOvertake(pool, leader, changed, weight) {
      var c :| Competes(pool, leader, c) && c.home == changed && weight >= ChangedFileFlipWeight(leader, c);
      assert Passes(pool, leader, leader, changed, weight, c);
    }
    if CanPass(pool, leader, leader, changed, weight) {
      var c :| Passes(pool, leader, leader, changed, weight, c);
    }
  }

  /** What the whole engine makes of a bonus over an index: another module than the leader's comes first exactly
      when one of its relevant candidates passes the bar: the leader, or the unrelated candidate that opens the
      list when the guard keeps the leader next to it. */
  lemma IndexFlipsIff(pool: seq<Candidate>, changed: Name, weight: int)
    requires FromIndex(pool) && weight >= 1 && Relevant(EngineList(pool)) != []
    requires changed != Relevant(EngineList(pool))[0].home
    ensures FlipsToModule(pool, changed, weight)
            <==> CanPass(pool, Relevant(EngineList(pool))[0], Bar(EngineList(pool)), changed, weight)
  {
    if Guarded(EngineList(pool)) {
      GuardedLeader(pool);
      GuardedFlipsIff(pool, changed, weight);
    } else {
      FreeFlipsIff(pool, changed, weight);
      OvertakeIsPass(pool, Relevant(EngineList(pool))[0], changed, weight);
    }
  }

  // The least weight.

  /** Some other module comes first when it is the changed one. */
  ghost predicate EngineFlips(pool: seq<Candidate>, weight: int)
    requires Relevant(EngineList(pool)) != []
  {
    exists changed: Name :: changed != Relevant(EngineList(pool))[0].home && FlipsToModule(pool, changed, weight)
  }

  lemma CompetitorsCompete(pool: seq<Candidate>, c: Candidate)
    requires FromIndex(pool) && Relevant(EngineList(pool)) != []
    ensures c in Competitors(EngineList(pool)) <==> Competes(pool, Relevant(EngineList(pool))[0], c)
  {
    CompetitorsAre(EngineList(pool), c);
    ListMember(pool, c);
  }

  /** Every weight the engine needs, from one ranking: what the best-ranked competitor needs to pass the bar. */
  lemma EngineNeeds(pool: seq<Candidate>, weight: int)
    requires FromIndex(pool) && weight >= 1 && Relevant(EngineList(pool)) != []
    ensures var ranked := EngineList(pool);
            EngineFlips(pool, weight)
            <==> Competitors(ranked) != [] && weight >= ChangedFileFlipWeight(Bar(ranked), Competitors(ranked)[0])
  {
    var leader, bar, others := Relevant(EngineList(pool))[0], Bar(EngineList(pool)), Competitors(EngineList(pool));
    DistinctList(pool);
    CompetitorsAreRanked(EngineList(pool));
    if EngineFlips(pool, weight) {
      var changed: Name :| changed != leader.home && FlipsToModule(pool, changed, weight);
      IndexFlipsIff(pool, changed, weight);
      var c :| Passes(pool, leader, bar, changed, weight, c);
      CompetitorsCompete(pool, c);
      var i :| 0 <= i < |others| && others[i] == c;
      if i > 0 { FlipIsMonotone(bar, others[0], others[i]); }
    }
    if others != [] && weight >= ChangedFileFlipWeight(bar, others[0]) {
      CompetitorsCompete(pool, others[0]);
      IndexFlipsIff(pool, others[0].home, weight);
      assert Passes(pool, leader, bar, others[0].home, weight, others[0]);
      assert FlipsToModule(pool, others[0].home, weight);
    }
  }

  ghost predicate Predicts(pool: seq<Candidate>, best: int)
    requires Relevant(EngineList(pool)) != []
  {
    forall weight: int :: weight >= 1 ==> (EngineFlips(pool, weight) <==> weight >= best)
  }

  lemma SweepReadsTheFirst(pool: seq<Candidate>)
    requires FromIndex(pool) && Relevant(EngineList(pool)) != [] && Competitors(EngineList(pool)) != []
    ensures SweepWeight(EngineList(pool))
            == ChangedFileFlipWeight(Relevant(EngineList(pool))[0], Competitors(EngineList(pool))[0])
  {
    DistinctList(pool);
    CompetitorsAreRanked(EngineList(pool));
    LeastIsFirst(Relevant(EngineList(pool))[0], Competitors(EngineList(pool)));
  }

  /** The sweep's weight is the engine's exactly when its best competitor needs no more to pass the bar than to
      pass the leader. */
  lemma SweepPredictsTheEngineIff(all: seq<Symbol>, evidence: Symbol -> Evidence)
    requires var ranked := EngineList(Pool(Symbols(all), evidence)); Relevant(ranked) != [] && Competitors(ranked) != []
    ensures var pool := Pool(Symbols(all), evidence); var ranked := EngineList(pool);
            var best := Competitors(ranked)[0];
            Predicts(pool, SweepWeight(ranked))
            <==> (!Guarded(ranked)
                  || ChangedFileFlipWeight(ranked[0], best) == ChangedFileFlipWeight(Relevant(ranked)[0], best))
  {
    hide EngineList, EngineFlips, Pool, Symbols;
    var pool := Pool(Symbols(all), evidence);
    IndexPools(all, evidence);
    SweepReadsTheFirst(pool);
    var needed := ChangedFileFlipWeight(Bar(EngineList(pool)), Competitors(EngineList(pool))[0]);
    forall weight: int | weight >= 1 ensures EngineFlips(pool, weight) <==> weight >= needed {
      EngineNeeds(pool, weight);
    }
    if Predicts(pool, SweepWeight(EngineList(pool))) {
      assert EngineFlips(pool, needed);
      assert EngineFlips(pool, SweepWeight(EngineList(pool)));
    }
  }

  lemma HeadIsNoLower(pool: seq<Candidate>)
    requires FromIndex(pool) && Relevant(EngineList(pool)) != []
    ensures EngineList(pool) != [] && EngineList(pool)[0].score >= Relevant(EngineList(pool))[0].score
  {
    var ranked, leader := EngineList(pool), Relevant(EngineList(pool))[0];
    assert leader in Relevant(ranked);
    DistinctList(pool);
    var k :| 0 <= k < |ranked| && ranked[k] == leader;
    if k > 0 { StrictlyBefore(ranked, 0, k); }
  }

  /** A leader with more than an unrelated symbol can score opens the list, so the sweep is right about it. */
  lemma HighLeaderPredicts(all: seq<Symbol>, evidence: Symbol -> Evidence)
    requires var ranked := EngineList(Pool(Symbols(all), evidence));
             && Relevant(ranked) != [] && Competitors(ranked) != []
             && Relevant(ranked)[0].score > INTRINSIC_LIMIT
    ensures var pool := Pool(Symbols(all), evidence); Predicts(pool, SweepWeight(EngineList(pool)))
  {
    var pool := Pool(Symbols(all), evidence);
    var ranked := EngineList(pool);
    IndexPools(all, evidence);
    HeadIsNoLower(pool);
    ListMember(pool, ranked[0]);
    var i :| 0 <= i < |pool| && pool[i] == ranked[0];
    IntrinsicScoreIsSmall(evidence(Symbols(all)[i]), Symbols(all)[i].symbolType);
    SweepPredictsTheEngineIff(all, evidence);
  }
}
