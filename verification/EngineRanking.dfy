/** The list the ranking engine makes of a candidate pool (packages/context/ranking.py), and when the
    one-pass sweep over that list predicts what the engine does with a bonus. */
module EngineRanking {
  import opened Names
  import opened FlipWeight

  function Surviving(s: seq<Candidate>): (r: seq<Candidate>)
    ensures forall c :: c in r <==> c in s && c.score >= MINIMUM_SCORE
  {
    if s == [] then []
    else
      assert s == s[..|s| - 1] + [s[|s| - 1]];
      Surviving(s[..|s| - 1]) + (if s[|s| - 1].score >= MINIMUM_SCORE then [s[|s| - 1]] else [])
  }

  predicate FirstOfName(s: seq<Candidate>, i: nat)
    requires i < |s|
  {
    forall j :: 0 <= j < i ==> s[j].qualifiedName != s[i].qualifiedName
  }

  /** Some candidate of that name is tied to the query. */
  predicate Tied(s: seq<Candidate>, name: Name) {
    exists c :: c in s && c.qualifiedName == name && c.relevant
  }

  predicate ModuleMatched(s: seq<Candidate>, name: Name) {
    exists c :: c in s && c.qualifiedName == name && c.moduleMatch
  }

  predicate Promoted(s: seq<Candidate>, name: Name) {
    exists c :: c in s && c.qualifiedName == name && c.promoted
  }

  /** A kept candidate has the reasons of all candidates of its name. */
  function Merged(s: seq<Candidate>, c: Candidate): Candidate {
    var name := c.qualifiedName;
    c.(relevant := Tied(s, name), moduleMatch := ModuleMatched(s, name), promoted := Promoted(s, name))
  }

  /** The first candidate of each name among the first `k`. */
  function Heads(s: seq<Candidate>, k: nat): seq<Candidate>
    requires k <= |s|
  {
    if k == 0 then []
    else Heads(s, k - 1) + (if FirstOfName(s, k - 1) then [Merged(s, s[k - 1])] else [])
  }

  function Deduplicated(s: seq<Candidate>): seq<Candidate> {
    Heads(s, |s|)
  }

  /** Sorted, cut off at the minimum score, one candidate a name. */
  function EngineList(candidates: seq<Candidate>): seq<Candidate> {
    Deduplicated(Surviving(Rank(candidates)))
  }

  lemma {:induction false} SurvivingStaysRanked(s: seq<Candidate>)
    requires Ranked(s)
    ensures Ranked(Surviving(s))
  {
    if s != [] {
      var front, c := s[..|s| - 1], s[|s| - 1];
      SurvivingStaysRanked(front);
      var r := Surviving(front);
      forall i | 0 <= i < |r| ensures !Outranks(c, r[i]) { assert r[i] in front; }
    }
  }

  lemma SurvivorsAre(candidates: seq<Candidate>, c: Candidate)
    ensures c in Surviving(Rank(candidates)) <==> c in candidates && c.score >= MINIMUM_SCORE
    ensures Ranked(Surviving(Rank(candidates)))
  {
    SameMembers(Rank(candidates), candidates, c);
    SurvivingStaysRanked(Rank(candidates));
  }

  /** Where a kept candidate comes from. */
  ghost predicate HeadAt(s: seq<Candidate>, i: nat, h: Candidate) {
    i < |s| && FirstOfName(s, i) && h == Merged(s, s[i])
  }

  lemma {:induction false} HeadOrigin(s: seq<Candidate>, k: nat, h: Candidate) returns (i: nat)
    requires k <= |s| && h in Heads(s, k)
    ensures i < k && HeadAt(s, i, h)
  {
    if h in Heads(s, k - 1) { i := HeadOrigin(s, k - 1, h); } else { i := k - 1; }
  }

  lemma {:induction false} HeadIsKept(s: seq<Candidate>, k: nat, i: nat)
    requires i < k <= |s| && FirstOfName(s, i)
    ensures Merged(s, s[i]) in Heads(s, k)
  {
    if i < k - 1 { HeadIsKept(s, k - 1, i); }
  }

  lemma {:induction false} HeadsStayRanked(s: seq<Candidate>, k: nat)
    requires Ranked(s) && k <= |s|
    ensures Ranked(Heads(s, k))
  {
    if k > 0 {
      HeadsStayRanked(s, k - 1);
      var r := Heads(s, k - 1);
      forall j | 0 <= j < |r| ensures !Outranks(Merged(s, s[k - 1]), r[j]) {
        var i := HeadOrigin(s, k - 1, r[j]);
        assert !Outranks(s[k - 1], s[i]);
      }
    }
  }

  lemma {:induction false} FirstIndex(s: seq<Candidate>, j: nat) returns (i: nat)
    requires j < |s|
    ensures i <= j && FirstOfName(s, i) && s[i].qualifiedName == s[j].qualifiedName
  {
    i := j;
    if !FirstOfName(s, j) {
      var k :| 0 <= k < j && s[k].qualifiedName == s[j].qualifiedName;
      i := FirstIndex(s, k);
    }
  }

  /** Nothing tied to the query by its name outranks the first relevant candidate that is kept. */
  lemma FirstIsTop(s: seq<Candidate>, c: Candidate)
    requires Ranked(s) && c in s && Tied(s, c.qualifiedName)
    ensures Relevant(Deduplicated(s)) != [] && !Outranks(c, Relevant(Deduplicated(s))[0])
  {
    var j :| 0 <= j < |s| && s[j] == c;
    var i := FirstIndex(s, j);
    var head := Merged(s, s[i]);
    HeadIsKept(s, |s|, i);
    HeadsStayRanked(s, |s|);
    FirstIsBest(Deduplicated(s), head);
    var first := Relevant(Deduplicated(s))[0];
    NeverLevel(c, c);
    if Outranks(c, first) { OutranksWeak(c, first, head); }
  }

  lemma FirstOrigin(s: seq<Candidate>) returns (c: Candidate)
    requires Relevant(Deduplicated(s)) != []
    ensures c in s && Tied(s, c.qualifiedName) && Relevant(Deduplicated(s))[0] == Merged(s, c)
  {
    var first := Relevant(Deduplicated(s))[0];
    assert first in Relevant(Deduplicated(s));
    var i := HeadOrigin(s, |s|, first);
    c := s[i];
  }

  /** `h` stands for its name: it is the first candidate of that name, with the reasons of all of them. */
  ghost predicate StandsFor(s: seq<Candidate>, i: nat, h: Candidate) {
    && i < |s| && (forall j :: 0 <= j < i ==> s[j].qualifiedName != h.qualifiedName)
    && h.qualifiedName == s[i].qualifiedName && h.symbolType == s[i].symbolType && h.home == s[i].home
    && h.score == s[i].score
    && (h.relevant <==> exists c :: c in s && c.qualifiedName == h.qualifiedName && c.relevant)
    && (h.moduleMatch <==> exists c :: c in s && c.qualifiedName == h.qualifiedName && c.moduleMatch)
    && (h.promoted <==> exists c :: c in s && c.qualifiedName == h.qualifiedName && c.promoted)
  }

  /** `r` holds one candidate for each name of the first `k`, in the order in which the names come up. */
  ghost predicate OnePerName(s: seq<Candidate>, k: nat, r: seq<Candidate>, at: seq<nat>)
    requires k <= |s|
  {
    && |at| == |r|
    && (forall m :: 0 <= m < |at| ==> at[m] < k && StandsFor(s, at[m], r[m]))
    && (forall m, n :: 0 <= m < n < |at| ==> at[m] < at[n])
    && (forall i :: 0 <= i < k ==> exists m :: 0 <= m < |r| && r[m].qualifiedName == s[i].qualifiedName)
  }

  lemma MergedStands(s: seq<Candidate>, i: nat)
    requires i < |s| && FirstOfName(s, i)
    ensures StandsFor(s, i, Merged(s, s[i]))
  {
  }

  lemma NewName(s: seq<Candidate>, k: nat, r: seq<Candidate>, at: seq<nat>, h: Candidate)
    requires k < |s| && OnePerName(s, k, r, at) && StandsFor(s, k, h)
    ensures OnePerName(s, k + 1, r + [h], at + [k])
  {
    assert s[k].qualifiedName == h.qualifiedName;
    hide StandsFor;
    forall i | 0 <= i < k + 1 ensures exists m :: 0 <= m < |r| + 1 && (r + [h])[m].qualifiedName == s[i].qualifiedName {
      if i < k {
        var m :| 0 <= m < |r| && r[m].qualifiedName == s[i].qualifiedName;
        assert (r + [h])[m] == r[m];
      } else {
        assert (r + [h])[|r|] == h;
      }
    }
  }

  lemma KnownName(s: seq<Candidate>, k: nat, r: seq<Candidate>, at: seq<nat>, j: nat)
    requires j < k < |s| && OnePerName(s, k, r, at) && s[j].qualifiedName == s[k].qualifiedName
    ensures OnePerName(s, k + 1, r, at)
  {
    hide StandsFor;
  }

  lemma NoNames(s: seq<Candidate>)
    ensures OnePerName(s, 0, Heads(s, 0), [])
  {
  }

  lemma HeadsStep(s: seq<Candidate>, k: nat)
    requires k < |s|
    ensures FirstOfName(s, k) ==> Heads(s, k + 1) == Heads(s, k) + [Merged(s, s[k])]
    ensures !FirstOfName(s, k) ==> Heads(s, k + 1) == Heads(s, k)
    ensures !FirstOfName(s, k) ==> exists j :: 0 <= j < k && s[j].qualifiedName == s[k].qualifiedName
  {
  }

  lemma {:induction false} HeadsAre(s: seq<Candidate>, k: nat) returns (at: seq<nat>)
    requires k <= |s|
    ensures OnePerName(s, k, Heads(s, k), at)
  {
    hide *;
    if k == 0 {
      NoNames(s);
      at := [];
    } else {
      at := HeadsAre(s, k - 1);
      HeadsStep(s, k - 1);
      if FirstOfName(s, k - 1) {
        MergedStands(s, k - 1);
        NewName(s, k - 1, Heads(s, k - 1), at, Merged(s, s[k - 1]));
        at := at + [k - 1];
      } else {
        var j :| 0 <= j < k - 1 && s[j].qualifiedName == s[k - 1].qualifiedName;
        KnownName(s, k - 1, Heads(s, k - 1), at, j);
      }
    }
  }

  /** Merging duplicates keeps one candidate a name, in order, with the reasons of every candidate of the name. */
  lemma DeduplicatedIs(s: seq<Candidate>) returns (at: seq<nat>)
    ensures OnePerName(s, |s|, Deduplicated(s), at)
  {
    at := HeadsAre(s, |s|);
  }

  // The engine with and without the bonus.

  lemma BonusKeepsSurvivor(pool: seq<Candidate>, changed: Name, weight: int, c: Candidate)
    requires weight >= 1 && c in Surviving(Rank(pool))
    ensures Bumped(c, changed, weight) in Surviving(Rank(AllBumped(pool, changed, weight)))
  {
    SurvivorsAre(pool, c);
    BumpedMember(pool, changed, weight, c);
    SurvivorsAre(AllBumped(pool, changed, weight), Bumped(c, changed, weight));
  }

  lemma SurvivorBefore(pool: seq<Candidate>, changed: Name, weight: int, b: Candidate) returns (c: Candidate)
    requires weight >= 1 && b in Surviving(Rank(AllBumped(pool, changed, weight)))
    ensures c in Surviving(Rank(pool)) && b == Bumped(c, changed, weight)
  {
    SurvivorsAre(AllBumped(pool, changed, weight), b);
    c := BumpedOrigin(pool, changed, weight, b);
    SurvivorsAre(pool, c);
  }

  lemma BonusKeepsTies(pool: seq<Candidate>, changed: Name, weight: int, name: Name)
    requires weight >= 1
    ensures Tied(Surviving(Rank(AllBumped(pool, changed, weight))), name) <==> Tied(Surviving(Rank(pool)), name)
  {
    var before, after := Surviving(Rank(pool)), Surviving(Rank(AllBumped(pool, changed, weight)));
    if Tied(before, name) {
      var c :| c in before && c.qualifiedName == name && c.relevant;
      BonusKeepsSurvivor(pool, changed, weight, c);
    }
    if Tied(after, name) {
      var b :| b in after && b.qualifiedName == name && b.relevant;
      var c := SurvivorBefore(pool, changed, weight, b);
    }
  }

  /** A candidate that survives, is tied to the query, and belongs to another module than the leader's. */
  predicate Competes(pool: seq<Candidate>, leader: Candidate, c: Candidate) {
    c in pool && c.score >= MINIMUM_SCORE && c.relevant && c.home != leader.home
  }

  ghost predicate CanOvertake(pool: seq<Candidate>, leader: Candidate, changed: Name, weight: int) {
    exists c :: Competes(pool, leader, c) && c.home == changed && weight >= ChangedFileFlipWeight(leader, c)
  }

  lemma LeaderIsStillThere(pool: seq<Candidate>, changed: Name, weight: int)
    requires weight >= 1 && Relevant(EngineList(pool)) != [] && changed != Relevant(EngineList(pool))[0].home
    ensures var leader, after := Relevant(EngineList(pool))[0], EngineList(AllBumped(pool, changed, weight));
            Relevant(after) != [] && !Outranks(leader, Relevant(after)[0])
  {
    hide Surviving, Rank, AllBumped, Deduplicated, Relevant;
    var s := Surviving(Rank(AllBumped(pool, changed, weight)));
    var origin := FirstOrigin(Surviving(Rank(pool)));
    BonusKeepsSurvivor(pool, changed, weight, origin);
    BonusKeepsTies(pool, changed, weight, origin.qualifiedName);
    SurvivorsAre(AllBumped(pool, changed, weight), origin);
    FirstIsTop(s, origin);
  }

  /** A survivor without the bonus does not outrank the leader, if its name is tied to the query. */
  lemma UnbumpedIsBelow(pool: seq<Candidate>, changed: Name, weight: int, b: Candidate)
    requires weight >= 1 && Relevant(EngineList(pool)) != []
    requires var s := Surviving(Rank(AllBumped(pool, changed, weight))); b in s && Tied(s, b.qualifiedName)
    requires b.home != changed || !b.relevant
    ensures !Outranks(b, Relevant(EngineList(pool))[0])
  {
    var c := SurvivorBefore(pool, changed, weight, b);
    BonusKeepsTies(pool, changed, weight, b.qualifiedName);
    SurvivorsAre(pool, c);
    FirstIsTop(Surviving(Rank(pool)), c);
  }

  lemma OvertakerIsFirst(pool: seq<Candidate>, changed: Name, weight: int, c: Candidate)
    requires weight >= 1 && Relevant(EngineList(pool)) != []
    requires Competes(pool, Relevant(EngineList(pool))[0], c) && c.home == changed
    requires weight >= ChangedFileFlipWeight(Relevant(EngineList(pool))[0], c)
    ensures var after := EngineList(AllBumped(pool, changed, weight));
            Relevant(after) != [] && Relevant(after)[0].home == changed
  {
    hide Surviving, Rank, AllBumped, Deduplicated, Relevant;
    var leader, s := Relevant(EngineList(pool))[0], Surviving(Rank(AllBumped(pool, changed, weight)));
    var bumped := Bumped(c, changed, weight);
    FlipIff(leader, c, weight);
    SurvivorsAre(pool, c);
    BonusKeepsSurvivor(pool, changed, weight, c);
    SurvivorsAre(AllBumped(pool, changed, weight), bumped);
    FirstIsTop(s, bumped);
    var first := Relevant(Deduplicated(s))[0];
    if first.home != changed {
      var b := FirstOrigin(s);
      UnbumpedIsBelow(pool, changed, weight, b);
      OutranksWeak(bumped, leader, b);
    }
  }

  lemma OvertakerCompetes(pool: seq<Candidate>, changed: Name, weight: int, b: Candidate)
    requires Relevant(EngineList(pool)) != [] && changed != Relevant(EngineList(pool))[0].home && weight >= 1
    requires var s := Surviving(Rank(AllBumped(pool, changed, weight))); b in s && Tied(s, b.qualifiedName)
    requires b.home == changed && Outranks(b, Relevant(EngineList(pool))[0])
    ensures CanOvertake(pool, Relevant(EngineList(pool))[0], changed, weight)
  {
    if !b.relevant { UnbumpedIsBelow(pool, changed, weight, b); }
    var c := SurvivorBefore(pool, changed, weight, b);
    SurvivorsAre(pool, c);
    FlipIff(Relevant(EngineList(pool))[0], c, weight);
    assert Competes(pool, Relevant(EngineList(pool))[0], c);
  }

  lemma FirstHasOvertaken(pool: seq<Candidate>, changed: Name, weight: int)
    requires Relevant(EngineList(pool)) != [] && changed != Relevant(EngineList(pool))[0].home && weight >= 1
    requires var after := Relevant(EngineList(AllBumped(pool, changed, weight)));
             after != [] && after[0].home == changed
    ensures CanOvertake(pool, Relevant(EngineList(pool))[0], changed, weight)
  {
    var leader, s := Relevant(EngineList(pool))[0], Surviving(Rank(AllBumped(pool, changed, weight)));
    var b := FirstOrigin(s);
    LeaderIsStillThere(pool, changed, weight);
    NeverLevel(Relevant(Deduplicated(s))[0], leader);
    OvertakerCompetes(pool, changed, weight, b);
  }

  /** What the engine makes of a bonus, ties by name, minimum score and duplicates included: another
      module than the leader's comes first exactly when the bonus reaches the closed form of one of its
      relevant candidates in the pool, kept or not. */
  lemma MergedFlipsIff(pool: seq<Candidate>, changed: Name, weight: int)
    requires Relevant(EngineList(pool)) != [] && changed != Relevant(EngineList(pool))[0].home && weight >= 1
    ensures Relevant(EngineList(AllBumped(pool, changed, weight))) != []
    ensures Relevant(EngineList(AllBumped(pool, changed, weight)))[0].home == changed
            <==> CanOvertake(pool, Relevant(EngineList(pool))[0], changed, weight)
  {
    var leader, s := Relevant(EngineList(pool))[0], Surviving(Rank(AllBumped(pool, changed, weight)));
    LeaderIsStillThere(pool, changed, weight);
    var first := Relevant(Deduplicated(s))[0];
    if CanOvertake(pool, leader, changed, weight) {
      var c :| Competes(pool, leader, c) && c.home == changed && weight >= ChangedFileFlipWeight(leader, c);
      OvertakerIsFirst(pool, changed, weight, c);
    }
    if first.home == changed { FirstHasOvertaken(pool, changed, weight); }
  }
}
