/** An index in which the guard at the end of a ranking outlasts the weight that the sweep reports. */
module SweepCases {
  import opened Names
  import opened FlipWeight
  import opened EngineRanking
  import opened IndexSymbols
  import opened Scoring
  import opened IndexSweep

  lemma TopIs(s: seq<Candidate>, c: Candidate)
    requires Ranked(s) && c in s && forall d :: d in s && d != c ==> Outranks(c, d)
    ensures s[0] == c
  {
    var p :| 0 <= p < |s| && s[p] == c;
  }

  lemma NotBetween(s: seq<Candidate>, c: Candidate, p: nat)
    requires Ranked(s) && DistinctNames(s) && 1 < p < |s| && s[p] == c
    ensures s[1] in s && s[1] != c && s[1] != s[0] && !Outranks(c, s[1])
  {
  }

  lemma NextIs(s: seq<Candidate>, c: Candidate)
    requires Ranked(s) && DistinctNames(s) && c in s && s[0] != c
    requires forall d :: d in s && d != c && d != s[0] ==> Outranks(c, d)
    ensures |s| >= 2 && s[1] == c
  {
    var p :| 0 <= p < |s| && s[p] == c;
    if p > 1 { NotBetween(s, c, p); }
  }

  const UNRELATED := Symbol("c/n.f", "FUNCTION", "c/n", 1)
  const LEADER := Symbol("a/test_do/run.f", "FUNCTION", "a/test_do/run", 1)
  const RIVAL := Symbol("b/test_do/run.f", "FUNCTION", "b/test_do/run", 1)

  /** What the query `do/run` finds. Both its words are discarded, so the whole text is the only token: it occurs in
      two module paths and in the names that start with them, in no name segment, and the paths are those of tests. */
  function SlashEvidence(s: Symbol): Evidence {
    if s == UNRELATED then Evidence(false, 0, false, false, 0, 0, false, false, false, false)
    else Evidence(false, 0, false, false, 1, 1, false, false, true, false)
  }

  function SlashPool(): seq<Candidate> {
    Pool(Symbols([LEADER, RIVAL, UNRELATED]), s => SlashEvidence(s))
  }

  function Found(s: Symbol): Candidate {
    Scored(s, SlashEvidence(s))
  }

  lemma SlashSymbols(s: Symbol)
    ensures s in Symbols([LEADER, RIVAL, UNRELATED]) <==> s == LEADER || s == RIVAL || s == UNRELATED
  {
    var all := [LEADER, RIVAL, UNRELATED];
    ListsExactlyTheLast(all, s);
    assert all[0] == LEADER && all[1] == RIVAL && all[2] == UNRELATED;
    assert LEADER.qualifiedName[0] == 'a' && RIVAL.qualifiedName[0] == 'b' && UNRELATED.qualifiedName[0] == 'c';
  }

  lemma SlashCandidate(c: Candidate)
    ensures c in SlashPool() <==> c == Found(LEADER) || c == Found(RIVAL) || c == Found(UNRELATED)
  {
    var symbols, pool := Symbols([LEADER, RIVAL, UNRELATED]), SlashPool();
    if c in pool {
      var i :| 0 <= i < |pool| && pool[i] == c;
      SlashSymbols(symbols[i]);
    }
    forall s | s in symbols ensures Found(s) in pool {
      var i :| 0 <= i < |symbols| && symbols[i] == s;
      assert pool[i] == Found(s);
    }
    SlashSymbols(LEADER);
    SlashSymbols(RIVAL);
    SlashSymbols(UNRELATED);
  }

  lemma SlashMembers(c: Candidate)
    ensures FromIndex(SlashPool())
    ensures c in EngineList(SlashPool()) <==> c == Found(LEADER) || c == Found(RIVAL) || c == Found(UNRELATED)
  {
    hide EngineList, Symbols;
    IndexPools([LEADER, RIVAL, UNRELATED], s => SlashEvidence(s));
    ListMember(SlashPool(), c);
    SlashCandidate(c);
  }

  lemma SlashScores()
    ensures Found(UNRELATED).score == 15 && Found(LEADER).score == 5 && Found(RIVAL).score == 5
    ensures TieBefore(Found(LEADER), Found(RIVAL)) && TieBefore(Found(RIVAL), Found(UNRELATED))
  {
    assert LEADER.qualifiedName[0] == 'a' && RIVAL.qualifiedName[0] == 'b' && UNRELATED.qualifiedName[0] == 'c';
  }

  lemma ThreeRanked(s: seq<Candidate>, a: Candidate, b: Candidate, c: Candidate)
    requires Ranked(s) && DistinctNames(s) && forall d :: d in s <==> d == a || d == b || d == c
    requires Outranks(a, b) && Outranks(a, c) && Outranks(b, c)
    ensures |s| >= 2 && s[0] == a && s[1] == b
  {
    NeverLevel(a, b);
    TopIs(s, a);
    NextIs(s, b);
  }

  /** The unrelated symbol opens the list and the leader follows. */
  lemma SlashList()
    ensures var ranked := EngineList(SlashPool());
            |ranked| >= 2 && ranked[0] == Found(UNRELATED) && ranked[1] == Found(LEADER)
  {
    hide EngineList, SlashPool, Found;
    var ranked := EngineList(SlashPool());
    forall c ensures c in ranked <==> c == Found(UNRELATED) || c == Found(LEADER) || c == Found(RIVAL) {
      SlashMembers(c);
    }
    SlashMembers(Found(LEADER));
    DistinctList(SlashPool());
    SlashScores();
    ThreeRanked(ranked, Found(UNRELATED), Found(LEADER), Found(RIVAL));
  }

  lemma SlashCompetitor()
    ensures var ranked := EngineList(SlashPool());
            && Relevant(ranked) != [] && Relevant(ranked)[0] == Found(LEADER)
            && Competitors(ranked) != [] && Competitors(ranked)[0] == Found(RIVAL)
  {
    var ranked := EngineList(SlashPool());
    SlashList();
    SlashMembers(Found(RIVAL));
    GuardedLeader(SlashPool());
    CompetitorsAre(ranked, Found(RIVAL));
    var first := Competitors(ranked)[0];
    CompetitorsAre(ranked, first);
    SlashMembers(first);
  }

  /** The sweep says that a bonus of 1 hands the first place over, and the engine hands it over from 10 on. */
  lemma GuardOutlastsTheSweep(query: string)
    ensures var ranked := EngineList(SlashPool());
            && RowsOf(query, ranked) != [] && RowsOf(query, ranked)[0].flipWeight == 1
            && forall weight: int :: weight >= 1 ==> (EngineFlips(SlashPool(), weight) <==> weight >= 10)
  {
    var pool := SlashPool();
    SlashMembers(Found(LEADER));
    SlashList();
    SlashScores();
    SlashCompetitor();
    SweepReadsTheFirst(pool);
    RowHasSweepWeight(query, EngineList(pool));
    forall weight: int | weight >= 1 ensures EngineFlips(pool, weight) <==> weight >= 10 { EngineNeeds(pool, weight); }
  }
}
