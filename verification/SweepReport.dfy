/** What the rows of the sweep report (scripts/quality_harness.py: `changed_file_sweep`), read off the rankings
    themselves. */
module SweepReport {
  import opened Names
  import opened FlipWeight

  /** The positions of the candidates tied to the query. */
  ghost function RelevantAt(ranked: seq<Candidate>): set<nat> {
    set i: nat | i < |ranked| && ranked[i].relevant
  }

  /** The position of the leader: relevant, and nothing relevant before it. */
  ghost predicate LeadsAt(ranked: seq<Candidate>, i: nat) {
    i < |ranked| && ranked[i].relevant && forall j :: 0 <= j < i ==> !ranked[j].relevant
  }

  /** The positions of relevant candidates outside a module. */
  ghost function OutsideAt(ranked: seq<Candidate>, home: Name): set<nat> {
    set i: nat | i < |ranked| && ranked[i].relevant && ranked[i].home != home
  }

  ghost function TiesAt(ranked: seq<Candidate>, home: Name, score: int): set<nat> {
    set i: nat | i < |ranked| && ranked[i].relevant && ranked[i].home != home && ranked[i].score == score
  }

  /** Some relevant candidate lies outside the module of the first relevant one. */
  ghost predicate HasCompetitor(ranked: seq<Candidate>) {
    exists i: nat, j: nat ::
      LeadsAt(ranked, i) && j < |ranked| && ranked[j].relevant && ranked[j].home != ranked[i].home
  }

  /** `via` needs exactly the weight, no relevant candidate outside the leader's module needs less, and none that
      needs as much has a smaller name. */
  ghost predicate LeastNeeded(ranked: seq<Candidate>, leader: Candidate, weight: int, via: Name) {
    && (exists j :: j in OutsideAt(ranked, leader.home)
                    && ChangedFileFlipWeight(leader, ranked[j]) == weight && ranked[j].qualifiedName == via)
    && (forall j :: j in OutsideAt(ranked, leader.home) ==>
          && weight <= ChangedFileFlipWeight(leader, ranked[j])
          && (ChangedFileFlipWeight(leader, ranked[j]) == weight ==> AtMost(via, ranked[j].qualifiedName)))
  }

  /** The gap is that of the first candidate outside the leader's module with the reported name. */
  ghost predicate GapOf(ranked: seq<Candidate>, leader: Candidate, via: Name, gap: int) {
    exists j :: && j in OutsideAt(ranked, leader.home) && ranked[j].qualifiedName == via
                && gap == leader.score - ranked[j].score
                && forall k :: k in OutsideAt(ranked, leader.home) && k < j ==> ranked[k].qualifiedName != via
  }

  /** The row says what the ranking holds. */
  ghost predicate Reports(row: Row, query: string, ranked: seq<Candidate>) {
    && row.query == query
    && row.relevant == |RelevantAt(ranked)|
    && exists i: nat :: LeadsAt(ranked, i) &&
         var leader := ranked[i];
         && row.leader == leader.qualifiedName && row.leaderModule == leader.home && row.leaderScore == leader.score
         && row.ties == |TiesAt(ranked, leader.home, leader.score)|
         && LeastNeeded(ranked, leader, row.flipWeight, row.flipCandidate)
         && GapOf(ranked, leader, row.flipCandidate, row.flipGap)
  }

  /** The queries that get a row, in order. */
  ghost function Answered(queries: seq<string>, rank: string -> seq<Candidate>): seq<string> {
    if queries == [] then []
    else
      var last := queries[|queries| - 1];
      Answered(queries[..|queries| - 1], rank) + (if HasCompetitor(rank(last)) then [last] else [])
  }

  /** One row for each such query, and it says what the ranking holds. */
  ghost predicate ReportOf(rows: seq<Row>, queries: seq<string>, rank: string -> seq<Candidate>) {
    && |rows| == |Answered(queries, rank)|
    && forall k :: 0 <= k < |rows| ==> Reports(rows[k], Answered(queries, rank)[k], rank(Answered(queries, rank)[k]))
  }

  // From the lists that the sweep makes to positions in the ranking.

  lemma OnePosition(a: set<nat>, b: set<nat>, n: nat, here: bool)
    requires n !in a && b == a + (if here then {n} else {})
    ensures |b| == |a| + (if here then 1 else 0)
  {
  }

  lemma RelevantStep(s: seq<Candidate>)
    requires s != []
    ensures var front, n := s[..|s| - 1], |s| - 1;
            && RelevantAt(s) == RelevantAt(front) + (if s[n].relevant then {n} else {})
            && n !in RelevantAt(front)
  {
  }

  lemma {:induction false} CountsRelevant(s: seq<Candidate>)
    ensures |Relevant(s)| == |RelevantAt(s)|
  {
    if s == [] {
      assert RelevantAt(s) == {};
    } else {
      var front, n := s[..|s| - 1], |s| - 1;
      CountsRelevant(front);
      RelevantStep(s);
      OnePosition(RelevantAt(front), RelevantAt(s), n, s[n].relevant);
    }
  }

  lemma OthersMore(leader: Candidate, r: seq<Candidate>, c: Candidate)
    ensures Others(leader, r + [c]) == Others(leader, r) + (if c.home != leader.home then [c] else [])
  {
    assert (r + [c])[..|r|] == r;
  }

  lemma OthersStep(leader: Candidate, s: seq<Candidate>)
    requires s != []
    ensures var front, last := s[..|s| - 1], s[|s| - 1];
            Others(leader, Relevant(s)) == Others(leader, Relevant(front))
                                           + (if last.relevant && last.home != leader.home then [last] else [])
  {
    hide Others;
    OthersMore(leader, Relevant(s[..|s| - 1]), s[|s| - 1]);
    assert Relevant(s[..|s| - 1]) + [] == Relevant(s[..|s| - 1]);
  }

  lemma TiesStep(leader: Candidate, others: seq<Candidate>, c: Candidate)
    ensures Ties(leader, others + [c]) == Ties(leader, others) + (if c.score == leader.score then 1 else 0)
  {
    assert (others + [c])[..|others|] == others;
  }

  lemma TiesAtStep(s: seq<Candidate>, home: Name, score: int)
    requires s != []
    ensures var front, n := s[..|s| - 1], |s| - 1;
            && TiesAt(s, home, score) == TiesAt(front, home, score)
                 + (if s[n].relevant && s[n].home != home && s[n].score == score then {n} else {})
            && n !in TiesAt(front, home, score)
  {
  }

  lemma OneTie(leader: Candidate, s: seq<Candidate>)
    requires s != []
    ensures var front, last := s[..|s| - 1], s[|s| - 1];
            Ties(leader, Others(leader, Relevant(s))) == Ties(leader, Others(leader, Relevant(front)))
              + (if last.relevant && last.home != leader.home && last.score == leader.score then 1 else 0)
  {
    hide Others, Relevant, Ties;
    OthersStep(leader, s);
    TiesStep(leader, Others(leader, Relevant(s[..|s| - 1])), s[|s| - 1]);
    assert Others(leader, Relevant(s[..|s| - 1])) + [] == Others(leader, Relevant(s[..|s| - 1]));
  }

  lemma {:induction false} CountsTies(leader: Candidate, s: seq<Candidate>)
    ensures Ties(leader, Others(leader, Relevant(s))) == |TiesAt(s, leader.home, leader.score)|
  {
    if s == [] {
      assert TiesAt(s, leader.home, leader.score) == {};
    } else {
      var front, n := s[..|s| - 1], |s| - 1;
      CountsTies(leader, front);
      OneTie(leader, s);
      TiesAtStep(s, leader.home, leader.score);
      OnePosition(TiesAt(front, leader.home, leader.score), TiesAt(s, leader.home, leader.score), n,
                  s[n].relevant && s[n].home != leader.home && s[n].score == leader.score);
    }
  }

  /** The positions of the competitors, in order. */
  ghost function Positions(s: seq<Candidate>, home: Name): seq<nat> {
    if s == [] then []
    else
      Positions(s[..|s| - 1], home)
      + (if s[|s| - 1].relevant && s[|s| - 1].home != home then [|s| - 1] else [])
  }

  ghost predicate Located(others: seq<Candidate>, s: seq<Candidate>, home: Name, at: seq<nat>) {
    && |at| == |others|
    && (forall i :: 0 <= i < |at| ==> at[i] in OutsideAt(s, home) && s[at[i]] == others[i])
    && (forall i, j :: 0 <= i < j < |at| ==> at[i] < at[j])
    && (forall p :: p in OutsideAt(s, home) ==> p in at)
  }

  lemma LocatedStep(others: seq<Candidate>, s: seq<Candidate>, home: Name, at: seq<nat>, c: Candidate)
    requires Located(others, s, home, at)
    ensures var more := if c.relevant && c.home != home then [c] else [];
            var next: seq<nat> := if c.relevant && c.home != home then [|s|] else [];
            Located(others + more, s + [c], home, at + next)
  {
    var here := c.relevant && c.home != home;
    var next: seq<nat> := if here then [|s|] else [];
    forall p | p in OutsideAt(s + [c], home) ensures p in at + next {
      if p < |s| { assert p in OutsideAt(s, home); }
    }
    forall i | 0 <= i < |at| ensures at[i] in OutsideAt(s + [c], home) { assert at[i] in OutsideAt(s, home); }
  }

  lemma NothingLocated(leader: Candidate)
    ensures Located(Others(leader, Relevant([])), [], leader.home, Positions([], leader.home))
  {
  }

  lemma PositionsStep(s: seq<Candidate>, home: Name)
    requires s != []
    ensures var front, last := s[..|s| - 1], s[|s| - 1];
            var next: seq<nat> := if last.relevant && last.home != home then [|front|] else [];
            Positions(s, home) == Positions(front, home) + next
  {
  }

  lemma {:induction false} CompetitorsAreAt(leader: Candidate, s: seq<Candidate>)
    ensures Located(Others(leader, Relevant(s)), s, leader.home, Positions(s, leader.home))
  {
    hide Others, Relevant, Located, Positions;
    if s == [] {
      NothingLocated(leader);
    } else {
      var front, last := s[..|s| - 1], s[|s| - 1];
      CompetitorsAreAt(leader, front);
      OthersStep(leader, s);
      PositionsStep(s, leader.home);
      LocatedStep(Others(leader, Relevant(front)), front, leader.home, Positions(front, leader.home), last);
      assert s == front + [last];
    }
  }

  lemma NoneRelevant(s: seq<Candidate>)
    requires Relevant(s) == []
    ensures forall i :: 0 <= i < |s| ==> !s[i].relevant
  {
    forall i | 0 <= i < |s| ensures !s[i].relevant { assert s[i] in s; }
  }

  lemma {:induction false} LeaderIsAt(s: seq<Candidate>) returns (i: nat)
    requires Relevant(s) != []
    ensures i < |s| && LeadsAt(s, i) && Relevant(s)[0] == s[i]
  {
    var front := s[..|s| - 1];
    if Relevant(front) != [] {
      i := LeaderIsAt(front);
    } else {
      i := |s| - 1;
      NoneRelevant(front);
      assert forall j :: 0 <= j < i ==> s[j] == front[j];
    }
  }

  lemma {:induction false} OthersAppend(leader: Candidate, a: seq<Candidate>, b: seq<Candidate>)
    ensures Others(leader, a + b) == Others(leader, a) + Others(leader, b)
  {
    if b == [] {
      assert a + b == a;
    } else {
      assert (a + b)[..|a + b| - 1] == a + b[..|b| - 1];
      OthersAppend(leader, a, b[..|b| - 1]);
    }
  }

  /** The leader is no competitor of its own, so its place in the list does not matter. */
  lemma CompetitorsOf(s: seq<Candidate>)
    requires Relevant(s) != []
    ensures Competitors(s) == Others(Relevant(s)[0], Relevant(s))
  {
    var leader, rest := Relevant(s)[0], Relevant(s)[1..];
    assert Relevant(s) == [leader] + rest;
    OthersAppend(leader, [leader], rest);
    assert Others(leader, [leader]) == [] by { assert [leader][..0] == []; }
  }

  lemma NeededIs(s: seq<Candidate>, leader: Candidate, others: seq<Candidate>, at: seq<nat>)
    requires Located(others, s, leader.home, at) && others != []
    ensures LeastNeeded(s, leader, LeastFlip(leader, others), LeastName(leader, others, LeastFlip(leader, others)))
  {
    var weight := LeastFlip(leader, others);
    var via := LeastName(leader, others, weight);
    var i :| 0 <= i < |others| && ChangedFileFlipWeight(leader, others[i]) == weight && others[i].qualifiedName == via;
    assert at[i] in OutsideAt(s, leader.home);
    forall j | j in OutsideAt(s, leader.home)
      ensures weight <= ChangedFileFlipWeight(leader, s[j])
      ensures ChangedFileFlipWeight(leader, s[j]) == weight ==> AtMost(via, s[j].qualifiedName)
    {
      var k :| 0 <= k < |at| && at[k] == j;
      assert s[j] == others[k];
    }
  }

  lemma GapIs(s: seq<Candidate>, leader: Candidate, others: seq<Candidate>, at: seq<nat>, via: Name)
    requires Located(others, s, leader.home, at)
    requires exists i :: 0 <= i < |others| && others[i].qualifiedName == via
    ensures GapOf(s, leader, via, leader.score - others[FirstNamed(others, via)].score)
  {
    var first := FirstNamed(others, via);
    var j := at[first];
    assert s[j] == others[first];
    forall k | k in OutsideAt(s, leader.home) && k < j ensures s[k].qualifiedName != via {
      var m :| 0 <= m < |at| && at[m] == k;
      assert m < first && s[k] == others[m];
    }
  }

  lemma HasCompetitorIff(s: seq<Candidate>)
    ensures HasCompetitor(s) <==> Relevant(s) != [] && Competitors(s) != []
  {
    hide Relevant, Others, Competitors;
    if Relevant(s) == [] {
      NoneRelevant(s);
    } else {
      var leader := Relevant(s)[0];
      var i := LeaderIsAt(s);
      CompetitorsOf(s);
      CompetitorsAreAt(leader, s);
      var at := Positions(s, leader.home);
      if Competitors(s) != [] { assert at[0] in OutsideAt(s, leader.home); }
      if HasCompetitor(s) {
        var l: nat, j: nat :| LeadsAt(s, l) && j < |s| && s[j].relevant && s[j].home != s[l].home;
        assert l == i;
        assert j in OutsideAt(s, leader.home);
      }
    }
  }

  lemma RowNeeds(query: string, s: seq<Candidate>, leader: Candidate, others: seq<Candidate>, at: seq<nat>, n: nat)
    requires Located(others, s, leader.home, at) && others != []
    ensures var row := RowFor(query, leader, others, n);
            && LeastNeeded(s, leader, row.flipWeight, row.flipCandidate)
            && GapOf(s, leader, row.flipCandidate, row.flipGap)
  {
    hide Located, LeastNeeded, GapOf, Ties;
    NeededIs(s, leader, others, at);
    GapIs(s, leader, others, at, LeastName(leader, others, LeastFlip(leader, others)));
  }

  lemma RowIs(query: string, s: seq<Candidate>, leader: Candidate, others: seq<Candidate>, i: nat, n: nat)
    requires LeadsAt(s, i) && s[i] == leader && others != [] && n == |RelevantAt(s)|
    requires Ties(leader, others) == |TiesAt(s, leader.home, leader.score)|
    requires var row := RowFor(query, leader, others, n);
             && LeastNeeded(s, leader, row.flipWeight, row.flipCandidate)
             && GapOf(s, leader, row.flipCandidate, row.flipGap)
    ensures Reports(RowFor(query, leader, others, n), query, s)
  {
    hide LeastNeeded, GapOf, Ties, TiesAt, RelevantAt, LeastFlip, LeastName, FirstNamed;
  }

  lemma RowReports(query: string, s: seq<Candidate>)
    requires Relevant(s) != [] && Competitors(s) != []
    ensures Reports(RowFor(query, Relevant(s)[0], Competitors(s), |Relevant(s)|), query, s)
  {
    hide *;
    var leader, others := Relevant(s)[0], Competitors(s);
    var i := LeaderIsAt(s);
    CompetitorsOf(s);
    CompetitorsAreAt(leader, s);
    CountsRelevant(s);
    CountsTies(leader, s);
    RowNeeds(query, s, leader, others, Positions(s, leader.home), |Relevant(s)|);
    RowIs(query, s, leader, others, i, |Relevant(s)|);
  }

  lemma {:induction false} RowsReport(queries: seq<string>, rank: string -> seq<Candidate>)
    ensures ReportOf(SweepRows(queries, rank), queries, rank)
  {
    hide Reports, HasCompetitor, RowFor, Relevant, Competitors;
    if queries != [] {
      var front, last := queries[..|queries| - 1], queries[|queries| - 1];
      RowsReport(front, rank);
      HasCompetitorIff(rank(last));
      if HasCompetitor(rank(last)) { RowReports(last, rank(last)); }
    }
  }

  /** The sweep: one row for every query whose leader has a competitor in another module, in query order, with the
      leader's own fields, the least weight any competitor needs and which one, and counts over the ranking. */
  method ChangedFileSweep(queries: seq<string>, rank: string -> seq<Candidate>) returns (rows: seq<Row>)
    ensures rows == SweepRows(queries, rank) && ReportOf(rows, queries, rank)
  {
    RowsReport(queries, rank);
    rows := [];
    for i := 0 to |queries|
      invariant rows == SweepRows(queries[..i], rank)
    {
      var query := queries[i];
      assert queries[..i + 1][..i] == queries[..i];
      var relevant := Relevant(rank(query));
      if relevant == [] { continue; }
      var leader := relevant[0];
      var others := Others(leader, relevant[1..]);
      if others == [] { continue; }
      rows := rows + [RowFor(query, leader, others, |relevant|)];
    }
    assert queries[..|queries|] == queries;
  }
}
