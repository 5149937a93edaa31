/** What a query makes of an indexed symbol (packages/context/scoring.py): the score, and which of the
    reasons the ranking engine asks about. */
module Scoring {
  import opened Names
  import opened FlipWeight
  import opened IndexSymbols

  /** What the text comparisons found: whether a name segment or the whole name equals a token, by how much a
      compound name is discounted, whether a segment contains a token, how many tokens occur in the name and in
      the module path, and which patterns the name and the path match. */
  datatype Evidence =
    | NoTokens
    | Evidence(exactSegment: bool, discount: nat, exactName: bool, partial: bool, nameTokens: nat, moduleTokens: nat,
               privateName: bool, generated: bool, testFile: bool, asksForTests: bool)

  /** The best of the rules that exclude each other. */
  function NameScore(e: Evidence): int
    requires e.Evidence?
  {
    if e.exactSegment then 100 - e.discount
    else if e.exactName then 90
    else if e.partial then 50
    else if e.moduleTokens > 0 then 30
    else 0
  }

  function OverlapScore(e: Evidence): int
    requires e.Evidence?
  {
    10 * e.nameTokens + (if e.moduleTokens >= 2 then 10 * e.moduleTokens else 0)
  }

  /** A symbol of an index comes without text, so only its name and type earn a bonus. */
  function Quality(e: Evidence, symbolType: string): int
    requires e.Evidence?
  {
    (if e.privateName then 0 else 5) + (if TypeRank(symbolType) > 0 then 10 else 0)
  }

  function Penalties(e: Evidence): int
    requires e.Evidence?
  {
    (if e.generated then -20 else 0)
    + (if !e.testFile then 0 else if e.asksForTests then 75 else -50)
    + (if e.privateName then -10 else 0)
  }

  function Score(e: Evidence, symbolType: string): int {
    if e.NoTokens? then 0
    else NameScore(e) + OverlapScore(e) + Quality(e, symbolType) + Penalties(e)
  }

  /** What a rule of the documented table is worth, when it applies. */
  function Worth(points: int, applies: bool): int {
    if applies then points else 0
  }

  /** A score is the sum of the rules that apply; of the four rules about the name only the best does. */
  lemma ScoreIsItsRules(e: Evidence, symbolType: string)
    requires e.Evidence?
    ensures Score(e, symbolType) ==
            Worth(100 - e.discount, e.exactSegment)
            + Worth(90, e.exactName && !e.exactSegment)
            + Worth(50, e.partial && !e.exactSegment && !e.exactName)
            + Worth(30, e.moduleTokens > 0 && !e.exactSegment && !e.exactName && !e.partial)
            + 10 * e.nameTokens + Worth(10 * e.moduleTokens, e.moduleTokens >= 2)
            + Worth(10, symbolType in {"CLASS", "FUNCTION", "METHOD"}) + Worth(5, !e.privateName)
            + Worth(75, e.testFile && e.asksForTests) - Worth(50, e.testFile && !e.asksForTests)
            - Worth(20, e.generated) - Worth(10, e.privateName)
  {
  }

  /** A reason says that the module path matched. */
  predicate ModuleMatches(e: Evidence) {
    e.Evidence? && ((!e.exactSegment && !e.exactName && !e.partial && e.moduleTokens > 0) || e.moduleTokens >= 2)
  }

  /** A reason ties the symbol to the query. */
  predicate IsRelevant(e: Evidence) {
    e.Evidence? && (e.exactSegment || e.exactName || e.partial || e.nameTokens > 0 || ModuleMatches(e)
                    || (e.testFile && e.asksForTests))
  }

  /** The reasons a score of an indexed symbol can come with, other than those of its name and type alone. */
  datatype Reason =
    | ExactSymbolName | ExactQualifiedName | PartialSymbolName | ModuleMatch | TokenMatch | ModuleTokenMatch
    | TestTarget

  ghost predicate Has(e: Evidence, reason: Reason)
    requires e.Evidence?
  {
    var named := e.exactSegment || e.exactName || e.partial;
    match reason
    case ExactSymbolName => e.exactSegment
    case ExactQualifiedName => e.exactName && !e.exactSegment
    case PartialSymbolName => e.partial && !e.exactSegment && !e.exactName
    case ModuleMatch => e.moduleTokens > 0 && !named
    case TokenMatch => e.nameTokens > 0
    case ModuleTokenMatch => e.moduleTokens >= 2
    case TestTarget => e.testFile && e.asksForTests
  }

  /** A symbol is tied to the query by any of these reasons, and its module matched by two of them. */
  lemma RelevantIff(e: Evidence)
    requires e.Evidence?
    ensures IsRelevant(e) <==> exists reason :: Has(e, reason)
    ensures ModuleMatches(e) <==> Has(e, ModuleMatch) || Has(e, ModuleTokenMatch)
  {
    if reason :| Has(e, reason) {}
    assert IsRelevant(e) ==> || Has(e, ExactSymbolName) || Has(e, ExactQualifiedName) || Has(e, PartialSymbolName)
                             || Has(e, ModuleMatch) || Has(e, TokenMatch) || Has(e, ModuleTokenMatch)
                             || Has(e, TestTarget);
  }

  const INTRINSIC_LIMIT := 15

  /** A symbol that nothing ties to the query scores for its name and type at most. */
  lemma IntrinsicScoreIsSmall(e: Evidence, symbolType: string)
    ensures !IsRelevant(e) ==> Score(e, symbolType) <= INTRINSIC_LIMIT
  {
  }

  function Scored(s: Symbol, e: Evidence): Candidate {
    Candidate(s.qualifiedName, s.symbolType, s.home, Score(e, s.symbolType), IsRelevant(e), ModuleMatches(e), false)
  }

  /** The candidates of an index for one query. */
  function Pool(symbols: seq<Symbol>, evidence: Symbol -> Evidence): (r: seq<Candidate>)
    ensures |r| == |symbols| && forall i :: 0 <= i < |symbols| ==> r[i] == Scored(symbols[i], evidence(symbols[i]))
  {
    seq(|symbols|, i requires 0 <= i < |symbols| => Scored(symbols[i], evidence(symbols[i])))
  }
}
