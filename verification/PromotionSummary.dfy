/** The changed-file promotion summary of a session log (scripts/analyze_sessions.py:
    `changed_file_promotion_summary`). */
module PromotionSummary {
  import opened Options

  /** A JSON value. Lists and mappings are only ever asked whether they are empty. */
  datatype Value = Null | Bool(b: bool) | Int(i: int) | Real(r: real) | Str(s: string) | Nested(empty: bool)

  /** The `context` of one record: empty when the record states none. */
  type Context = map<string, Value>

  /** How Python reads text as an integer, and how it writes any other value as text. */
  datatype Python = Python(parse: string -> Option<int>, shown: Value -> string)

  const SIGNAL := "changed_files_signal"
  const STATUS := "changed_baseline_status"
  const FILES := "changed_files_count"
  const SELECTED := "changed_symbols_selected"
  const PRIMARY := "changed_primary_promoted"
  const PROMOTED := "changed_symbols_promoted"
  const DIFFERS := "changed_context_differs"
  const FIELDS := {FILES, SELECTED, PRIMARY, PROMOTED, DIFFERS, STATUS, SIGNAL}

  const SIGNALS := {"ok", "off", "unavailable", "unknown"}
  const STATUSES := {"none", "built", "skipped_no_bonus", "not_sampled", "failed", "unknown"}
  const MEASURED := {"built", "skipped_no_bonus"}

  predicate Truthy(v: Value) {
    match v
    case Null => false
    case Bool(b) => b
    case Int(i) => i != 0
    case Real(r) => r != 0.0
    case Str(s) => s != ""
    case Nested(empty) => !empty
  }

  function Text(v: Value, py: Python): string {
    if v.Str? then v.s else py.shown(v)
  }

  /** `int(r)`, which truncates toward zero. */
  function Truncated(r: real): int {
    if r >= 0.0 then r.Floor else -((-r).Floor)
  }

  /** `_count`: anything that is not readable as an integer counts as zero. */
  function Number(c: Context, key: string, py: Python): int {
    if key !in c || !Truthy(c[key]) then 0
    else
      match c[key]
      case Bool(b) => 1
      case Int(i) => i
      case Real(r) => Truncated(r)
      case Str(s) => (match py.parse(s) case Some(n) => n case None => 0)
      case _ => 0
  }

  predicate Flag(c: Context, key: string) {
    key in c && c[key] == Bool(true)
  }

  function BaselineStatus(c: Context, py: Python): string {
    if STATUS in c && Truthy(c[STATUS]) then Text(c[STATUS], py) else ""
  }

  function SignalState(c: Context, py: Python): string
    requires SIGNAL in c
  {
    Text(c[SIGNAL], py)
  }

  /** The entry of a tally that counts `state`. */
  function Bucket(state: string, states: set<string>): string {
    if state in states then state else "unknown"
  }

  // What a fielded context can be counted as.

  datatype Kind =
    | Fielded | HasSignal(signal: string) | HasStatus(status: string) | Incomplete | Dirty | Unmeasured | Usable
    | Promoted | Proved | ProvedPrimary | ProvedMembership | ProvedReorderOnly | Inert | PrimaryOrMembership

  predicate IsUsable(c: Context, py: Python)
    requires SIGNAL in c
  {
    SignalState(c, py) == "ok" && BaselineStatus(c, py) in MEASURED
  }

  predicate IsProved(c: Context, py: Python)
    requires SIGNAL in c
  {
    IsUsable(c, py) && Number(c, FILES, py) >= 1 && BaselineStatus(c, py) == "built" && Flag(c, DIFFERS)
  }

  predicate LacksField(c: Context) {
    exists key :: key in FIELDS && key !in c
  }

  /** Only a context that states the signal is counted at all. */
  predicate Counted(kind: Kind, c: Context, py: Python) {
    SIGNAL in c &&
    match kind
    case Fielded => true
    case HasSignal(s) => Bucket(SignalState(c, py), SIGNALS) == s
    case HasStatus(s) => Bucket(BaselineStatus(c, py), STATUSES) == s
    case Incomplete => LacksField(c)
    case Dirty => Number(c, FILES, py) > 0
    case Unmeasured => BaselineStatus(c, py) !in MEASURED + {"none"}
    case Usable => IsUsable(c, py)
    case Promoted => IsUsable(c, py) && Flag(c, PRIMARY)
    case Proved => IsProved(c, py)
    case ProvedPrimary => IsProved(c, py) && Flag(c, PRIMARY)
    case ProvedMembership => IsProved(c, py) && Number(c, PROMOTED, py) > 0
    case ProvedReorderOnly => IsProved(c, py) && !Flag(c, PRIMARY) && Number(c, PROMOTED, py) == 0
    case Inert => IsUsable(c, py) && Number(c, SELECTED, py) > 0 && !Flag(c, DIFFERS)
    case PrimaryOrMembership => IsProved(c, py) && (Flag(c, PRIMARY) || Number(c, PROMOTED, py) > 0)
  }

  function Count(list: seq<Context>, kind: Kind, py: Python): (n: nat)
    ensures n <= |list|
  {
    if list == [] then 0
    else Count(list[..|list| - 1], kind, py) + (if Counted(kind, list[|list| - 1], py) then 1 else 0)
  }

  /** The sum of one count field over the contexts of a kind. */
  function Sum(list: seq<Context>, kind: Kind, key: string, py: Python): int {
    if list == [] then 0
    else
      var c := list[|list| - 1];
      Sum(list[..|list| - 1], kind, key, py) + (if Counted(kind, c, py) then Number(c, key, py) else 0)
  }

  datatype Summary = Summary(
    records: nat, withFields: nat, beforeFields: nat, incompleteFields: nat,
    bySignal: map<string, nat>, byStatus: map<string, nat>,
    withChangedFiles: nat, measured: nat, primaryPromoted: nat, symbolsPromoted: int, symbolsSelected: int,
    proved: nat, provedPrimary: nat, provedMembership: nat, provedReorderOnly: nat, inert: nat, unmeasured: nat,
    rateChanged: real, ratePrimary: real)

  function Rate(part: nat, whole: nat): real {
    if whole == 0 then 0.0 else part as real / whole as real
  }

  function SignalTally(list: seq<Context>, py: Python): map<string, nat> {
    map s | s in SIGNALS :: Count(list, HasSignal(s), py)
  }

  function StatusTally(list: seq<Context>, py: Python): map<string, nat> {
    map s | s in STATUSES :: Count(list, HasStatus(s), py)
  }

  /** The summary read straight off the records, field by field. */
  function SummaryOf(records: seq<Context>, py: Python): Summary {
    var fielded, usable := Count(records, Fielded, py), Count(records, Usable, py);
    var promoted := Count(records, Promoted, py);
    Summary(|records|, fielded, |records| - fielded, Count(records, Incomplete, py),
            SignalTally(records, py), StatusTally(records, py),
            Count(records, Dirty, py), usable, promoted,
            Sum(records, Usable, PROMOTED, py), Sum(records, Fielded, SELECTED, py),
            Count(records, Proved, py), Count(records, ProvedPrimary, py), Count(records, ProvedMembership, py),
            Count(records, ProvedReorderOnly, py), Count(records, Inert, py), Count(records, Unmeasured, py),
            Rate(Count(records, Dirty, py), fielded), Rate(promoted, usable))
  }

  /** The fielded contexts, in order. */
  function FieldedOf(records: seq<Context>): seq<Context> {
    if records == [] then []
    else
      var front := FieldedOf(records[..|records| - 1]);
      if SIGNAL in records[|records| - 1] then front + [records[|records| - 1]] else front
  }

  lemma CountStep(list: seq<Context>, c: Context, kind: Kind, py: Python)
    ensures Count(list + [c], kind, py) == Count(list, kind, py) + (if Counted(kind, c, py) then 1 else 0)
  {
    assert (list + [c])[..|list|] == list;
  }

  lemma {:induction false} FieldedCount(records: seq<Context>, kind: Kind, py: Python)
    ensures Count(FieldedOf(records), kind, py) == Count(records, kind, py)
  {
    if records != [] {
      var front, c := records[..|records| - 1], records[|records| - 1];
      FieldedCount(front, kind, py);
      CountStep(FieldedOf(front), c, kind, py);
      if SIGNAL !in c { assert !Counted(kind, c, py); }
    }
  }

  lemma SumStep(list: seq<Context>, c: Context, kind: Kind, key: string, py: Python)
    ensures Sum(list + [c], kind, key, py)
            == Sum(list, kind, key, py) + (if Counted(kind, c, py) then Number(c, key, py) else 0)
  {
    assert (list + [c])[..|list|] == list;
  }

  lemma {:induction false} FieldedSum(records: seq<Context>, kind: Kind, key: string, py: Python)
    ensures Sum(FieldedOf(records), kind, key, py) == Sum(records, kind, key, py)
  {
    if records != [] {
      var front, c := records[..|records| - 1], records[|records| - 1];
      FieldedSum(front, kind, key, py);
      SumStep(FieldedOf(front), c, kind, key, py);
      if SIGNAL !in c { assert !Counted(kind, c, py); }
    }
  }

  lemma {:induction false} FieldedLength(records: seq<Context>, py: Python)
    ensures |FieldedOf(records)| == Count(records, Fielded, py)
  {
    if records != [] { FieldedLength(records[..|records| - 1], py); }
  }

  /** A tally with one more in the given entry. */
  function Bumped(tally: map<string, nat>, key: string): map<string, nat> {
    if key in tally then tally[key := tally[key] + 1] else tally
  }

  /** One more context adds one to its own entry of the tally of signals, if it states one. */
  lemma SignalTallyStep(before: seq<Context>, c: Context, py: Python)
    ensures SignalTally(before + [c], py) ==
            if SIGNAL in c then Bumped(SignalTally(before, py), Bucket(SignalState(c, py), SIGNALS))
            else SignalTally(before, py)
  {
    forall s | s in SIGNALS
      ensures Count(before + [c], HasSignal(s), py) ==
              Count(before, HasSignal(s), py) + (if Counted(HasSignal(s), c, py) then 1 else 0)
    {
      CountStep(before, c, HasSignal(s), py);
    }
  }

  lemma StatusTallyStep(before: seq<Context>, c: Context, py: Python)
    ensures StatusTally(before + [c], py) ==
            if SIGNAL in c then Bumped(StatusTally(before, py), Bucket(BaselineStatus(c, py), STATUSES))
            else StatusTally(before, py)
  {
    forall s | s in STATUSES
      ensures Count(before + [c], HasStatus(s), py) ==
              Count(before, HasStatus(s), py) + (if Counted(HasStatus(s), c, py) then 1 else 0)
    {
      CountStep(before, c, HasStatus(s), py);
    }
  }

  datatype Pass = Pass(fielded: seq<Context>, beforeFields: nat, incomplete: nat, bySignal: map<string, nat>,
                       byStatus: map<string, nat>)

  ghost function PassOf(records: seq<Context>, py: Python): Pass {
    Pass(FieldedOf(records), |records| - Count(records, Fielded, py), Count(records, Incomplete, py),
         SignalTally(records, py), StatusTally(records, py))
  }

  ghost predicate IsPass(p: Pass, records: seq<Context>, py: Python) {
    p == PassOf(records, py)
  }

  /** What one more record does to the pass. */
  ghost function NextPass(p: Pass, c: Context, py: Python): Pass {
    if SIGNAL !in c then p.(beforeFields := p.beforeFields + 1)
    else Pass(p.fielded + [c], p.beforeFields, p.incomplete + (if LacksField(c) then 1 else 0),
              Bumped(p.bySignal, Bucket(SignalState(c, py), SIGNALS)),
              Bumped(p.byStatus, Bucket(BaselineStatus(c, py), STATUSES)))
  }

  lemma PassStep(p: Pass, before: seq<Context>, c: Context, after: seq<Context>, py: Python)
    requires IsPass(p, before, py) && after == before + [c]
    ensures IsPass(NextPass(p, c, py), after, py)
  {
    SignalTallyStep(before, c, py);
    StatusTallyStep(before, c, py);
    CountStep(before, c, Fielded, py);
    CountStep(before, c, Incomplete, py);
    assert (before + [c])[..|before|] == before;
  }

  function Zeros(states: set<string>): map<string, nat> {
    map s | s in states :: 0
  }

  lemma EmptyPass(py: Python)
    ensures IsPass(Pass([], 0, 0, Zeros(SIGNALS), Zeros(STATUSES)), [], py)
  {
  }

  /** The first pass over the records, which fills the list of fielded contexts and the two tallies. */
  method Collect(records: seq<Context>, py: Python)
    returns (fielded: seq<Context>, beforeFields: nat, incomplete: nat, bySignal: map<string, nat>,
             byStatus: map<string, nat>)
    ensures IsPass(Pass(fielded, beforeFields, incomplete, bySignal, byStatus), records, py)
  {
    fielded, beforeFields, incomplete, bySignal, byStatus := [], 0, 0, Zeros(SIGNALS), Zeros(STATUSES);
    EmptyPass(py);
    assert records[..0] == [];
    for i := 0 to |records|
      invariant IsPass(Pass(fielded, beforeFields, incomplete, bySignal, byStatus), records[..i], py)
    {
      var context := records[i];
      PassStep(Pass(fielded, beforeFields, incomplete, bySignal, byStatus), records[..i], context, records[..i + 1],
               py);
      if SIGNAL !in context {
        beforeFields := beforeFields + 1;
        continue;
      }
      if LacksField(context) { incomplete := incomplete + 1; }
      fielded := fielded + [context];
      bySignal := Bumped(bySignal, Bucket(SignalState(context, py), SIGNALS));
      byStatus := Bumped(byStatus, Bucket(BaselineStatus(context, py), STATUSES));
    }
    assert records[..|records|] == records;
  }

  /** The report made from one pass over the records. */
  function Report(records: nat, p: Pass, py: Python): Summary {
    var dirty, usable := Count(p.fielded, Dirty, py), Count(p.fielded, Usable, py);
    var promoted := Count(p.fielded, Promoted, py);
    Summary(records, |p.fielded|, p.beforeFields, p.incomplete, p.bySignal, p.byStatus,
            dirty, usable, promoted, Sum(p.fielded, Usable, PROMOTED, py), Sum(p.fielded, Fielded, SELECTED, py),
            Count(p.fielded, Proved, py), Count(p.fielded, ProvedPrimary, py), Count(p.fielded, ProvedMembership, py),
            Count(p.fielded, ProvedReorderOnly, py), Count(p.fielded, Inert, py), Count(p.fielded, Unmeasured, py),
            Rate(dirty, |p.fielded|), Rate(promoted, usable))
  }

  lemma ReportIsSummary(records: seq<Context>, py: Python)
    ensures Report(|records|, PassOf(records, py), py) == SummaryOf(records, py)
  {
    FieldedLength(records, py);
    FieldedCount(records, Dirty, py);
    FieldedCount(records, Usable, py);
    FieldedCount(records, Promoted, py);
    FieldedCount(records, Proved, py);
    FieldedCount(records, ProvedPrimary, py);
    FieldedCount(records, ProvedMembership, py);
    FieldedCount(records, ProvedReorderOnly, py);
    FieldedCount(records, Inert, py);
    FieldedCount(records, Unmeasured, py);
    FieldedSum(records, Usable, PROMOTED, py);
    FieldedSum(records, Fielded, SELECTED, py);
  }

  /** The reported summary is the one read off the records field by field. */
  method Summarize(records: seq<Context>, py: Python) returns (summary: Summary)
    ensures summary == SummaryOf(records, py)
  {
    var fielded, beforeFields, incomplete, bySignal, byStatus := Collect(records, py);
    summary := Report(|records|, Pass(fielded, beforeFields, incomplete, bySignal, byStatus), py);
    ReportIsSummary(records, py);
  }

  // What the summary promises.

  function Last(records: seq<Context>): Context
    requires records != []
  {
    records[|records| - 1]
  }

  function Front(records: seq<Context>): seq<Context>
    requires records != []
  {
    records[..|records| - 1]
  }

  lemma {:induction false} SignalsSum(records: seq<Context>, py: Python)
    ensures Count(records, HasSignal("ok"), py) + Count(records, HasSignal("off"), py)
            + Count(records, HasSignal("unavailable"), py) + Count(records, HasSignal("unknown"), py)
              == Count(records, Fielded, py)
  {
    if records != [] { SignalsSum(Front(records), py); }
  }

  lemma {:induction false} StatusesSum(records: seq<Context>, py: Python)
    ensures Count(records, HasStatus("none"), py) + Count(records, HasStatus("built"), py)
            + Count(records, HasStatus("skipped_no_bonus"), py) + Count(records, HasStatus("not_sampled"), py)
            + Count(records, HasStatus("failed"), py) + Count(records, HasStatus("unknown"), py)
              == Count(records, Fielded, py)
  {
    if records != [] { StatusesSum(Front(records), py); }
  }

  /** Each tally adds up to the number of records that state the signal. */
  lemma TalliesSum(records: seq<Context>, py: Python)
    ensures var s := SummaryOf(records, py);
            && s.bySignal["ok"] + s.bySignal["off"] + s.bySignal["unavailable"] + s.bySignal["unknown"] == s.withFields
            && s.byStatus["none"] + s.byStatus["built"] + s.byStatus["skipped_no_bonus"] + s.byStatus["not_sampled"]
               + s.byStatus["failed"] + s.byStatus["unknown"] == s.withFields
            && s.withFields + s.beforeFields == s.records
  {
    SignalsSum(records, py);
    StatusesSum(records, py);
  }

  /** A record is never both proof and inert, and both are measurements. */
  lemma {:induction false} VerdictsAreDisjoint(records: seq<Context>, py: Python)
    ensures var s := SummaryOf(records, py);
            && s.proved + s.inert <= s.measured <= s.withFields
            && s.primaryPromoted <= s.measured && s.provedPrimary <= s.proved && s.provedMembership <= s.proved
    ensures forall i :: 0 <= i < |records| ==>
              !(Counted(Proved, records[i], py) && Counted(Inert, records[i], py))
              && (Counted(Proved, records[i], py) || Counted(Inert, records[i], py) ==> Counted(Usable, records[i], py))
  {
    if records != [] { VerdictsAreDisjoint(Front(records), py); }
  }

  predicate MeasuredElsewhere(c: Context, py: Python) {
    SIGNAL in c && BaselineStatus(c, py) in MEASURED && SignalState(c, py) != "ok"
  }

  lemma OneCoverage(c: Context, py: Python)
    ensures (if Counted(Usable, c, py) then 1 else 0) + (if Counted(Unmeasured, c, py) then 1 else 0)
            + (if Counted(HasStatus("none"), c, py) then 1 else 0) + (if MeasuredElsewhere(c, py) then 1 else 0)
            == if Counted(Fielded, c, py) then 1 else 0
  {
  }

  lemma {:induction false} CoverageCounts(records: seq<Context>, py: Python)
    ensures var covered := Count(records, Usable, py) + Count(records, Unmeasured, py)
            + Count(records, HasStatus("none"), py);
            && covered <= Count(records, Fielded, py)
            && (covered == Count(records, Fielded, py)
                <==> forall i :: 0 <= i < |records| ==> !MeasuredElsewhere(records[i], py))
  {
    if records != [] {
      CoverageCounts(Front(records), py);
      OneCoverage(Last(records), py);
      assert records == Front(records) + [Last(records)];
    }
  }

  /** Measured, unmeasured and nothing-to-compare records cover every fielded record exactly when
      no comparison was made under a signal that was not `ok`. */
  lemma CoverageIff(records: seq<Context>, py: Python)
    ensures var s := SummaryOf(records, py);
            && s.measured + s.unmeasured + s.byStatus["none"] <= s.withFields
            && (s.measured + s.unmeasured + s.byStatus["none"] == s.withFields
                <==> forall i :: 0 <= i < |records| ==> !MeasuredElsewhere(records[i], py))
  {
    CoverageCounts(records, py);
  }

  predicate NegativePromotion(c: Context, py: Python) {
    SIGNAL in c && IsProved(c, py) && !Flag(c, PRIMARY) && Number(c, PROMOTED, py) < 0
  }

  lemma OneReorder(c: Context, py: Python)
    ensures (if Counted(ProvedReorderOnly, c, py) then 1 else 0)
            + (if Counted(PrimaryOrMembership, c, py) then 1 else 0)
            + (if NegativePromotion(c, py) then 1 else 0)
            == if Counted(Proved, c, py) then 1 else 0
  {
  }

  lemma {:induction false} ReorderCounts(records: seq<Context>, py: Python)
    ensures var explained := Count(records, ProvedReorderOnly, py) + Count(records, PrimaryOrMembership, py);
            && explained <= Count(records, Proved, py)
            && (explained == Count(records, Proved, py)
                <==> forall i :: 0 <= i < |records| ==> !NegativePromotion(records[i], py))
  {
    if records != [] {
      ReorderCounts(Front(records), py);
      OneReorder(Last(records), py);
      assert records == Front(records) + [Last(records)];
    }
  }

  /** The proofs that only reordered are those that moved neither the primary nor the membership,
      exactly when no such proof states a negative count of promoted symbols. */
  lemma ReorderOnlyIff(records: seq<Context>, py: Python)
    ensures var s, either := SummaryOf(records, py), Count(records, PrimaryOrMembership, py);
            && s.provedReorderOnly <= s.proved - either
            && (s.provedReorderOnly == s.proved - either
                <==> forall i :: 0 <= i < |records| ==> !NegativePromotion(records[i], py))
  {
    ReorderCounts(records, py);
  }

  /** A proof that states a negative count of promoted symbols. */
  function NegativeProof(): Context {
    map[SIGNAL := Str("ok"), STATUS := Str("built"), FILES := Int(1), DIFFERS := Bool(true), PROMOTED := Int(-1)]
  }

  lemma NegativeProofIsOne(py: Python)
    ensures NegativePromotion(NegativeProof(), py)
  {
    assert NegativeProof()[SIGNAL] == Str("ok") && NegativeProof()[STATUS] == Str("built");
  }

  /** The exception is real: such a record is proved and in none of the three ways. */
  lemma NegativeProofIsUnexplained(py: Python)
    ensures var s, either := SummaryOf([NegativeProof()], py), Count([NegativeProof()], PrimaryOrMembership, py);
            s.provedReorderOnly != s.proved - either
  {
    NegativeProofIsOne(py);
    ReorderOnlyIff([NegativeProof()], py);
    assert NegativePromotion([NegativeProof()][0], py);
  }

  lemma {:induction false} DirtyIsFielded(records: seq<Context>, py: Python)
    ensures Count(records, Dirty, py) <= Count(records, Fielded, py)
  {
    if records != [] { DirtyIsFielded(Front(records), py); }
  }

  lemma RateIsProportion(part: nat, whole: nat)
    requires part <= whole
    ensures 0.0 <= Rate(part, whole) <= 1.0
  {
  }

  /** The two rates are proportions. */
  lemma RatesAreProportions(records: seq<Context>, py: Python)
    ensures 0.0 <= SummaryOf(records, py).rateChanged <= 1.0 && 0.0 <= SummaryOf(records, py).ratePrimary <= 1.0
  {
    VerdictsAreDisjoint(records, py);
    DirtyIsFielded(records, py);
    RateIsProportion(Count(records, Dirty, py), Count(records, Fielded, py));
    RateIsProportion(Count(records, Promoted, py), Count(records, Usable, py));
  }

  const COUNTERFACTUAL := {PRIMARY, PROMOTED, DIFFERS}

  /** `after` is `before`, except that an unmeasured record may state other counterfactual values. */
  ghost predicate Rewritten(before: Context, after: Context, py: Python) {
    || before == after
    || (&& !Counted(Usable, before, py)
        && before.Keys == after.Keys
        && forall key :: key in before && key !in COUNTERFACTUAL ==> before[key] == after[key])
  }

  lemma RewrittenCounts(before: Context, after: Context, kind: Kind, py: Python)
    requires Rewritten(before, after, py)
    ensures Counted(kind, before, py) == Counted(kind, after, py)
    ensures Counted(Usable, before, py) ==> Number(before, PROMOTED, py) == Number(after, PROMOTED, py)
    ensures Number(before, SELECTED, py) == Number(after, SELECTED, py)
  {
  }

  ghost predicate AllRewritten(before: seq<Context>, after: seq<Context>, py: Python) {
    |before| == |after| && forall i :: 0 <= i < |before| ==> Rewritten(before[i], after[i], py)
  }

  lemma {:induction false} RewritingKeepsCount(before: seq<Context>, after: seq<Context>, kind: Kind, py: Python)
    requires AllRewritten(before, after, py)
    ensures Count(before, kind, py) == Count(after, kind, py)
  {
    if before != [] {
      RewritingKeepsCount(Front(before), Front(after), kind, py);
      RewrittenCounts(Last(before), Last(after), kind, py);
    }
  }

  lemma {:induction false} RewritingKeepsSums(before: seq<Context>, after: seq<Context>, py: Python)
    requires AllRewritten(before, after, py)
    ensures Sum(before, Usable, PROMOTED, py) == Sum(after, Usable, PROMOTED, py)
    ensures Sum(before, Fielded, SELECTED, py) == Sum(after, Fielded, SELECTED, py)
  {
    if before != [] {
      RewritingKeepsSums(Front(before), Front(after), py);
      RewrittenCounts(Last(before), Last(after), Usable, py);
      RewrittenCounts(Last(before), Last(after), Fielded, py);
    }
  }

  /** Whatever an unmeasured record states as its counterfactual, the summary is the same. */
  lemma PlaceholdersDoNotMatter(before: seq<Context>, after: seq<Context>, py: Python)
    requires AllRewritten(before, after, py)
    ensures SummaryOf(before, py) == SummaryOf(after, py)
  {
    RewritingKeepsSums(before, after, py);
    forall kind ensures Count(before, kind, py) == Count(after, kind, py) {
      RewritingKeepsCount(before, after, kind, py);
    }
  }

  lemma {:induction false} CountAppend(a: seq<Context>, b: seq<Context>, kind: Kind, py: Python)
    ensures Count(a + b, kind, py) == Count(a, kind, py) + Count(b, kind, py)
  {
    if b == [] {
      assert a + b == a;
    } else {
      CountAppend(a, Front(b), kind, py);
      assert Front(a + b) == a + Front(b);
    }
  }

  lemma {:induction false} SumAppend(a: seq<Context>, b: seq<Context>, kind: Kind, key: string, py: Python)
    ensures Sum(a + b, kind, key, py) == Sum(a, kind, key, py) + Sum(b, kind, key, py)
  {
    if b == [] {
      assert a + b == a;
    } else {
      SumAppend(a, Front(b), kind, key, py);
      assert Front(a + b) == a + Front(b);
    }
  }

  lemma OldRecordCount(a: seq<Context>, early: Context, b: seq<Context>, kind: Kind, py: Python)
    requires SIGNAL !in early
    ensures Count(a + [early] + b, kind, py) == Count(a + b, kind, py)
  {
    CountAppend(a + [early], b, kind, py);
    CountAppend(a, b, kind, py);
    CountStep(a, early, kind, py);
    assert !Counted(kind, early, py);
  }

  lemma OldRecordSum(a: seq<Context>, early: Context, b: seq<Context>, kind: Kind, key: string, py: Python)
    requires SIGNAL !in early
    ensures Sum(a + [early] + b, kind, key, py) == Sum(a + b, kind, key, py)
  {
    SumAppend(a + [early], b, kind, key, py);
    SumAppend(a, b, kind, key, py);
    SumStep(a, early, kind, key, py);
    assert !Counted(kind, early, py);
  }

  /** A record written before the fields existed, wherever it sits, is tallied and nothing else. */
  lemma OldRecordsAreOnlyTallied(a: seq<Context>, early: Context, b: seq<Context>, py: Python)
    requires SIGNAL !in early
    ensures var s := SummaryOf(a + b, py);
            SummaryOf(a + [early] + b, py) == s.(records := s.records + 1, beforeFields := s.beforeFields + 1)
  {
    OldRecordSum(a, early, b, Usable, PROMOTED, py);
    OldRecordSum(a, early, b, Fielded, SELECTED, py);
    forall kind ensures Count(a + [early] + b, kind, py) == Count(a + b, kind, py) {
      OldRecordCount(a, early, b, kind, py);
    }
  }
}
