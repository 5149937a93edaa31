/** Every figure of the promotion summary of scripts/analyze_sessions.py, read off the records one by one. */
module PromotionReading {
  import opened Options
  import opened PromotionSummary

  /** How a count field reads: a truthy number cut off at its decimal point, a truthy text as Python reads it as an
      integer, and zero for anything else. */
  ghost predicate CountReads(c: Context, key: string, py: Python, n: int) {
    if key !in c then n == 0
    else
      match c[key]
      case Int(i) => n == i
      case Bool(b) => n == if b then 1 else 0
      case Real(r) => (r >= 0.0 ==> 0.0 <= r - n as real < 1.0) && (r < 0.0 ==> -1.0 < r - n as real <= 0.0)
      case Str(s) => n == if s != "" && py.parse(s).Some? then py.parse(s).value else 0
      case _ => n == 0
  }

  lemma NumberReads(c: Context, key: string, py: Python)
    ensures CountReads(c, key, py, Number(c, key, py))
  {
  }

  lemma OnlyOneNumber(c: Context, key: string, py: Python, n: int)
    requires CountReads(c, key, py, n)
    ensures n == Number(c, key, py)
  {
  }

  /** The text of a field, as `str` gives it; a missing or empty status is the empty text. */
  function Shown(v: Value, py: Python): string {
    match v
    case Str(s) => s
    case _ => py.shown(v)
  }

  function SignalOf(c: Context, py: Python): string {
    if "changed_files_signal" in c then Shown(c["changed_files_signal"], py) else ""
  }

  function StatusOf(c: Context, py: Python): string {
    if "changed_baseline_status" !in c then ""
    else
      match c["changed_baseline_status"]
      case Null => ""
      case Bool(b) => if b then py.shown(Bool(true)) else ""
      case Int(i) => if i == 0 then "" else py.shown(Int(i))
      case Real(r) => if r == 0.0 then "" else py.shown(Real(r))
      case Str(s) => s
      case Nested(empty) => if empty then "" else py.shown(Nested(false))
  }

  predicate Fields(c: Context) {
    "changed_files_signal" in c
  }

  /** A comparison was made under the signal `ok`, or was provably unnecessary. */
  predicate Compared(c: Context, py: Python) {
    Fields(c) && SignalOf(c, py) == "ok" && (StatusOf(c, py) == "built" || StatusOf(c, py) == "skipped_no_bonus")
  }

  predicate Is(c: Context, key: string) {
    key in c && c[key] == Bool(true)
  }

  predicate Proves(c: Context, py: Python) {
    && Fields(c) && SignalOf(c, py) == "ok" && StatusOf(c, py) == "built"
    && Number(c, "changed_files_count", py) >= 1 && Is(c, "changed_context_differs")
  }

  predicate Lacks(c: Context) {
    || "changed_files_count" !in c || "changed_symbols_selected" !in c || "changed_primary_promoted" !in c
    || "changed_symbols_promoted" !in c || "changed_context_differs" !in c || "changed_baseline_status" !in c
  }

  /** The entry of a tally that is for texts outside it counts everything else. */
  predicate InEntry(state: string, entry: string, states: set<string>) {
    if entry == "unknown" then state !in states - {"unknown"} else state == entry
  }

  /** What a record must state to be counted as a kind. */
  predicate Meets(kind: Kind, c: Context, py: Python) {
    match kind
    case Fielded => Fields(c)
    case HasSignal(s) => Fields(c) && InEntry(SignalOf(c, py), s, {"ok", "off", "unavailable", "unknown"})
    case HasStatus(s) =>
      Fields(c)
      && InEntry(StatusOf(c, py), s, {"none", "built", "skipped_no_bonus", "not_sampled", "failed", "unknown"})
    case Incomplete => Fields(c) && Lacks(c)
    case Dirty => Fields(c) && Number(c, "changed_files_count", py) > 0
    case Unmeasured => Fields(c) && StatusOf(c, py) !in {"built", "skipped_no_bonus", "none"}
    case Usable => Compared(c, py)
    case Promoted => Compared(c, py) && Is(c, "changed_primary_promoted")
    case Proved => Proves(c, py)
    case ProvedPrimary => Proves(c, py) && Is(c, "changed_primary_promoted")
    case ProvedMembership => Proves(c, py) && Number(c, "changed_symbols_promoted", py) > 0
    case ProvedReorderOnly =>
      Proves(c, py) && !Is(c, "changed_primary_promoted") && Number(c, "changed_symbols_promoted", py) == 0
    case Inert =>
      Compared(c, py) && Number(c, "changed_symbols_selected", py) > 0 && !Is(c, "changed_context_differs")
    case PrimaryOrMembership =>
      Proves(c, py) && (Is(c, "changed_primary_promoted") || Number(c, "changed_symbols_promoted", py) > 0)
  }

  /** The positions of the records of a kind. */
  ghost function At(records: seq<Context>, kind: Kind, py: Python): set<nat> {
    set i: nat | i < |records| && Meets(kind, records[i], py)
  }

  /** The sum of a count field over the records of a kind, from the first on. */
  ghost function Total(records: seq<Context>, kind: Kind, key: string, py: Python): int {
    if records == [] then 0
    else (if Meets(kind, records[0], py) then Number(records[0], key, py) else 0) + Total(records[1..], kind, key, py)
  }

  /** Each figure is the number of records that state what its name says, or a sum or a quotient of such. */
  ghost predicate Says(s: Summary, records: seq<Context>, py: Python) {
    && s.records == |records|
    && s.withFields == |At(records, Fielded, py)| && s.beforeFields == |records| - s.withFields
    && s.incompleteFields == |At(records, Incomplete, py)|
    && s.withChangedFiles == |At(records, Dirty, py)|
    && s.measured == |At(records, Usable, py)| && s.unmeasured == |At(records, Unmeasured, py)|
    && s.primaryPromoted == |At(records, Promoted, py)|
    && s.symbolsPromoted == Total(records, Usable, "changed_symbols_promoted", py)
    && s.symbolsSelected == Total(records, Fielded, "changed_symbols_selected", py)
    && s.proved == |At(records, Proved, py)| && s.provedPrimary == |At(records, ProvedPrimary, py)|
    && s.provedMembership == |At(records, ProvedMembership, py)|
    && s.provedReorderOnly == |At(records, ProvedReorderOnly, py)|
    && s.inert == |At(records, Inert, py)|
  }

  ghost predicate SaysTallies(s: Summary, records: seq<Context>, py: Python) {
    && s.bySignal.Keys == {"ok", "off", "unavailable", "unknown"}
    && (forall state :: state in s.bySignal ==> s.bySignal[state] == |At(records, HasSignal(state), py)|)
    && s.byStatus.Keys == {"none", "built", "skipped_no_bonus", "not_sampled", "failed", "unknown"}
    && (forall state :: state in s.byStatus ==> s.byStatus[state] == |At(records, HasStatus(state), py)|)
  }

  ghost predicate SaysRates(s: Summary) {
    && s.rateChanged * s.withFields as real == (if s.withFields == 0 then 0.0 else s.withChangedFiles as real)
    && (s.withFields == 0 ==> s.rateChanged == 0.0)
    && s.ratePrimary * s.measured as real == (if s.measured == 0 then 0.0 else s.primaryPromoted as real)
    && (s.measured == 0 ==> s.ratePrimary == 0.0)
  }

  // The two readings agree.

  lemma SameSignal(c: Context, py: Python)
    ensures SIGNAL in c ==> SignalState(c, py) == SignalOf(c, py)
    ensures BaselineStatus(c, py) == StatusOf(c, py)
  {
  }

  lemma LackedField(c: Context)
    requires Lacks(c)
    ensures LacksField(c)
  {
    assert FILES in FIELDS && SELECTED in FIELDS && PRIMARY in FIELDS && PROMOTED in FIELDS && DIFFERS in FIELDS;
    assert STATUS in FIELDS;
  }

  lemma SameLack(c: Context)
    ensures SIGNAL in c ==> (LacksField(c) <==> Lacks(c))
  {
    if LacksField(c) { var key :| key in FIELDS && key !in c; }
    if Lacks(c) { LackedField(c); }
  }

  lemma SameBuckets(state: string, entry: string)
    requires entry in SIGNALS || entry in STATUSES
    ensures entry in SIGNALS ==>
              (Bucket(state, SIGNALS) == entry <==> InEntry(state, entry, {"ok", "off", "unavailable", "unknown"}))
    ensures entry in STATUSES ==>
              (Bucket(state, STATUSES) == entry <==>
               InEntry(state, entry, {"none", "built", "skipped_no_bonus", "not_sampled", "failed", "unknown"}))
  {
  }

  lemma MeetsIff(kind: Kind, c: Context, py: Python)
    requires kind.HasSignal? ==> kind.signal in SIGNALS
    requires kind.HasStatus? ==> kind.status in STATUSES
    ensures Counted(kind, c, py) <==> Meets(kind, c, py)
  {
    hide SignalState, BaselineStatus, SignalOf, StatusOf, Number, LacksField, Lacks, Bucket, InEntry;
    SameSignal(c, py);
    SameLack(c);
    match kind
    case HasSignal(s) => if SIGNAL in c { SameBuckets(SignalState(c, py), s); }
    case HasStatus(s) => SameBuckets(BaselineStatus(c, py), s);
    case _ =>
  }

  lemma AtStep(records: seq<Context>, kind: Kind, py: Python)
    requires records != []
    ensures var front, n := records[..|records| - 1], |records| - 1;
            && At(records, kind, py) == At(front, kind, py) + (if Meets(kind, records[n], py) then {n} else {})
            && n !in At(front, kind, py)
  {
    hide Meets;
  }

  lemma OneMore(a: set<nat>, b: set<nat>, n: nat, here: bool)
    requires n !in a && b == a + (if here then {n} else {})
    ensures |b| == |a| + (if here then 1 else 0)
  {
  }

  lemma {:induction false} CountIs(records: seq<Context>, kind: Kind, py: Python)
    requires kind.HasSignal? ==> kind.signal in SIGNALS
    requires kind.HasStatus? ==> kind.status in STATUSES
    ensures Count(records, kind, py) == |At(records, kind, py)|
  {
    hide Counted, Meets;
    if records == [] {
      assert At(records, kind, py) == {};
    } else {
      var front, n := records[..|records| - 1], |records| - 1;
      CountIs(front, kind, py);
      AtStep(records, kind, py);
      MeetsIff(kind, records[n], py);
      OneMore(At(front, kind, py), At(records, kind, py), n, Meets(kind, records[n], py));
    }
  }

  lemma {:induction false} TotalAppend(records: seq<Context>, c: Context, kind: Kind, key: string, py: Python)
    ensures Total(records + [c], kind, key, py)
            == Total(records, kind, key, py) + (if Meets(kind, c, py) then Number(c, key, py) else 0)
  {
    hide Meets, Number;
    if records == [] {
      assert [] + [c] == [c] && [c][1..] == [];
    } else {
      TotalAppend(records[1..], c, kind, key, py);
      assert (records + [c])[1..] == records[1..] + [c];
    }
  }

  lemma {:induction false} SumIs(records: seq<Context>, kind: Kind, key: string, py: Python)
    requires !kind.HasSignal? && !kind.HasStatus?
    ensures Sum(records, kind, key, py) == Total(records, kind, key, py)
  {
    hide Counted, Meets, Number;
    if records != [] {
      var front, last := records[..|records| - 1], records[|records| - 1];
      SumIs(front, kind, key, py);
      MeetsIff(kind, last, py);
      TotalAppend(front, last, kind, key, py);
      assert records == front + [last];
    }
  }

  lemma RateIs(part: nat, whole: nat)
    ensures Rate(part, whole) * whole as real == (if whole == 0 then 0.0 else part as real)
    ensures whole == 0 ==> Rate(part, whole) == 0.0
  {
  }

  lemma TalliesRead(records: seq<Context>, py: Python)
    ensures SaysTallies(SummaryOf(records, py), records, py)
  {
    hide At, Count;
    forall s | s in SIGNALS ensures Count(records, HasSignal(s), py) == |At(records, HasSignal(s), py)| {
      CountIs(records, HasSignal(s), py);
    }
    forall s | s in STATUSES ensures Count(records, HasStatus(s), py) == |At(records, HasStatus(s), py)| {
      CountIs(records, HasStatus(s), py);
    }
  }

  lemma FiguresRead(records: seq<Context>, py: Python)
    ensures Says(SummaryOf(records, py), records, py)
  {
    hide At, Count, Sum, Total, SignalTally, StatusTally, Rate;
    CountIs(records, Fielded, py);
    CountIs(records, Incomplete, py);
    CountIs(records, Dirty, py);
    CountIs(records, Usable, py);
    CountIs(records, Unmeasured, py);
    CountIs(records, Promoted, py);
    CountIs(records, Proved, py);
    CountIs(records, ProvedPrimary, py);
    CountIs(records, ProvedMembership, py);
    CountIs(records, ProvedReorderOnly, py);
    CountIs(records, Inert, py);
    SumIs(records, Usable, PROMOTED, py);
    SumIs(records, Fielded, SELECTED, py);
  }

  /** The summary says of any log what its records state: every count as the number of positions, the two tallies
      entry by entry, the sums, and the rates as exact quotients. */
  lemma SummaryReads(records: seq<Context>, py: Python)
    ensures var s := SummaryOf(records, py); Says(s, records, py) && SaysTallies(s, records, py) && SaysRates(s)
  {
    hide Says, SaysTallies, Count, Sum, SignalTally, StatusTally, Rate;
    FiguresRead(records, py);
    TalliesRead(records, py);
    RateIs(Count(records, Dirty, py), Count(records, Fielded, py));
    RateIs(Count(records, Promoted, py), Count(records, Usable, py));
  }
}
