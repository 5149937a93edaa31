/** The builder itself, the comparison of what it builds with what the shape claims, and the loop
    that fits a calibrated shape to an observed message count (scripts/bench_c1_latency.py). */
module TranscriptBuilder {
  import opened Shares
  import opened Transcript
  import opened TranscriptBatches
  import opened TranscriptShape

  /** The first number of turns that holds every envelope is the number of batches. */
  lemma AllEnvelopesPlaced(n: nat, perTurn: nat, t: nat)
    requires perTurn > 0 && Start(n, perTurn, t) == n && (t > 0 ==> Start(n, perTurn, t - 1) < n)
    ensures t == Batches(n, perTurn)
  {
    StartIs(n, perTurn, t);
    if t > 0 { StartIs(n, perTurn, t - 1); }
    assert t * perTurn == (t - 1) * perTurn + perTurn;
    assert (t + 1) * perTurn == t * perTurn + perTurn;
    QuotientAtLeast(n + perTurn - 1, perTurn, t);
    QuotientAtLeast(n + perTurn - 1, perTurn, t + 1);
  }

  method BuildTurn(sizes: seq<int>, lo: nat, hi: nat) returns (turn: seq<Message>)
    requires lo <= hi <= |sizes|
    ensures turn == Turn(sizes, lo, hi)
  {
    var batch: seq<nat> := [];
    var results: seq<Message> := [];
    for i := lo to hi
      invariant batch == seq(i - lo, k requires 0 <= k => lo + k)
      invariant results == seq(i - lo, k requires 0 <= k < hi - lo => Reply(lo + k, ReplyChars(sizes[lo + k])))
    {
      batch := batch + [i];
      results := results + [Reply(i, ReplyChars(sizes[i]))];
    }
    turn := [Assistant(batch)] + results;
  }

  /** The turn loop, whose start index runs past the end in its last step. */
  method BuildTurns(sizes: seq<int>, perTurn: nat) returns (messages: seq<Message>)
    requires perTurn > 0
    ensures messages == Native(sizes, perTurn, Batches(|sizes|, perTurn))
    ensures Says(messages, sizes, perTurn)
  {
    messages := [Opening];
    var start := 0;
    ghost var t := 0;
    while start < |sizes|
      invariant Start(|sizes|, perTurn, t) == Min(start, |sizes|)
      invariant t > 0 ==> Start(|sizes|, perTurn, t - 1) < |sizes|
      invariant messages == Native(sizes, perTurn, t)
    {
      var turn := BuildTurn(sizes, start, Min(start + perTurn, |sizes|));
      messages := messages + turn;
      start := start + perTurn;
      t := t + 1;
    }
    AllEnvelopesPlaced(|sizes|, perTurn, t);
    BuiltSays(sizes, perTurn, 0);
  }

  method BuildMessages(sizes: seq<int>, perTurn: nat, fillers: int) returns (messages: seq<Message>, starts: seq<nat>)
    requires perTurn > 0
    ensures messages == Built(sizes, perTurn, fillers)
    ensures Says(messages, sizes, perTurn)
    ensures starts == Turns(messages)
  {
    BuiltSays(sizes, perTurn, fillers);
    if sizes == [] {
      NoTurns([Opening]);
      return [Opening], [];
    }
    var built := BuildTurns(sizes, perTurn);
    var list := new MessageList(built);
    list.Pad(fillers);
    starts := list.FindTurns();
    messages := list.messages;
  }

  function SeedLength(messages: nat, starts: seq<nat>): nat {
    if starts != [] then starts[|starts| - 1]
    else if messages > 1 then messages - 1
    else messages
  }

  function ChainLength(starts: seq<nat>): nat {
    if starts == [] then 0 else |starts| - 1
  }

  /** The request that produced the newest turn, and the requests before it. */
  method BuildSeeds(messages: seq<Message>, starts: seq<nat>) returns (seed: seq<Message>, chain: seq<seq<Message>>)
    requires Bounded(starts, |messages|)
    ensures |seed| == SeedLength(|messages|, starts) && seed <= messages
    ensures starts == [] ==> messages == if |messages| > 1 then seed + [messages[|messages| - 1]] else seed
    ensures |chain| == ChainLength(starts)
    ensures forall i :: 0 <= i < |chain| ==> chain[i] == messages[..starts[i]]
  {
    chain := [];
    if starts == [] {
      seed := if |messages| > 1 then messages[..|messages| - 1] else messages;
      return;
    }
    for i := 0 to |starts| - 1
      invariant |chain| == i
      invariant forall k :: 0 <= k < i ==> chain[k] == messages[..starts[k]]
    {
      chain := chain + [messages[..starts[i]]];
    }
    seed := messages[..starts[|starts| - 1]];
  }

  datatype Figures = Figures(
    calls: int, otherEvents: int, envelopes: int, turns: int, distinctTargets: int,
    messages: int, seedMessages: int, chainRequests: int)

  function ClaimedTargets(calls: nat, distinct: int, pool: seq<string>): int {
    Min(Min(distinct, calls), if pool != [] then |pool| else calls)
  }

  /** What a shape commits its cell to, by arithmetic alone. */
  function ClaimedFigures(calls: nat, others: nat, distinct: int, perTurn: nat, fillers: int,
                          pool: seq<string>): Figures
    requires perTurn > 0
  {
    var envelopes := calls + others;
    var batches := Batches(envelopes, perTurn);
    var targets := ClaimedTargets(calls, distinct, pool);
    if envelopes == 0 then Figures(0, 0, 0, 0, targets, 0, 0, 0)
    else Figures(calls, others, envelopes, 1 + batches, targets, ClaimedMessages(envelopes, perTurn, fillers),
                 ClaimedSeed(envelopes, perTurn, fillers), Max(batches - 1, 0))
  }

  function MadeCalls(calls: nat, others: nat, distinct: int, pool: seq<string>): seq<Call> {
    Interleaved(FileCalls(calls, Max(distinct, 1), pool), OtherCalls(others), Max(calls, others))
  }

  /** What was built, counted. */
  ghost function GeneratedFigures(made: seq<Call>, messages: seq<Message>): Figures {
    Figures(|FilesOf(made)|, |made| - |FilesOf(made)|, |made|, (if messages != [] then 1 else 0) + |Turns(messages)|,
            |Targets(made)|, |messages|, SeedLength(|messages|, Turns(messages)), ChainLength(Turns(messages)))
  }

  lemma {:induction false} FilesHoldTheFileCalls(calls: seq<Call>)
    ensures forall c :: c in FilesOf(calls) <==> c in calls && c.FileCall?
  {
    if calls != [] {
      FilesHoldTheFileCalls(calls[..|calls| - 1]);
      assert calls == calls[..|calls| - 1] + [calls[|calls| - 1]];
    }
  }

  lemma SameTargets(a: seq<Call>, b: seq<Call>)
    requires forall c :: c in b <==> c in a && c.FileCall?
    ensures Targets(a) == Targets(b)
  {
  }

  /** The calls a shape makes: as many of each kind as it says, over as many targets as there can be. */
  lemma MadeCallCounts(calls: nat, others: nat, distinct: int, pool: seq<string>)
    requires DistinctPaths(pool)
    ensures var made := MadeCalls(calls, others, distinct, pool);
            && |made| == calls + others && FilesOf(made) == FileCalls(calls, Max(distinct, 1), pool)
            && |Targets(made)| == TargetCount(calls, Max(distinct, 1), pool)
  {
    var files, made := FileCalls(calls, Max(distinct, 1), pool), MadeCalls(calls, others, distinct, pool);
    InterleavedLength(files, OtherCalls(others), Max(calls, others));
    InterleavedKeepsFiles(files, OtherCalls(others), Max(calls, others));
    FilesHoldTheFileCalls(made);
    SameTargets(made, files);
    DistinctTargetCount(calls, Max(distinct, 1), pool);
  }

  lemma FiguresAre(made: seq<Call>, messages: seq<Message>, calls: nat, others: nat, targets: nat, batches: nat,
                   seed: int)
    requires |made| == calls + others && |FilesOf(made)| == calls && |Targets(made)| == targets
    requires messages != [] && |Turns(messages)| == batches > 0 && Turns(messages)[batches - 1] == seed
    ensures GeneratedFigures(made, messages) ==
            Figures(calls, others, calls + others, 1 + batches, targets, |messages|, seed, batches - 1)
  {
  }

  /** What is counted in a cell that makes a call. */
  lemma CountedFigures(sizes: seq<int>, calls: nat, others: nat, distinct: int, perTurn: nat, fillers: int,
                       pool: seq<string>)
    requires perTurn > 0 && |sizes| == calls + others > 0 && DistinctPaths(pool)
    ensures GeneratedFigures(MadeCalls(calls, others, distinct, pool), Built(sizes, perTurn, fillers)) ==
            Figures(calls, others, |sizes|, 1 + Batches(|sizes|, perTurn), TargetCount(calls, Max(distinct, 1), pool),
                    1 + Batches(|sizes|, perTurn) + |sizes| + Max(fillers, 0), ClaimedSeed(|sizes|, perTurn, fillers),
                    Batches(|sizes|, perTurn) - 1)
  {
    MadeCallCounts(calls, others, distinct, pool);
    BuiltCounts(sizes, perTurn, fillers);
    FiguresAre(MadeCalls(calls, others, distinct, pool), Built(sizes, perTurn, fillers), calls, others,
               TargetCount(calls, Max(distinct, 1), pool), Batches(|sizes|, perTurn),
               ClaimedSeed(|sizes|, perTurn, fillers));
  }

  lemma TargetClaimIff(calls: nat, distinct: int, pool: seq<string>)
    ensures TargetCount(calls, Max(distinct, 1), pool) == ClaimedTargets(calls, distinct, pool)
            <==> distinct >= 1 || (calls == 0 && distinct == 0)
  {
  }

  lemma NonEmptyClaimsIff(sizes: seq<int>, calls: nat, others: nat, distinct: int, perTurn: nat, fillers: int,
                          pool: seq<string>)
    requires perTurn > 0 && |sizes| == calls + others > 0 && DistinctPaths(pool)
    ensures GeneratedFigures(MadeCalls(calls, others, distinct, pool), Built(sizes, perTurn, fillers)) ==
            ClaimedFigures(calls, others, distinct, perTurn, fillers, pool)
            <==> fillers >= 0 && (distinct >= 1 || (calls == 0 && distinct == 0))
  {
    CountedFigures(sizes, calls, others, distinct, perTurn, fillers, pool);
    TargetClaimIff(calls, distinct, pool);
    BatchBounds(|sizes|, perTurn);
  }

  lemma OpeningIsNotNothing(made: seq<Call>, calls: nat, others: nat, distinct: int, perTurn: nat, fillers: int,
                            pool: seq<string>)
    requires perTurn > 0 && calls + others == 0
    ensures GeneratedFigures(made, [Opening]) != ClaimedFigures(calls, others, distinct, perTurn, fillers, pool)
  {
    assert GeneratedFigures(made, [Opening]).messages == 1;
  }

  /** Every figure of a native cell equals its claim exactly when the cell makes a call, asks for no
      negative padding, and asks for a target if it names files. */
  lemma ClaimsAreExactIff(sizes: seq<int>, calls: nat, others: nat, distinct: int, perTurn: nat, fillers: int,
                          pool: seq<string>)
    requires perTurn > 0 && |sizes| == calls + others && DistinctPaths(pool)
    ensures GeneratedFigures(MadeCalls(calls, others, distinct, pool), Built(sizes, perTurn, fillers)) ==
            ClaimedFigures(calls, others, distinct, perTurn, fillers, pool)
            <==> calls + others > 0 && fillers >= 0 && (distinct >= 1 || (calls == 0 && distinct == 0))
  {
    if calls + others > 0 {
      NonEmptyClaimsIff(sizes, calls, others, distinct, perTurn, fillers, pool);
    } else {
      OpeningIsNotNothing(MadeCalls(calls, others, distinct, pool), calls, others, distinct, perTurn, fillers, pool);
    }
  }

  /** The result lengths of a generated cell that asks for `chars` characters in each. */
  function UniformSizes(chars: int, n: nat): seq<int> {
    AllocateChars(chars * n, n, chars)
  }

  function ReplyTotal(sizes: seq<int>): int {
    if sizes == [] then 0 else ReplyTotal(sizes[..|sizes| - 1]) + ReplyChars(sizes[|sizes| - 1])
  }

  lemma {:induction false} ReplyTotalBounds(sizes: seq<int>, low: int)
    requires forall i :: 0 <= i < |sizes| ==> sizes[i] >= low
    ensures ReplyTotal(sizes) >= Sum(sizes)
    ensures ReplyTotal(sizes) >= ReplyChars(low) * |sizes|
    ensures low >= RESULT_JSON_OVERHEAD + MIN_RESULT_CHARS ==> ReplyTotal(sizes) == Sum(sizes)
  {
    if sizes != [] {
      ReplyTotalBounds(sizes[..|sizes| - 1], low);
      assert ReplyChars(low) * |sizes| == ReplyChars(low) * (|sizes| - 1) + ReplyChars(low);
    }
  }

  lemma {:induction false} AtLeastTheWrapper(sizes: seq<int>)
    ensures ReplyTotal(sizes) >= (RESULT_JSON_OVERHEAD + MIN_RESULT_CHARS) * |sizes|
  {
    if sizes != [] { AtLeastTheWrapper(sizes[..|sizes| - 1]); }
  }

  lemma ExactQuotient(q: int, d: int)
    requires d > 0
    ensures (q * d) / d == q && (q * d) % d == 0
  {
    QuotientAtLeast(q * d, d, q);
    assert (q + 1) * d == q * d + d;
    QuotientAtLeast(q * d, d, q + 1);
    DivideBack(q * d, d);
  }

  lemma Product(a: int, b: int, p: int, q: int)
    requires 0 <= a <= b && 0 <= p <= q
    ensures a * p <= b * q
  {
    assert a * p <= a * q;
    assert (b - a) * q >= 0;
  }

  lemma UniformRoom(chars: int, n: int)
    requires chars >= MIN_RESULT_CHARS && n >= 2
    ensures chars * n > (n - 1) * MIN_RESULT_CHARS && Biggest(chars * n, n, chars) == chars
    ensures chars * n - chars == chars * (n - 1)
  {
    Product(MIN_RESULT_CHARS, chars, n - 1, n - 1);
    assert chars * n == chars * (n - 1) + chars;
  }

  /** With room for the shortest body, every envelope of a generated cell gets the size asked for. */
  lemma UniformSizesAreUniform(chars: int, n: nat, i: nat)
    requires chars >= MIN_RESULT_CHARS && i < n
    ensures |UniformSizes(chars, n)| == n && UniformSizes(chars, n)[i] == chars
    ensures Sum(UniformSizes(chars, n)) == chars * n
  {
    AllocationIsExactIff(chars * n, n, chars);
    if n >= 2 {
      UniformRoom(chars, n);
      ExactQuotient(chars, n - 1);
      EntryValue(chars * n, n, chars, i);
      assert UniformSizes(chars, n)[i] == Entry(chars * n, n, chars, i);
    }
  }

  lemma RoomForTheWrapper(chars: int, n: nat)
    requires n > 0 && chars >= RESULT_JSON_OVERHEAD + MIN_RESULT_CHARS
    ensures ReplyTotal(UniformSizes(chars, n)) == chars * n
  {
    UniformSizesAreUniform(chars, n, 0);
    forall i | 0 <= i < n ensures UniformSizes(chars, n)[i] >= RESULT_JSON_OVERHEAD + MIN_RESULT_CHARS {
      UniformSizesAreUniform(chars, n, i);
    }
    ReplyTotalBounds(UniformSizes(chars, n), RESULT_JSON_OVERHEAD + MIN_RESULT_CHARS);
  }

  lemma SmallerProduct(a: int, b: int, n: nat)
    requires a < b && n > 0
    ensures a * n < b * n
  {
    assert b * n == (b - a) * n + a * n;
    assert (b - a) * n >= n by { Product(1, b - a, n, n); }
  }

  lemma NoRoomForTheWrapper(chars: int, n: nat)
    requires n > 0 && chars < RESULT_JSON_OVERHEAD + MIN_RESULT_CHARS
    ensures ReplyTotal(UniformSizes(chars, n)) > chars * n
  {
    AllocationIsExactIff(chars * n, n, chars);
    AtLeastTheWrapper(UniformSizes(chars, n));
    SmallerProduct(chars, RESULT_JSON_OVERHEAD + MIN_RESULT_CHARS, n);
  }

  function OwnChars(m: Message): int {
    if m.Reply? then m.chars else 0
  }

  /** The characters in a transcript's tool replies. */
  function Chars(s: seq<Message>): int {
    if s == [] then 0 else Chars(s[..|s| - 1]) + OwnChars(s[|s| - 1])
  }

  lemma {:induction false} CharsAppend(a: seq<Message>, b: seq<Message>)
    ensures Chars(a + b) == Chars(a) + Chars(b)
  {
    if b == [] {
      assert a + b == a;
    } else {
      CharsAppend(a, b[..|b| - 1]);
      assert (a + b)[..|a + b| - 1] == a + b[..|b| - 1];
    }
  }

  lemma CharsOfOne(m: Message)
    ensures Chars([m]) == OwnChars(m)
  {
    assert [m][..0] == [];
  }

  /** Fillers hold no reply. */
  lemma {:induction false} CharsWithoutFillers(s: seq<Message>)
    ensures Chars(WithoutFillers(s)) == Chars(s)
  {
    if s != [] {
      CharsWithoutFillers(s[..|s| - 1]);
      CharsAppend(WithoutFillers(s[..|s| - 1]), [s[|s| - 1]]);
      CharsOfOne(s[|s| - 1]);
      if s[|s| - 1] == Filler { assert WithoutFillers(s) == WithoutFillers(s[..|s| - 1]); }
    }
  }

  function Replies(sizes: seq<int>, lo: nat, hi: nat): seq<Message>
    requires lo <= hi <= |sizes|
  {
    seq(hi - lo, k requires 0 <= k < hi - lo => Reply(lo + k, ReplyChars(sizes[lo + k])))
  }

  lemma {:induction false} RepliesChars(sizes: seq<int>, lo: nat, hi: nat)
    requires lo <= hi <= |sizes|
    ensures ReplyTotal(sizes[..lo]) + Chars(Replies(sizes, lo, hi)) == ReplyTotal(sizes[..hi])
    decreases hi
  {
    if lo < hi {
      RepliesChars(sizes, lo, hi - 1);
      assert Replies(sizes, lo, hi)[..hi - lo - 1] == Replies(sizes, lo, hi - 1);
      assert sizes[..hi][..hi - 1] == sizes[..hi - 1];
    }
  }

  lemma TurnChars(sizes: seq<int>, lo: nat, hi: nat)
    requires lo <= hi <= |sizes|
    ensures ReplyTotal(sizes[..lo]) + Chars(Turn(sizes, lo, hi)) == ReplyTotal(sizes[..hi])
  {
    var batch := Assistant(seq(hi - lo, k requires 0 <= k => lo + k));
    assert Turn(sizes, lo, hi) == [batch] + Replies(sizes, lo, hi);
    CharsAppend([batch], Replies(sizes, lo, hi));
    CharsOfOne(batch);
    RepliesChars(sizes, lo, hi);
  }

  lemma OneMoreTurnChars(sizes: seq<int>, perTurn: nat, t: nat)
    requires t > 0
    requires Chars(Native(sizes, perTurn, t - 1)) == ReplyTotal(sizes[..Start(|sizes|, perTurn, t - 1)])
    ensures Chars(Native(sizes, perTurn, t)) == ReplyTotal(sizes[..Start(|sizes|, perTurn, t)])
  {
    var lo, hi := Start(|sizes|, perTurn, t - 1), Start(|sizes|, perTurn, t);
    CharsAppend(Native(sizes, perTurn, t - 1), Turn(sizes, lo, hi));
    TurnChars(sizes, lo, hi);
  }

  lemma OpeningChars(sizes: seq<int>, perTurn: nat)
    ensures Chars(Native(sizes, perTurn, 0)) == ReplyTotal(sizes[..Start(|sizes|, perTurn, 0)])
  {
    CharsOfOne(Opening);
    assert sizes[..0] == [];
  }

  lemma {:induction false} NativeChars(sizes: seq<int>, perTurn: nat, t: nat)
    ensures Chars(Native(sizes, perTurn, t)) == ReplyTotal(sizes[..Start(|sizes|, perTurn, t)])
  {
    if t == 0 {
      OpeningChars(sizes, perTurn);
    } else {
      NativeChars(sizes, perTurn, t - 1);
      OneMoreTurnChars(sizes, perTurn, t);
    }
  }

  /** A built transcript answers every envelope once, with as many characters as its allocation gives. */
  lemma BuiltChars(sizes: seq<int>, perTurn: nat, fillers: int)
    requires perTurn > 0
    ensures Chars(Built(sizes, perTurn, fillers)) == ReplyTotal(sizes)
  {
    if sizes == [] {
      CharsOfOne(Opening);
    } else {
      var native := Native(sizes, perTurn, Batches(|sizes|, perTurn));
      PaddingErases(native, fillers);
      CharsWithoutFillers(native);
      CharsWithoutFillers(Padded(native, fillers));
      NativeChars(sizes, perTurn, Batches(|sizes|, perTurn));
      BatchBounds(|sizes|, perTurn);
      assert sizes[..|sizes|] == sizes;
    }
  }

  /** The reply characters of a built cell equal the claim exactly when each reply has room for its
      JSON wrapper. */
  lemma FileCharsAreExactIff(chars: int, n: nat, perTurn: nat, fillers: int)
    requires n > 0 && perTurn > 0
    ensures Chars(Built(UniformSizes(chars, n), perTurn, fillers)) == chars * n
            <==> chars >= RESULT_JSON_OVERHEAD + MIN_RESULT_CHARS
  {
    BuiltChars(UniformSizes(chars, n), perTurn, fillers);
    if chars >= RESULT_JSON_OVERHEAD + MIN_RESULT_CHARS {
      RoomForTheWrapper(chars, n);
    } else {
      NoRoomForTheWrapper(chars, n);
    }
  }

  /** The claims fail for an empty cell, for negative padding, and for results too short for their wrapper. */
  lemma ClaimExceptions(sizes: seq<int>)
    requires |sizes| == 1
    ensures GeneratedFigures(MadeCalls(0, 0, 1, []), Built([], 24, 0)) != ClaimedFigures(0, 0, 1, 24, 0, [])
    ensures GeneratedFigures(MadeCalls(1, 0, 1, []), Built(sizes, 24, -1)) != ClaimedFigures(1, 0, 1, 24, -1, [])
    ensures GeneratedFigures(MadeCalls(1, 0, 0, []), Built(sizes, 24, 0)) != ClaimedFigures(1, 0, 0, 24, 0, [])
    ensures Chars(Built(UniformSizes(62, 1), 24, 0)) != 62 * 1
  {
    ClaimsAreExactIff([], 0, 0, 1, 24, 0, []);
    ClaimsAreExactIff(sizes, 1, 0, 1, 24, -1, []);
    ClaimsAreExactIff(sizes, 1, 0, 0, 24, 0, []);
    FileCharsAreExactIff(62, 1, 24, 0);
  }

  /** How many messages `BuildMessages` produces for `n` envelopes. */
  function MessageCount(n: nat, perTurn: nat, fillers: int): nat
    requires perTurn > 0
  {
    if n == 0 then 1 else 1 + Batches(n, perTurn) + n + Max(fillers, 0)
  }

  lemma BuiltMessageCount(sizes: seq<int>, perTurn: nat, fillers: int)
    requires perTurn > 0
    ensures |Built(sizes, perTurn, fillers)| == MessageCount(|sizes|, perTurn, fillers)
  {
    if sizes != [] { BuiltCounts(sizes, perTurn, fillers); }
  }

  /** `perTurn` doubled `k` times. */
  function Doubled(perTurn: nat, k: nat): nat {
    if k == 0 then perTurn else 2 * Doubled(perTurn, k - 1)
  }

  lemma {:induction false} DoubledIsPositive(perTurn: nat, k: nat)
    requires perTurn > 0
    ensures Doubled(perTurn, k) > 0
  {
    if k > 0 { DoubledIsPositive(perTurn, k - 1); }
  }

  lemma LargerBatchesAreFewer(n: nat, p: nat, q: nat)
    requires 0 < p <= q
    ensures Batches(n, q) <= Batches(n, p)
  {
    BatchBounds(n, p);
    BatchBounds(n, q);
    if Batches(n, q) > Batches(n, p) {
      StartIs(n, p, Batches(n, p));
      Product(Batches(n, p), Batches(n, q) - 1, p, q);
    }
  }

  /** Doubling makes the transcript no longer. */
  lemma {:induction false} DoublingShortens(n: nat, perTurn: nat, j: nat, k: nat)
    requires perTurn > 0 && j <= k
    ensures Doubled(perTurn, j) > 0 && Doubled(perTurn, k) > 0
    ensures MessageCount(n, Doubled(perTurn, k), 0) <= MessageCount(n, Doubled(perTurn, j), 0)
    decreases k
  {
    DoubledIsPositive(perTurn, j);
    DoubledIsPositive(perTurn, k);
    if j < k {
      DoublingShortens(n, perTurn, j, k - 1);
      DoubledIsPositive(perTurn, k - 1);
      LargerBatchesAreFewer(n, Doubled(perTurn, k - 1), Doubled(perTurn, k));
    }
  }

  const FIT_ATTEMPTS := 6

  /** When fitting reaches the wanted count: the transcript has calls and five doublings make it
      short enough, or the sixth hits the count by chance, or there is nothing to fit. */
  predicate Fittable(n: nat, perTurn: nat, wanted: int)
    requires perTurn > 0
  {
    DoubledIsPositive(perTurn, 5);
    DoubledIsPositive(perTurn, 6);
    if n == 0 then wanted == 1
    else MessageCount(n, Doubled(perTurn, 5), 0) <= wanted || MessageCount(n, Doubled(perTurn, 6), 0) == wanted
  }

  /** Where fitting is: the edited entries, the attempts made, and the transcript built. */
  datatype Progress = Progress(callsPerTurn: nat, fillers: int, attempt: nat, messages: seq<Message>, starts: seq<nat>)

  /** The two entries of a calibrated shape that fitting edits in place. */
  class ShapeSpec {
    var callsPerTurn: nat
    var fillers: int

    constructor (callsPerTurn: nat, fillers: int)
      ensures this.callsPerTurn == callsPerTurn && this.fillers == fillers
    {
      this.callsPerTurn, this.fillers := callsPerTurn, fillers;
    }

    ghost function At(attempt: nat, messages: seq<Message>, starts: seq<nat>): Progress
      reads this
    {
      Progress(callsPerTurn, fillers, attempt, messages, starts)
    }
  }

  ghost predicate Longer(n: nat, perTurn: nat, j: nat, wanted: int)
    requires perTurn > 0
  {
    DoubledIsPositive(perTurn, j);
    MessageCount(n, Doubled(perTurn, j), 0) > wanted
  }

  /** Every attempt so far doubled the batch size, because the last transcript was still too long. */
  ghost predicate StillDoubling(n: nat, perTurn: nat, wanted: int, attempt: nat, callsPerTurn: nat, fillers: int)
    requires perTurn > 0
  {
    && callsPerTurn == Doubled(perTurn, attempt) && fillers == 0
    && (attempt > 0 ==> Longer(n, perTurn, attempt - 1, wanted))
  }

  /** The state of fitting after `attempt` attempts: still doubling, or done, or hopeless. */
  ghost predicate Fitting(n: nat, perTurn: nat, wanted: int, attempt: nat, callsPerTurn: nat, fillers: int)
    requires perTurn > 0 && callsPerTurn > 0
  {
    || StillDoubling(n, perTurn, wanted, attempt, callsPerTurn, fillers)
    || (&& n > 0 && attempt > 0 && MessageCount(n, callsPerTurn, fillers) == wanted
        && !Longer(n, perTurn, attempt - 1, wanted))
    || (n == 0 && wanted > 1 && attempt > 0)
  }

  lemma DoublingEnds(n: nat, perTurn: nat, wanted: int, attempt: nat)
    requires perTurn > 0 && attempt <= FIT_ATTEMPTS && Doubled(perTurn, attempt) > 0
    requires attempt > 0 ==> Longer(n, perTurn, attempt - 1, wanted)
    requires attempt == FIT_ATTEMPTS || MessageCount(n, Doubled(perTurn, attempt), 0) == wanted
    ensures MessageCount(n, Doubled(perTurn, attempt), 0) == wanted <==> Fittable(n, perTurn, wanted)
  {
    if attempt < FIT_ATTEMPTS { DoublingShortens(n, perTurn, attempt, 5); }
  }

  lemma FittingEnds(n: nat, perTurn: nat, wanted: int, attempt: nat, callsPerTurn: nat, fillers: int)
    requires perTurn > 0 && callsPerTurn > 0 && attempt <= FIT_ATTEMPTS
    requires Fitting(n, perTurn, wanted, attempt, callsPerTurn, fillers)
    requires attempt == FIT_ATTEMPTS || MessageCount(n, callsPerTurn, fillers) == wanted
    ensures MessageCount(n, callsPerTurn, fillers) == wanted <==> Fittable(n, perTurn, wanted)
  {
    if StillDoubling(n, perTurn, wanted, attempt, callsPerTurn, fillers) {
      DoublingEnds(n, perTurn, wanted, attempt);
    } else if n > 0 {
      DoublingShortens(n, perTurn, attempt - 1, 5);
    }
  }

  lemma FillersAdd(n: nat, perTurn: nat, fillers: nat, more: nat)
    requires perTurn > 0 && n > 0
    ensures MessageCount(n, perTurn, fillers + more) == MessageCount(n, perTurn, fillers) + more
  {
  }

  lemma FittingStep(n: nat, perTurn: nat, wanted: int, attempt: nat, callsPerTurn: nat, fillers: int)
    requires perTurn > 0 && callsPerTurn > 0
    requires Fitting(n, perTurn, wanted, attempt, callsPerTurn, fillers)
    ensures var deficit := wanted - MessageCount(n, callsPerTurn, fillers);
            && (deficit > 0 ==> Fitting(n, perTurn, wanted, attempt + 1, callsPerTurn, fillers + deficit))
            && (deficit < 0 ==> Fitting(n, perTurn, wanted, attempt + 1, callsPerTurn * 2, 0))
  {
    var deficit := wanted - MessageCount(n, callsPerTurn, fillers);
    if StillDoubling(n, perTurn, wanted, attempt, callsPerTurn, fillers) {
      assert Longer(n, perTurn, attempt, wanted) <==> deficit < 0;
      if deficit < 0 {
        assert StillDoubling(n, perTurn, wanted, attempt + 1, callsPerTurn * 2, 0);
      } else if deficit > 0 && n > 0 {
        FillersAdd(n, callsPerTurn, 0, deficit);
      }
    }
  }

  /** The transcript is the one the edited shape builds, and fitting is as far as `attempt`. */
  ghost predicate Fitted(sizes: seq<int>, perTurn: nat, wanted: int, p: Progress) {
    match p
    case Progress(callsPerTurn, fillers, attempt, messages, starts) =>
      && perTurn > 0 && callsPerTurn > 0
      && messages == Built(sizes, callsPerTurn, fillers) && starts == Turns(messages)
      && |messages| == MessageCount(|sizes|, callsPerTurn, fillers)
      && Fitting(|sizes|, perTurn, wanted, attempt, callsPerTurn, fillers)
  }

  lemma FittingStarts(sizes: seq<int>, perTurn: nat, wanted: int, messages: seq<Message>, starts: seq<nat>)
    requires perTurn > 0 && messages == Built(sizes, perTurn, 0) && starts == Turns(messages)
    ensures Fitted(sizes, perTurn, wanted, Progress(perTurn, 0, 0, messages, starts))
  {
    BuiltMessageCount(sizes, perTurn, 0);
    assert StillDoubling(|sizes|, perTurn, wanted, 0, perTurn, 0);
  }

  lemma FittedEnds(sizes: seq<int>, perTurn: nat, wanted: int, p: Progress)
    requires Fitted(sizes, perTurn, wanted, p) && p.attempt <= FIT_ATTEMPTS
    requires p.attempt == FIT_ATTEMPTS || |p.messages| == wanted
    ensures p.callsPerTurn > 0 && p.messages == Built(sizes, p.callsPerTurn, p.fillers) && p.starts == Turns(p.messages)
    ensures perTurn > 0 && (|p.messages| == wanted <==> Fittable(|sizes|, perTurn, wanted))
  {
    FittingEnds(|sizes|, perTurn, wanted, p.attempt, p.callsPerTurn, p.fillers);
  }

  /** One attempt: pad a short transcript, batch the calls of a long one, and build again. */
  method Adjust(spec: ShapeSpec, sizes: seq<int>, wanted: int, current: seq<Message>,
                ghost perTurn: nat, ghost attempt: nat, ghost before: seq<nat>)
    returns (messages: seq<Message>, starts: seq<nat>)
    requires |current| != wanted
    requires Fitted(sizes, perTurn, wanted, spec.At(attempt, current, before))
    modifies spec
    ensures Fitted(sizes, perTurn, wanted, spec.At(attempt + 1, messages, starts))
  {
    var deficit := wanted - |current|;
    FittingStep(|sizes|, perTurn, wanted, attempt, spec.callsPerTurn, spec.fillers);
    if deficit > 0 {
      spec.fillers := spec.fillers + deficit;
    } else {
      spec.fillers := 0;
      spec.callsPerTurn := spec.callsPerTurn * 2;
    }
    messages, starts := BuildMessages(sizes, spec.callsPerTurn, spec.fillers);
    BuiltMessageCount(sizes, spec.callsPerTurn, spec.fillers);
  }

  /** The attempts, which end early once the count is hit. */
  method Attempt(spec: ShapeSpec, sizes: seq<int>, wanted: int, unpadded: seq<Message>, turns: seq<nat>,
                 ghost perTurn: nat)
    returns (messages: seq<Message>, starts: seq<nat>, attempt: nat)
    requires Fitted(sizes, perTurn, wanted, spec.At(0, unpadded, turns))
    modifies spec
    ensures attempt == FIT_ATTEMPTS || (attempt < FIT_ATTEMPTS && |messages| == wanted)
    ensures Fitted(sizes, perTurn, wanted, spec.At(attempt, messages, starts))
  {
    messages, starts, attempt := unpadded, turns, 0;
    while attempt < FIT_ATTEMPTS && |messages| != wanted
      invariant attempt <= FIT_ATTEMPTS
      invariant Fitted(sizes, perTurn, wanted, spec.At(attempt, messages, starts))
    {
      messages, starts := Adjust(spec, sizes, wanted, messages, perTurn, attempt, starts);
      attempt := attempt + 1;
    }
  }

  /** Fitting returns exactly the wanted number of messages if and only if it is reachable. */
  method FitShape(spec: ShapeSpec, sizes: seq<int>, wanted: int, unpadded: seq<Message>, turns: seq<nat>)
    returns (messages: seq<Message>, starts: seq<nat>)
    requires spec.callsPerTurn > 0 && spec.fillers == 0
    requires unpadded == Built(sizes, spec.callsPerTurn, 0) && turns == Turns(unpadded)
    modifies spec
    ensures spec.callsPerTurn > 0
    ensures messages == Built(sizes, spec.callsPerTurn, spec.fillers) && starts == Turns(messages)
    ensures |messages| == wanted <==> Fittable(|sizes|, old(spec.callsPerTurn), wanted)
  {
    ghost var perTurn := spec.callsPerTurn;
    FittingStarts(sizes, perTurn, wanted, unpadded, turns);
    var attempt;
    messages, starts, attempt := Attempt(spec, sizes, wanted, unpadded, turns, perTurn);
    FittedEnds(sizes, perTurn, wanted, spec.At(attempt, messages, starts));
  }

  /** A transcript that 24 doubled five times can hold in one batch per turn is always reachable. */
  lemma CalibratedFit(n: nat, wanted: int)
    requires n > 0
    ensures 1 + n + Batches(n, 768) <= wanted ==> Fittable(n, 24, wanted)
  {
    assert Doubled(24, 1) == 48 && Doubled(24, 2) == 96 && Doubled(24, 3) == 192 && Doubled(24, 4) == 384
           && Doubled(24, 5) == 768;
  }
}
