/** Building a native transcript from a shape, and the figures the shape claims for it
    (scripts/bench_c1_latency.py: `build_messages`, `build_seeds`, `_make_calls`, `claimed_shape`, `_fit_shape`). */
module TranscriptShape {
  import opened Shares
  import opened Transcript

  const RESULT_JSON_OVERHEAD := 31

  /** The length of a generated tool result whose envelope was allocated `size` characters. */
  function ReplyChars(size: int): int {
    RESULT_JSON_OVERHEAD + Max(size - RESULT_JSON_OVERHEAD, MIN_RESULT_CHARS)
  }

  /** One assistant turn announcing the envelopes from `lo` to `hi`, and their replies. */
  function Turn(sizes: seq<int>, lo: nat, hi: nat): (s: seq<Message>)
    requires lo <= hi <= |sizes|
    ensures |s| == hi - lo + 1
  {
    [Assistant(seq(hi - lo, k requires 0 <= k => lo + k))] +
    seq(hi - lo, k requires 0 <= k < hi - lo => Reply(lo + k, ReplyChars(sizes[lo + k])))
  }

  /** How many envelopes the first `t` turns hold. */
  function Start(n: nat, perTurn: nat, t: nat): (s: nat)
    ensures s <= n
  {
    if t == 0 then 0 else Min(Start(n, perTurn, t - 1) + perTurn, n)
  }

  lemma {:induction false} StartIs(n: nat, perTurn: nat, t: nat)
    ensures Start(n, perTurn, t) == Min(t * perTurn, n)
  {
    if t > 0 {
      StartIs(n, perTurn, t - 1);
      assert t * perTurn == (t - 1) * perTurn + perTurn;
    }
  }

  function Batches(n: nat, perTurn: nat): nat
    requires perTurn > 0
  {
    (n + perTurn - 1) / perTurn
  }

  /** How many messages the opening and the first `t` turns take. */
  function Length(n: nat, perTurn: nat, t: nat): nat {
    1 + Start(n, perTurn, t) + t
  }

  /** The opening message and the first `t` turns, before padding. */
  function Native(sizes: seq<int>, perTurn: nat, t: nat): (s: seq<Message>)
    ensures |s| == Length(|sizes|, perTurn, t)
  {
    if t == 0 then
      [Opening]
    else
      Native(sizes, perTurn, t - 1) + Turn(sizes, Start(|sizes|, perTurn, t - 1), Start(|sizes|, perTurn, t))
  }

  /** The whole transcript. */
  function Built(sizes: seq<int>, perTurn: nat, fillers: int): seq<Message>
    requires perTurn > 0
  {
    if sizes == [] then [Opening]
    else Padded(Native(sizes, perTurn, Batches(|sizes|, perTurn)), fillers)
  }

  lemma BatchesCover(n: nat, perTurn: nat)
    requires perTurn > 0
    ensures var b := Batches(n, perTurn);
            && b * perTurn >= n && (n > 0 ==> b > 0 && (b - 1) * perTurn < n) && (n == 0 ==> b == 0)
  {
    var b := Batches(n, perTurn);
    DivideBack(n + perTurn - 1, perTurn);
    assert b * perTurn == (b - 1) * perTurn + perTurn;
    QuotientAtLeast(n + perTurn - 1, perTurn, 1);
  }

  lemma BatchBounds(n: nat, perTurn: nat)
    requires perTurn > 0
    ensures var b := Batches(n, perTurn);
            && Start(n, perTurn, b) == n
            && (n > 0 ==> b > 0 && Start(n, perTurn, b - 1) == (b - 1) * perTurn < n)
            && (n == 0 ==> b == 0)
  {
    BatchesCover(n, perTurn);
    StartIs(n, perTurn, Batches(n, perTurn));
    if n > 0 { StartIs(n, perTurn, Batches(n, perTurn) - 1); }
  }

  function Shifted(turns: seq<nat>, offset: nat): (r: seq<nat>)
    ensures |r| == |turns|
  {
    seq(|turns|, i requires 0 <= i < |turns| => turns[i] + offset)
  }

  lemma {:induction false} TurnsAppend(a: seq<Message>, b: seq<Message>)
    ensures Turns(a + b) == Turns(a) + Shifted(Turns(b), |a|)
  {
    if b == [] {
      assert a + b == a;
    } else {
      var rest := b[..|b| - 1];
      assert (a + b)[..|a + b| - 1] == a + rest;
      TurnsAppend(a, rest);
      assert Shifted(Turns(rest) + [|rest|], |a|) == Shifted(Turns(rest), |a|) + [|a| + |rest|];
    }
  }

  lemma {:induction false} NoTurns(s: seq<Message>)
    requires forall i :: 0 <= i < |s| ==> !IsTurn(s[i])
    ensures Turns(s) == []
  {
    if s != [] { NoTurns(s[..|s| - 1]); }
  }

  /** A turn holds one `tool_calls` message, its first. */
  lemma TurnsOfTurn(sizes: seq<int>, lo: nat, hi: nat)
    requires lo <= hi <= |sizes|
    ensures Turns(Turn(sizes, lo, hi)) == [0]
  {
    var t := Turn(sizes, lo, hi);
    NoTurns(t[1..]);
    TurnsAppend(t[..1], t[1..]);
    assert t[..1] + t[1..] == t;
    assert t[..1][..0] == [];
    assert Turns(t[..1]) == [0];
    assert Shifted([], 1) == [];
  }

  lemma PlusOneTurn(s: seq<Message>, turn: seq<Message>)
    requires Turns(turn) == [0]
    ensures Turns(s + turn) == Turns(s) + [|s|]
  {
    TurnsAppend(s, turn);
    assert Shifted([0], |s|) == [|s|];
  }

  /** The index at which each of the first `t` turns starts: where the turns before it end. */
  function TurnStarts(n: nat, perTurn: nat, t: nat): (r: seq<nat>)
    ensures |r| == t
  {
    if t == 0 then [] else TurnStarts(n, perTurn, t - 1) + [Length(n, perTurn, t - 1)]
  }

  /** The last message of the opening and of each of the first `t` turns. */
  function TurnEnds(n: nat, perTurn: nat, t: nat): (r: seq<nat>)
    ensures |r| == t + 1
  {
    if t == 0 then [0] else TurnEnds(n, perTurn, t - 1) + [Length(n, perTurn, t) - 1]
  }

  lemma {:induction false} TurnStartAt(n: nat, perTurn: nat, t: nat, j: nat)
    requires j < t
    ensures TurnStarts(n, perTurn, t)[j] == Length(n, perTurn, j)
  {
    if j < t - 1 { TurnStartAt(n, perTurn, t - 1, j); }
  }

  lemma {:induction false} TurnEndAt(n: nat, perTurn: nat, t: nat, j: nat)
    requires j <= t
    ensures TurnEnds(n, perTurn, t)[j] == Length(n, perTurn, j) - 1
  {
    if j < t { TurnEndAt(n, perTurn, t - 1, j); }
  }

  lemma {:induction false} NativeTurns(sizes: seq<int>, perTurn: nat, t: nat)
    ensures Turns(Native(sizes, perTurn, t)) == TurnStarts(|sizes|, perTurn, t)
  {
    var n := |sizes|;
    if t == 0 {
      NoTurns([Opening]);
    } else {
      NativeTurns(sizes, perTurn, t - 1);
      TurnsOfTurn(sizes, Start(n, perTurn, t - 1), Start(n, perTurn, t));
      PlusOneTurn(Native(sizes, perTurn, t - 1), Turn(sizes, Start(n, perTurn, t - 1), Start(n, perTurn, t)));
    }
  }

  /** An earlier stage of the transcript is a prefix of a later one. */
  lemma {:induction false} NativePrefix(sizes: seq<int>, perTurn: nat, j: nat, t: nat)
    requires j <= t
    ensures Length(|sizes|, perTurn, j) <= Length(|sizes|, perTurn, t)
    ensures Native(sizes, perTurn, t)[..Length(|sizes|, perTurn, j)] == Native(sizes, perTurn, j)
    decreases t
  {
    if j < t {
      NativePrefix(sizes, perTurn, j, t - 1);
    } else {
      assert Native(sizes, perTurn, t)[..Length(|sizes|, perTurn, t)] == Native(sizes, perTurn, t);
    }
  }

  /** The slice between two stages is one turn. */
  lemma NativeSlice(sizes: seq<int>, perTurn: nat, j: nat, t: nat)
    requires j < t
    ensures Start(|sizes|, perTurn, j) <= Start(|sizes|, perTurn, j + 1) <= |sizes|
    ensures Length(|sizes|, perTurn, j) <= Length(|sizes|, perTurn, j + 1) <= Length(|sizes|, perTurn, t)
    ensures Native(sizes, perTurn, t)[Length(|sizes|, perTurn, j)..Length(|sizes|, perTurn, j + 1)] ==
            Turn(sizes, Start(|sizes|, perTurn, j), Start(|sizes|, perTurn, j + 1))
  {
    NativePrefix(sizes, perTurn, j + 1, t);
    var s, p, q := Native(sizes, perTurn, t), Length(|sizes|, perTurn, j), Length(|sizes|, perTurn, j + 1);
    assert s[p..q] == s[..q][p..];
  }

  lemma {:induction false} LastReplyIs(s: seq<Message>, i: nat, r: nat)
    requires i <= r < |s| && (forall k :: i < k <= r ==> s[k].Reply?) && (r + 1 < |s| ==> !s[r + 1].Reply?)
    ensures LastReply(s, i) == r
    decreases r - i
  {
    if i < r { LastReplyIs(s, i + 1, r); }
  }

  /** Turn `j` is an assistant message, then replies only. */
  lemma NativeTurnShape(sizes: seq<int>, perTurn: nat, j: nat, t: nat)
    requires j < t
    ensures var s, p, q := Native(sizes, perTurn, t), Length(|sizes|, perTurn, j), Length(|sizes|, perTurn, j + 1);
            p < q <= |s| && IsTurn(s[p]) && forall k :: p < k < q ==> s[k].Reply?
  {
    NativeSlice(sizes, perTurn, j, t);
    var s, p, q := Native(sizes, perTurn, t), Length(|sizes|, perTurn, j), Length(|sizes|, perTurn, j + 1);
    var turn := Turn(sizes, Start(|sizes|, perTurn, j), Start(|sizes|, perTurn, j + 1));
    forall k | p <= k < q ensures s[k] == turn[k - p] { assert s[p..q][k - p] == s[k]; }
  }

  lemma RepliesUpTo(s: seq<Message>, p: nat, q: nat)
    requires p < q <= |s| && (forall k :: p < k < q ==> s[k].Reply?) && (q < |s| ==> IsTurn(s[q]))
    ensures LastReply(s, p) == q - 1
  {
    LastReplyIs(s, p, q - 1);
  }

  lemma NextTurnFollows(sizes: seq<int>, perTurn: nat, j: nat, t: nat)
    requires j < t
    ensures var s, q := Native(sizes, perTurn, t), Length(|sizes|, perTurn, j + 1); q < |s| ==> IsTurn(s[q])
  {
    if j + 1 < t { NativeTurnShape(sizes, perTurn, j + 1, t); }
  }

  /** The replies of turn `j` run up to the start of the next. */
  lemma NativeLastReply(sizes: seq<int>, perTurn: nat, j: nat, t: nat)
    requires j < t
    ensures Length(|sizes|, perTurn, j) < Length(|sizes|, perTurn, t)
    ensures LastReply(Native(sizes, perTurn, t), Length(|sizes|, perTurn, j)) == Length(|sizes|, perTurn, j + 1) - 1
  {
    NativeTurnShape(sizes, perTurn, j, t);
    NextTurnFollows(sizes, perTurn, j, t);
    RepliesUpTo(Native(sizes, perTurn, t), Length(|sizes|, perTurn, j), Length(|sizes|, perTurn, j + 1));
  }

  /** When every turn ends later than the one before it, the anchors are the ends. */
  lemma {:induction false} AnchorsAreEnds(s: seq<Message>, turns: seq<nat>, ends: seq<nat>, k: nat)
    requires Bounded(turns, |s|) && k <= |turns| && |ends| == |turns| + 1 && ends[0] == 0
    requires forall j :: 0 <= j < |turns| ==> LastReply(s, turns[j]) == ends[j + 1] && ends[j] < ends[j + 1]
    ensures Anchors(s, turns, k) == ends[..k + 1]
  {
    if k == 0 {
      assert ends[..1] == [0];
    } else {
      AnchorsAreEnds(s, turns, ends, k - 1);
      assert ends[..k + 1] == ends[..k] + [ends[k]];
    }
  }

  lemma NativeTurnEnds(sizes: seq<int>, perTurn: nat, t: nat, j: nat)
    requires j < t
    ensures var n, s := |sizes|, Native(sizes, perTurn, t);
            && TurnStarts(n, perTurn, t)[j] < |s|
            && LastReply(s, TurnStarts(n, perTurn, t)[j]) == TurnEnds(n, perTurn, t)[j + 1]
            && TurnEnds(n, perTurn, t)[j] < TurnEnds(n, perTurn, t)[j + 1]
  {
    TurnStartAt(|sizes|, perTurn, t, j);
    TurnEndAt(|sizes|, perTurn, t, j);
    TurnEndAt(|sizes|, perTurn, t, j + 1);
    NativeLastReply(sizes, perTurn, j, t);
  }

  /** An unpadded transcript has one anchor per stage, at its last message. */
  lemma NativeAnchors(sizes: seq<int>, perTurn: nat, t: nat)
    ensures AllAnchors(Native(sizes, perTurn, t)) == TurnEnds(|sizes|, perTurn, t)
  {
    var s, turns, ends := Native(sizes, perTurn, t), TurnStarts(|sizes|, perTurn, t), TurnEnds(|sizes|, perTurn, t);
    NativeTurns(sizes, perTurn, t);
    TurnsInRange(s);
    forall j | 0 <= j < |turns| ensures LastReply(s, turns[j]) == ends[j + 1] && ends[j] < ends[j + 1] {
      NativeTurnEnds(sizes, perTurn, t, j);
    }
    TurnEndAt(|sizes|, perTurn, t, 0);
    AnchorsAreEnds(s, turns, ends, t);
    assert ends[..t + 1] == ends;
  }

  lemma OpeningSlice(sizes: seq<int>, perTurn: nat, t: nat)
    ensures |Native(sizes, perTurn, t)| >= 1
    ensures Slice(Native(sizes, perTurn, t), 0, 1) == [Opening] && Turns([Opening]) == []
  {
    NativePrefix(sizes, perTurn, 0, t);
    NoTurns([Opening]);
  }

  lemma TurnSlice(sizes: seq<int>, perTurn: nat, t: nat, j: nat)
    requires j < t
    ensures Turns(Slice(Native(sizes, perTurn, t), Length(|sizes|, perTurn, j), Length(|sizes|, perTurn, j + 1))) == [0]
  {
    NativeSlice(sizes, perTurn, j, t);
    TurnsOfTurn(sizes, Start(|sizes|, perTurn, j), Start(|sizes|, perTurn, j + 1));
  }

  /** Where slice `k` of a native transcript is cut. */
  lemma NativeCut(sizes: seq<int>, perTurn: nat, t: nat, k: nat)
    requires k <= t
    ensures var s, anchors := Native(sizes, perTurn, t), TurnEnds(|sizes|, perTurn, t);
            && Cut(s, anchors, k + 1) == Length(|sizes|, perTurn, k) <= |s|
            && Cut(s, anchors, 0) == 0
  {
    TurnEndAt(|sizes|, perTurn, t, k);
    NativePrefix(sizes, perTurn, k, t);
  }

  /** The turns of a padded native transcript: after weaving `k + 1` slices there are `k`, and the
      last of them starts after the fillers of all earlier slices. */
  lemma {:induction false} WovenTurns(sizes: seq<int>, perTurn: nat, t: nat, shares: seq<int>, k: nat)
    requires k <= t && |shares| == t + 1
    requires AnchorsOf(Native(sizes, perTurn, t), TurnEnds(|sizes|, perTurn, t))
    requires forall i :: 0 <= i < |shares| ==> shares[i] >= 0
    ensures var turns := Turns(Woven(Native(sizes, perTurn, t), TurnEnds(|sizes|, perTurn, t), shares, k + 1));
            |turns| == k &&
            (k > 0 ==> turns[k - 1] == Length(|sizes|, perTurn, k - 1) + Sum(shares[..k]))
  {
    var s, anchors := Native(sizes, perTurn, t), TurnEnds(|sizes|, perTurn, t);
    var w := Woven(s, anchors, shares, k);
    var slice := Slice(s, Cut(s, anchors, k), Cut(s, anchors, k + 1));
    TurnsAppend(w + slice, Fillers(shares[k]));
    TurnsAppend(w, slice);
    NoTurns(Fillers(shares[k]));
    NativeCut(sizes, perTurn, t, k);
    if k == 0 {
      OpeningSlice(sizes, perTurn, t);
    } else {
      NativeCut(sizes, perTurn, t, k - 1);
      TurnSlice(sizes, perTurn, t, k - 1);
      WovenLength(s, anchors, shares, k);
      WovenTurns(sizes, perTurn, t, shares, k - 1);
    }
  }

  /** How many messages a shape claims, and where its newest assistant turn starts. */
  function ClaimedMessages(n: nat, perTurn: nat, fillers: int): int
    requires perTurn > 0
  {
    1 + Batches(n, perTurn) + n + fillers
  }

  function ClaimedSeed(n: nat, perTurn: nat, fillers: int): int
    requires perTurn > 0
  {
    var batches := Batches(n, perTurn);
    var shares := if fillers != 0 then Distribute(fillers, batches + 1) else seq(batches + 1, i => 0);
    1 + (perTurn + 1) * Max(batches - 1, 0) + Sum(if batches <= |shares| then shares[..batches] else shares)
  }

  lemma NoShares(b: nat, fillers: int)
    requires fillers <= 0
    ensures Sum((if fillers != 0 then Distribute(fillers, b + 1) else seq(b + 1, i => 0))[..b]) == 0
  {
    var shares := if fillers != 0 then Distribute(fillers, b + 1) else seq(b + 1, i => 0);
    QuotientAtLeast(0, b + 1, 1);
    DivideBack(0, b + 1);
    assert shares[..b] == Even(0, 0, b);
    EvenSum(0, 0, b);
  }

  /** The claimed seed length, as the length of all turns but the last plus the earlier shares. */
  lemma ClaimedSeedIs(sizes: seq<int>, perTurn: nat, fillers: int)
    requires perTurn > 0 && sizes != []
    ensures var b := Batches(|sizes|, perTurn);
            && b > 0 && |Distribute(fillers, b + 1)| == b + 1
            && ClaimedSeed(|sizes|, perTurn, fillers) ==
               Length(|sizes|, perTurn, b - 1) + (if fillers > 0 then Sum(Distribute(fillers, b + 1)[..b]) else 0)
  {
    var b := Batches(|sizes|, perTurn);
    BatchBounds(|sizes|, perTurn);
    assert (perTurn + 1) * (b - 1) == (b - 1) * perTurn + (b - 1);
    if fillers <= 0 { NoShares(b, fillers); }
  }

  lemma PaddedNative(sizes: seq<int>, perTurn: nat, t: nat, fillers: int)
    requires fillers > 0
    ensures AnchorsOf(Native(sizes, perTurn, t), TurnEnds(|sizes|, perTurn, t))
    ensures |Distribute(fillers, t + 1)| == t + 1
    ensures Padded(Native(sizes, perTurn, t), fillers) ==
            Woven(Native(sizes, perTurn, t), TurnEnds(|sizes|, perTurn, t), Distribute(fillers, t + 1), t + 1)
  {
    var native := Native(sizes, perTurn, t);
    AllAnchorsIncrease(native);
    NativeAnchors(sizes, perTurn, t);
    NativeCut(sizes, perTurn, t, t);
    assert native[Cut(native, TurnEnds(|sizes|, perTurn, t), t + 1)..] == [];
  }

  lemma NewestTurn(sizes: seq<int>, perTurn: nat, t: nat, fillers: int)
    requires t > 0
    ensures |Distribute(fillers, t + 1)| == t + 1
    ensures var turns := Turns(Padded(Native(sizes, perTurn, t), fillers));
            |turns| == t &&
            turns[t - 1] == Length(|sizes|, perTurn, t - 1)
              + (if fillers > 0 then Sum(Distribute(fillers, t + 1)[..t]) else 0)
  {
    if fillers <= 0 {
      NativeTurns(sizes, perTurn, t);
      TurnStartAt(|sizes|, perTurn, t, t - 1);
    } else {
      PaddedNative(sizes, perTurn, t, fillers);
      DistributeIsFair(fillers, t + 1);
      WovenTurns(sizes, perTurn, t, Distribute(fillers, t + 1), t);
    }
  }

  /** The counted facts about a built transcript. */
  lemma BuiltCounts(sizes: seq<int>, perTurn: nat, fillers: int)
    requires perTurn > 0 && sizes != []
    ensures var s, b := Built(sizes, perTurn, fillers), Batches(|sizes|, perTurn);
            && b > 0
            && |s| == 1 + b + |sizes| + Max(fillers, 0)
            && |Turns(s)| == b
            && Turns(s)[b - 1] == ClaimedSeed(|sizes|, perTurn, fillers)
            && Turns(s)[b - 1] < |s|
  {
    var b := Batches(|sizes|, perTurn);
    BatchBounds(|sizes|, perTurn);
    ClaimedSeedIs(sizes, perTurn, fillers);
    NewestTurn(sizes, perTurn, b, fillers);
    TurnsInRange(Built(sizes, perTurn, fillers));
    PaddingIsTransparent(Native(sizes, perTurn, b), fillers);
  }

  datatype Target = NoFile | RepositoryFile(path: string) | Synthetic(mod: nat, unit: nat)

  datatype Call = FileCall(reading: bool, target: Target) | OtherCall(tool: nat)

  /** The `index`-th envelope target, cycling over the tracked files when there are any. */
  function SynthFile(index: nat, pool: seq<string>): Target {
    if pool == [] then Synthetic(index % 997, index / 997)
    else RepositoryFile(pool[index % |pool|])
  }

  function FileCalls(count: nat, distinct: nat, pool: seq<string>): seq<Call>
    requires distinct > 0
  {
    seq(count, i requires 0 <= i => FileCall(i % 4 != 0, SynthFile(i % distinct, pool)))
  }

  const OTHER_TOOLS := 2

  function OtherCalls(count: nat): seq<Call> {
    seq(count, i requires 0 <= i => OtherCall(i % OTHER_TOOLS))
  }

  /** The calls that round `k` adds. */
  function Round(list: seq<Call>, k: nat): (r: seq<Call>)
    ensures |r| == Min(k + 1, |list|) - Min(k, |list|) <= 1
    ensures list[..Min(k + 1, |list|)] == list[..Min(k, |list|)] + r
  {
    if k < |list| then [list[k]] else []
  }

  /** The first `k` rounds of taking one call from each list while it lasts. */
  function Interleaved(files: seq<Call>, others: seq<Call>, k: nat): seq<Call> {
    if k == 0 then []
    else Interleaved(files, others, k - 1) + Round(files, k - 1) + Round(others, k - 1)
  }

  function FilesOf(calls: seq<Call>): seq<Call> {
    if calls == [] then []
    else FilesOf(calls[..|calls| - 1]) + (if calls[|calls| - 1].FileCall? then [calls[|calls| - 1]] else [])
  }

  lemma FilesOfMore(calls: seq<Call>, c: Call)
    ensures FilesOf(calls + [c]) == FilesOf(calls) + (if c.FileCall? then [c] else [])
  {
    assert (calls + [c])[..|calls|] == calls;
  }

  ghost predicate AllFileCalls(list: seq<Call>) {
    forall i :: 0 <= i < |list| ==> list[i].FileCall?
  }

  lemma FilesOfFiles(calls: seq<Call>, files: seq<Call>)
    requires |files| <= 1 && AllFileCalls(files)
    ensures FilesOf(calls + files) == FilesOf(calls) + files
  {
    if files == [] {
      assert calls + files == calls;
    } else {
      FilesOfMore(calls, files[0]);
      assert files == [files[0]];
    }
  }

  ghost predicate NoFileCalls(list: seq<Call>) {
    forall i :: 0 <= i < |list| ==> list[i].OtherCall?
  }

  lemma FilesOfOthers(calls: seq<Call>, others: seq<Call>)
    requires |others| <= 1 && NoFileCalls(others)
    ensures FilesOf(calls + others) == FilesOf(calls)
  {
    if others == [] {
      assert calls + others == calls;
    } else {
      FilesOfMore(calls, others[0]);
      assert others == [others[0]];
    }
  }

  lemma OneRound(calls: seq<Call>, files: seq<Call>, others: seq<Call>, before: seq<Call>, after: seq<Call>)
    requires |files| <= 1 && |others| <= 1 && AllFileCalls(files) && NoFileCalls(others)
    requires FilesOf(calls) == before && after == before + files
    ensures FilesOf(calls + files + others) == after
  {
    FilesOfFiles(calls, files);
    FilesOfOthers(calls + files, others);
  }

  lemma InterleavedStep(files: seq<Call>, others: seq<Call>, k: nat)
    ensures Interleaved(files, others, k + 1) ==
            Interleaved(files, others, k) + Round(files, k) + Round(others, k)
  {
  }

  lemma {:induction false} InterleavedLength(files: seq<Call>, others: seq<Call>, k: nat)
    ensures |Interleaved(files, others, k)| == Min(k, |files|) + Min(k, |others|)
  {
    if k > 0 { InterleavedLength(files, others, k - 1); }
  }

  lemma RoundKinds(files: seq<Call>, others: seq<Call>, k: nat)
    requires AllFileCalls(files) && NoFileCalls(others)
    ensures AllFileCalls(Round(files, k)) && NoFileCalls(Round(others, k))
  {
  }

  lemma NothingFiled(files: seq<Call>, others: seq<Call>)
    ensures FilesOf(Interleaved(files, others, 0)) == files[..Min(0, |files|)]
  {
  }

  /** Interleaving keeps the file calls complete and in order. */
  lemma {:induction false} InterleavedKeepsFiles(files: seq<Call>, others: seq<Call>, k: nat)
    requires AllFileCalls(files) && NoFileCalls(others)
    ensures FilesOf(Interleaved(files, others, k)) == files[..Min(k, |files|)]
  {
    hide Interleaved, FilesOf, AllFileCalls, NoFileCalls, Round;
    if k == 0 {
      NothingFiled(files, others);
    } else {
      InterleavedKeepsFiles(files, others, k - 1);
      InterleavedStep(files, others, k - 1);
      RoundKinds(files, others, k - 1);
      OneRound(Interleaved(files, others, k - 1), Round(files, k - 1), Round(others, k - 1),
               files[..Min(k - 1, |files|)], files[..Min(k, |files|)]);
    }
  }

  /** Call `i` of the first list comes after `i` of its own and as many of the other, as far as that goes. */
  ghost predicate FirstInPlace(r: seq<Call>, i: nat, others: nat, call: Call) {
    i + Min(i, others) < |r| && r[i + Min(i, others)] == call
  }

  /** Call `i` of the second list comes after one more of the first. */
  ghost predicate SecondInPlace(r: seq<Call>, i: nat, files: nat, call: Call) {
    i + Min(i + 1, files) < |r| && r[i + Min(i + 1, files)] == call
  }

  ghost predicate InPlace(r: seq<Call>, files: seq<Call>, others: seq<Call>, k: nat) {
    && (forall i: nat :: i < Min(k, |files|) ==> FirstInPlace(r, i, |others|, files[i]))
    && (forall i: nat :: i < Min(k, |others|) ==> SecondInPlace(r, i, |files|, others[i]))
  }

  lemma RoundInPlace(r: seq<Call>, files: seq<Call>, others: seq<Call>, k: nat)
    requires |r| == Min(k, |files|) + Min(k, |others|) && InPlace(r, files, others, k)
    ensures InPlace(r + Round(files, k) + Round(others, k), files, others, k + 1)
  {
    var s := r + Round(files, k) + Round(others, k);
    forall i: nat | i < Min(k + 1, |files|) ensures FirstInPlace(s, i, |others|, files[i]) {
      if i < k { assert FirstInPlace(r, i, |others|, files[i]); }
    }
    forall i: nat | i < Min(k + 1, |others|) ensures SecondInPlace(s, i, |files|, others[i]) {
      if i < k { assert SecondInPlace(r, i, |files|, others[i]); }
    }
  }

  lemma NothingInPlace(files: seq<Call>, others: seq<Call>)
    ensures InPlace(Interleaved(files, others, 0), files, others, 0)
  {
  }

  lemma {:induction false} InterleavedPlaces(files: seq<Call>, others: seq<Call>, k: nat)
    ensures InPlace(Interleaved(files, others, k), files, others, k)
  {
    hide Interleaved, InPlace, Round;
    if k == 0 {
      NothingInPlace(files, others);
    } else {
      InterleavedPlaces(files, others, k - 1);
      InterleavedLength(files, others, k - 1);
      InterleavedStep(files, others, k - 1);
      RoundInPlace(Interleaved(files, others, k - 1), files, others, k - 1);
    }
  }

  /** The calls of a shape, each in its place: the file calls, of which every fourth writes, cycle through the first
      `distinct` targets, and the others through their two tools. */
  ghost predicate CallsInPlace(made: seq<Call>, calls: nat, others: nat, distinct: int, pool: seq<string>) {
    && |made| == calls + others
    && (forall i: nat :: i < calls ==>
          FirstInPlace(made, i, others, FileCall(i % 4 != 0, SynthFile(i % Max(distinct, 1), pool))))
    && (forall i: nat :: i < others ==> SecondInPlace(made, i, calls, OtherCall(i % 2)))
  }

  lemma MadeInPlace(calls: nat, others: nat, distinct: int, pool: seq<string>)
    ensures var files, rest := FileCalls(calls, Max(distinct, 1), pool), OtherCalls(others);
            CallsInPlace(Interleaved(files, rest, Max(calls, others)), calls, others, distinct, pool)
  {
    hide Interleaved;
    var files, rest := FileCalls(calls, Max(distinct, 1), pool), OtherCalls(others);
    var made := Interleaved(files, rest, Max(calls, others));
    InterleavedPlaces(files, rest, Max(calls, others));
    InterleavedLength(files, rest, Max(calls, others));
    forall i: nat | i < calls
      ensures FirstInPlace(made, i, others, FileCall(i % 4 != 0, SynthFile(i % Max(distinct, 1), pool)))
    {
      assert FirstInPlace(made, i, |rest|, files[i]);
    }
    forall i: nat | i < others ensures SecondInPlace(made, i, calls, OtherCall(i % 2)) {
      assert SecondInPlace(made, i, |files|, rest[i]);
    }
  }

  lemma NothingInterleaved()
    ensures forall files, others :: Interleaved(files, others, 0) == []
  {
  }

  method MakeCalls(calls: nat, others: nat, distinct: int, pool: seq<string>) returns (made: seq<Call>)
    ensures made == Interleaved(FileCalls(calls, Max(distinct, 1), pool), OtherCalls(others), Max(calls, others))
    ensures CallsInPlace(made, calls, others, distinct, pool)
  {
    hide Interleaved, CallsInPlace, SynthFile;
    NothingInterleaved();
    var d := Max(distinct, 1);
    var fileCalls: seq<Call> := [];
    for i := 0 to calls
      invariant fileCalls == FileCalls(i, d, pool)
    {
      fileCalls := fileCalls + [FileCall(i % 4 != 0, SynthFile(i % d, pool))];
    }
    var otherCalls: seq<Call> := [];
    for i := 0 to others
      invariant otherCalls == OtherCalls(i)
    {
      otherCalls := otherCalls + [OtherCall(i % OTHER_TOOLS)];
    }
    made := [];
    for k := 0 to Max(|fileCalls|, |otherCalls|)
      invariant made == Interleaved(fileCalls, otherCalls, k)
    {
      InterleavedStep(fileCalls, otherCalls, k);
      if k < |fileCalls| { made := made + [fileCalls[k]]; }
      if k < |otherCalls| { made := made + [otherCalls[k]]; }
    }
    MadeInPlace(calls, others, distinct, pool);
  }

  /** The targets of the file calls in a list. */
  ghost function Targets(calls: seq<Call>): set<Target> {
    set c | c in calls && c.FileCall? :: c.target
  }

  /** How many targets `count` file calls over `distinct` indices name. */
  function TargetCount(count: nat, distinct: nat, pool: seq<string>): nat {
    Min(Min(distinct, count), if pool != [] then |pool| else count)
  }

  ghost predicate DistinctPaths(pool: seq<string>) {
    forall i, j :: 0 <= i < j < |pool| ==> pool[i] != pool[j]
  }

  lemma SmallRemainder(i: nat, d: nat)
    requires i < d
    ensures i % d == i
  {
  }

  lemma RemainderAtMost(i: nat, d: nat)
    requires d > 0
    ensures i % d <= i && i % d < d
  {
    if i < d { SmallRemainder(i, d); }
  }

  /** Every index names the same target as one of the first few. */
  lemma NamesAnEarlyTarget(i: nat, count: nat, distinct: nat, pool: seq<string>) returns (j: nat)
    requires i < count && distinct > 0
    ensures j < TargetCount(count, distinct, pool) && SynthFile(i % distinct, pool) == SynthFile(j, pool)
  {
    RemainderAtMost(i, distinct);
    if pool == [] {
      j := i % distinct;
    } else {
      j := (i % distinct) % |pool|;
      RemainderAtMost(i % distinct, |pool|);
      SmallRemainder(j, |pool|);
    }
  }

  ghost function FirstTargets(m: nat, pool: seq<string>): set<Target> {
    set j: nat | 0 <= j < m :: SynthFile(j, pool)
  }

  lemma TargetsAreTheFirst(count: nat, distinct: nat, pool: seq<string>)
    requires distinct > 0
    ensures Targets(FileCalls(count, distinct, pool)) == FirstTargets(TargetCount(count, distinct, pool), pool)
  {
    var all, m := FileCalls(count, distinct, pool), TargetCount(count, distinct, pool);
    forall t | t in Targets(all) ensures t in FirstTargets(m, pool) {
      var i: nat :| i < |all| && all[i].target == t;
      var j := NamesAnEarlyTarget(i, count, distinct, pool);
    }
    forall t | t in FirstTargets(m, pool) ensures t in Targets(all) {
      var j: nat :| j < m && SynthFile(j, pool) == t;
      SmallRemainder(j, distinct);
      assert all[j] in all && all[j].target == t;
    }
  }

  lemma FirstTargetDiffers(j: nat, k: nat, pool: seq<string>)
    requires j < k && (pool != [] ==> k < |pool|) && DistinctPaths(pool)
    ensures SynthFile(j, pool) != SynthFile(k, pool)
  {
    if pool != [] {
      SmallRemainder(j, |pool|);
      SmallRemainder(k, |pool|);
    } else {
      DivideBack(j, 997);
      DivideBack(k, 997);
    }
  }

  lemma LastTargetIsNew(m: nat, pool: seq<string>)
    requires DistinctPaths(pool) && (pool != [] ==> m < |pool|)
    ensures SynthFile(m, pool) !in FirstTargets(m, pool)
  {
    forall j: nat | j < m ensures SynthFile(j, pool) != SynthFile(m, pool) { FirstTargetDiffers(j, m, pool); }
  }

  lemma {:induction false} FirstTargetsDiffer(m: nat, pool: seq<string>)
    requires DistinctPaths(pool) && (pool != [] ==> m <= |pool|)
    ensures |FirstTargets(m, pool)| == m
  {
    if m > 0 {
      FirstTargetsDiffer(m - 1, pool);
      LastTargetIsNew(m - 1, pool);
      assert FirstTargets(m, pool) == FirstTargets(m - 1, pool) + {SynthFile(m - 1, pool)};
    }
  }

  /** The number of targets a file-call list names is the least of its length, the requested number
      of targets, and the number of files there are to name. */
  lemma DistinctTargetCount(count: nat, distinct: nat, pool: seq<string>)
    requires distinct > 0 && DistinctPaths(pool)
    ensures |Targets(FileCalls(count, distinct, pool))| == TargetCount(count, distinct, pool)
  {
    TargetsAreTheFirst(count, distinct, pool);
    FirstTargetsDiffer(TargetCount(count, distinct, pool), pool);
  }
}
