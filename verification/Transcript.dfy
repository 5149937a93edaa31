/** Message lists of scripts/bench_c1_latency.py and the padding that spreads follow-ups through them. */
module Transcript {
  import opened Shares

  /** A tool call by envelope number, as announced and as answered. */
  datatype Message =
    | Opening
    | Filler
    | User
    | Assistant(calls: seq<nat>)
    | Reply(call: nat, chars: int)

  /** The message carries a `tool_calls` field. */
  predicate IsTurn(m: Message) {
    m.Assistant?
  }

  /** The indices of the assistant turns. */
  function Turns(s: seq<Message>): seq<nat> {
    if s == [] then []
    else Turns(s[..|s| - 1]) + (if IsTurn(s[|s| - 1]) then [|s| - 1] else [])
  }

  /** The last of the tool replies that directly follow index `i`, or `i` itself. */
  function LastReply(s: seq<Message>, i: nat): (r: nat)
    requires i < |s|
    ensures i <= r < |s|
    ensures forall k :: i < k <= r ==> s[k].Reply?
    ensures r + 1 < |s| ==> !s[r + 1].Reply?
    decreases |s| - i
  {
    if i + 1 < |s| && s[i + 1].Reply? then LastReply(s, i + 1) else i
  }

  ghost predicate Bounded(turns: seq<nat>, n: nat) {
    forall i :: 0 <= i < |turns| ==> turns[i] < n
  }

  /** Where fillers may go: after the opening message, and after the last reply of each of the
      first `k` turns. */
  function Anchors(s: seq<Message>, turns: seq<nat>, k: nat): (a: seq<nat>)
    requires k <= |turns| && Bounded(turns, |s|)
    ensures a != []
  {
    if k == 0 then [0]
    else
      var before := Anchors(s, turns, k - 1);
      var last := LastReply(s, turns[k - 1]);
      if last != before[|before| - 1] then before + [last] else before
  }

  function Fillers(n: int): (s: seq<Message>)
    ensures |s| == Max(n, 0)
  {
    seq(Max(n, 0), i => Filler)
  }

  /** Where the slice after the first `k` anchors begins. */
  function Cut(s: seq<Message>, anchors: seq<nat>, k: nat): nat
    requires k <= |anchors|
  {
    if k == 0 then 0 else Min(anchors[k - 1] + 1, |s|)
  }

  ghost predicate Increasing(anchors: seq<nat>) {
    forall i :: 0 < i < |anchors| ==> anchors[i - 1] < anchors[i]
  }

  ghost predicate AnchorsOf(s: seq<Message>, anchors: seq<nat>) {
    && Increasing(anchors)
    && anchors != [] && anchors[0] == 0
    && (forall i :: 0 <= i < |anchors| ==> anchors[i] < Max(|s|, 1))
  }

  function Slice(s: seq<Message>, from: nat, to: nat): seq<Message> {
    if from <= to <= |s| then s[from..to] else []
  }

  /** The first `k` slices, each followed by its share of fillers. */
  function Woven(s: seq<Message>, anchors: seq<nat>, shares: seq<int>, k: nat): seq<Message>
    requires k <= |anchors| == |shares|
  {
    if k == 0 then []
    else
      Woven(s, anchors, shares, k - 1) +
      Slice(s, Cut(s, anchors, k - 1), Cut(s, anchors, k)) + Fillers(shares[k - 1])
  }

  ghost predicate TurnIndices(s: seq<Message>, turns: seq<nat>) {
    && Increasing(turns)
    && forall i :: 0 <= i < |turns| ==> turns[i] < |s| && IsTurn(s[turns[i]])
  }

  lemma {:induction false} TurnsInRange(s: seq<Message>)
    ensures TurnIndices(s, Turns(s)) && Bounded(Turns(s), |s|)
  {
    if s != [] {
      var n := |s| - 1;
      TurnsInRange(s[..n]);
      var before := Turns(s[..n]);
      forall i | 0 <= i < |before| ensures before[i] < n && IsTurn(s[before[i]]) {
        assert s[..n][before[i]] == s[before[i]];
      }
    }
  }

  /** The anchors of a whole transcript. */
  function AllAnchors(s: seq<Message>): seq<nat> {
    TurnsInRange(s);
    Anchors(s, Turns(s), |Turns(s)|)
  }

  lemma AppendAnchor(s: seq<Message>, anchors: seq<nat>, last: nat)
    requires AnchorsOf(s, anchors) && anchors[|anchors| - 1] < last < |s|
    ensures AnchorsOf(s, anchors + [last])
  {
  }

  lemma TurnsApart(s: seq<Message>, turns: seq<nat>, n: nat)
    requires TurnIndices(s, turns) && 0 < n < |turns|
    ensures turns[n - 1] < |s| && LastReply(s, turns[n - 1]) < turns[n]
  {
    assert turns[n - 1] < turns[n];
    assert IsTurn(s[turns[n]]);
  }

  lemma {:induction false} LastAnchor(s: seq<Message>, turns: seq<nat>, k: nat)
    requires k <= |turns| && Bounded(turns, |s|)
    ensures var a := Anchors(s, turns, k);
            a[|a| - 1] == (if k == 0 then 0 else LastReply(s, turns[k - 1])) && a[0] == 0
  {
    if k > 0 { LastAnchor(s, turns, k - 1); }
  }

  /** The next turn ends past the last anchor, except a first turn that opens the transcript. */
  lemma NextAnchor(s: seq<Message>, turns: seq<nat>, k: nat)
    requires TurnIndices(s, turns) && Bounded(turns, |s|) && k < |turns|
    ensures var a := Anchors(s, turns, k);
            var last := LastReply(s, turns[k]);
            a[|a| - 1] <= last && (a[|a| - 1] == last ==> IsTurn(s[0]))
  {
    LastAnchor(s, turns, k);
    assert IsTurn(s[turns[k]]);
    if k > 0 { TurnsApart(s, turns, k); }
  }

  /** Proper anchors, one for the opening and one a turn if the transcript does not open with a turn. */
  ghost predicate GoodAnchors(s: seq<Message>, anchors: seq<nat>, k: nat) {
    AnchorsOf(s, anchors) && (s != [] && !IsTurn(s[0]) ==> |anchors| == k + 1)
  }

  lemma AddAnchor(s: seq<Message>, before: seq<nat>, k: nat, last: nat)
    requires GoodAnchors(s, before, k) && before[|before| - 1] <= last < |s|
    requires before[|before| - 1] == last ==> IsTurn(s[0])
    ensures GoodAnchors(s, if last != before[|before| - 1] then before + [last] else before, k + 1)
  {
    if last != before[|before| - 1] { AppendAnchor(s, before, last); }
  }

  lemma AnchorsUnfold(s: seq<Message>, turns: seq<nat>, k: nat)
    requires k < |turns| && Bounded(turns, |s|)
    ensures var before, last := Anchors(s, turns, k), LastReply(s, turns[k]);
            Anchors(s, turns, k + 1) == if last != before[|before| - 1] then before + [last] else before
  {
  }

  lemma OneMoreTurnAnchored(s: seq<Message>, turns: seq<nat>, k: nat)
    requires TurnIndices(s, turns) && Bounded(turns, |s|) && k < |turns|
    requires GoodAnchors(s, Anchors(s, turns, k), k)
    ensures GoodAnchors(s, Anchors(s, turns, k + 1), k + 1)
  {
    NextAnchor(s, turns, k);
    AnchorsUnfold(s, turns, k);
    AddAnchor(s, Anchors(s, turns, k), k, LastReply(s, turns[k]));
  }

  /** The anchors increase, so no slice between them is empty and none is taken twice. */
  lemma {:induction false} AnchorsAreIncreasing(s: seq<Message>, turns: seq<nat>, k: nat)
    requires TurnIndices(s, turns) && Bounded(turns, |s|) && k <= |turns|
    ensures GoodAnchors(s, Anchors(s, turns, k), k)
  {
    if k > 0 {
      AnchorsAreIncreasing(s, turns, k - 1);
      OneMoreTurnAnchored(s, turns, k - 1);
    }
  }

  /** Every tool reply directly follows an assistant turn or another reply. */
  ghost predicate Answered(s: seq<Message>) {
    forall i :: 0 <= i < |s| && s[i].Reply? ==> i > 0 && (s[i - 1].Reply? || IsTurn(s[i - 1]))
  }

  /** No anchor separates a reply from what it answers. */
  ghost predicate BetweenBatches(s: seq<Message>, anchors: seq<nat>) {
    forall i :: 0 <= i < |anchors| && anchors[i] + 1 < |s| ==> !s[anchors[i] + 1].Reply?
  }

  lemma {:induction false} AnchorsAreBetweenBatches(s: seq<Message>, turns: seq<nat>, k: nat)
    requires Bounded(turns, |s|) && k <= |turns|
    requires s != [] && !IsTurn(s[0]) && Answered(s)
    ensures BetweenBatches(s, Anchors(s, turns, k))
  {
    if k > 0 {
      AnchorsAreBetweenBatches(s, turns, k - 1);
    } else if |s| > 1 {
      assert !s[0].Reply? && !s[1].Reply?;
    }
  }

  lemma AllAnchorsIncrease(s: seq<Message>)
    ensures AnchorsOf(s, AllAnchors(s))
    ensures s != [] && !IsTurn(s[0]) ==> |AllAnchors(s)| == |Turns(s)| + 1
    ensures s != [] && !IsTurn(s[0]) && Answered(s) ==> BetweenBatches(s, AllAnchors(s))
  {
    TurnsInRange(s);
    AnchorsAreIncreasing(s, Turns(s), |Turns(s)|);
    if s != [] && !IsTurn(s[0]) && Answered(s) { AnchorsAreBetweenBatches(s, Turns(s), |Turns(s)|); }
  }

  /** The transcript after padding. */
  function Padded(s: seq<Message>, count: int): seq<Message> {
    if count <= 0 then s
    else
      AllAnchorsIncrease(s);
      var anchors := AllAnchors(s);
      var k := |anchors|;
      Woven(s, anchors, Distribute(count, k), k) + s[Cut(s, anchors, k)..]
  }

  function WithoutFillers(s: seq<Message>): seq<Message> {
    if s == [] then []
    else WithoutFillers(s[..|s| - 1]) + (if s[|s| - 1] == Filler then [] else [s[|s| - 1]])
  }

  lemma {:induction false} WithoutFillersAppend(a: seq<Message>, b: seq<Message>)
    ensures WithoutFillers(a + b) == WithoutFillers(a) + WithoutFillers(b)
  {
    if b == [] {
      assert a + b == a;
    } else {
      assert (a + b)[..|a + b| - 1] == a + b[..|b| - 1];
      WithoutFillersAppend(a, b[..|b| - 1]);
    }
  }

  lemma {:induction false} FillersVanish(n: nat)
    ensures WithoutFillers(Fillers(n)) == []
  {
    if n > 0 {
      assert Fillers(n)[..n - 1] == Fillers(n - 1);
      FillersVanish(n - 1);
    }
  }

  lemma CutsIncrease(s: seq<Message>, anchors: seq<nat>, k: nat)
    requires AnchorsOf(s, anchors) && 0 < k <= |anchors|
    ensures Cut(s, anchors, k - 1) <= Cut(s, anchors, k) <= |s|
  {
  }

  lemma {:induction false} WovenLength(s: seq<Message>, anchors: seq<nat>, shares: seq<int>, k: nat)
    requires AnchorsOf(s, anchors) && k <= |anchors| == |shares|
    requires forall i :: 0 <= i < |shares| ==> shares[i] >= 0
    ensures Cut(s, anchors, k) <= |s|
    ensures |Woven(s, anchors, shares, k)| == Cut(s, anchors, k) + Sum(shares[..k])
  {
    if k > 0 {
      WovenLength(s, anchors, shares, k - 1);
      CutsIncrease(s, anchors, k);
      assert shares[..k][..k - 1] == shares[..k - 1];
    }
  }

  lemma ErasedSlice(s: seq<Message>, w: seq<Message>, from: nat, to: nat, n: int)
    requires from <= to <= |s| && WithoutFillers(w) == WithoutFillers(s[..from])
    ensures WithoutFillers(w + Slice(s, from, to) + Fillers(n)) == WithoutFillers(s[..to])
  {
    WithoutFillersAppend(w + s[from..to], Fillers(n));
    WithoutFillersAppend(w, s[from..to]);
    WithoutFillersAppend(s[..from], s[from..to]);
    FillersVanish(Max(n, 0));
    assert Fillers(n) == Fillers(Max(n, 0));
    assert s[..from] + s[from..to] == s[..to];
  }

  lemma {:induction false} WovenErases(s: seq<Message>, anchors: seq<nat>, shares: seq<int>, k: nat)
    requires AnchorsOf(s, anchors) && k <= |anchors| == |shares|
    ensures Cut(s, anchors, k) <= |s|
    ensures WithoutFillers(Woven(s, anchors, shares, k)) == WithoutFillers(s[..Cut(s, anchors, k)])
  {
    if k > 0 {
      WovenErases(s, anchors, shares, k - 1);
      CutsIncrease(s, anchors, k);
      ErasedSlice(s, Woven(s, anchors, shares, k - 1), Cut(s, anchors, k - 1), Cut(s, anchors, k), shares[k - 1]);
    }
  }

  lemma AnsweredAppend(a: seq<Message>, b: seq<Message>)
    requires Answered(a) && forall i :: 0 < i < |b| && b[i].Reply? ==> b[i - 1].Reply? || IsTurn(b[i - 1])
    requires b != [] && b[0].Reply? ==> a != [] && (a[|a| - 1].Reply? || IsTurn(a[|a| - 1]))
    ensures Answered(a + b)
  {
    forall i | 0 <= i < |a + b| && (a + b)[i].Reply?
      ensures i > 0 && ((a + b)[i - 1].Reply? || IsTurn((a + b)[i - 1]))
    {
      if i < |a| { assert a[i].Reply?; } else if i > |a| { assert b[i - |a|].Reply?; }
    }
  }

  lemma AnsweredSlice(s: seq<Message>, w: seq<Message>, from: nat, to: nat, n: int)
    requires Answered(s) && Answered(w) && from <= to <= |s| && (from < |s| ==> !s[from].Reply?)
    ensures Answered(w + Slice(s, from, to) + Fillers(n))
  {
    AnsweredAppend(w, s[from..to]);
    AnsweredAppend(w + s[from..to], Fillers(n));
  }

  lemma SliceStartsFresh(s: seq<Message>, anchors: seq<nat>, k: nat)
    requires AnchorsOf(s, anchors) && k <= |anchors| && Answered(s) && BetweenBatches(s, anchors)
    ensures Cut(s, anchors, k) < |s| ==> !s[Cut(s, anchors, k)].Reply?
  {
  }

  lemma {:induction false} WovenStaysAnswered(s: seq<Message>, anchors: seq<nat>, shares: seq<int>, k: nat)
    requires AnchorsOf(s, anchors) && k <= |anchors| == |shares|
    requires Answered(s) && BetweenBatches(s, anchors)
    ensures Answered(Woven(s, anchors, shares, k))
  {
    if k > 0 {
      WovenStaysAnswered(s, anchors, shares, k - 1);
      CutsIncrease(s, anchors, k);
      var from, to := Cut(s, anchors, k - 1), Cut(s, anchors, k);
      SliceStartsFresh(s, anchors, k - 1);
      AnsweredSlice(s, Woven(s, anchors, shares, k - 1), from, to, shares[k - 1]);
    }
  }

  lemma ErasedRest(s: seq<Message>, w: seq<Message>, cut: nat)
    requires cut <= |s| && WithoutFillers(w) == WithoutFillers(s[..cut])
    ensures WithoutFillers(w + s[cut..]) == WithoutFillers(s)
  {
    WithoutFillersAppend(w, s[cut..]);
    WithoutFillersAppend(s[..cut], s[cut..]);
    assert s[..cut] + s[cut..] == s;
  }

  lemma WholePrefix<T>(s: seq<T>, k: nat)
    requires k == |s|
    ensures s[..k] == s
  {
  }

  lemma PaddingErases(s: seq<Message>, count: int)
    ensures |Padded(s, count)| == |s| + Max(count, 0)
    ensures WithoutFillers(Padded(s, count)) == WithoutFillers(s)
  {
    if count > 0 {
      AllAnchorsIncrease(s);
      var anchors := AllAnchors(s);
      var k := |anchors|;
      var shares := Distribute(count, k);
      DistributeIsFair(count, k);
      var cut := Cut(s, anchors, k);
      WovenLength(s, anchors, shares, k);
      WovenErases(s, anchors, shares, k);
      WholePrefix(shares, k);
      ErasedRest(s, Woven(s, anchors, shares, k), cut);
    }
  }

  lemma PaddingStaysAnswered(s: seq<Message>, count: int)
    requires s != [] && !IsTurn(s[0]) && Answered(s)
    ensures Answered(Padded(s, count))
  {
    if count > 0 {
      AllAnchorsIncrease(s);
      var anchors := AllAnchors(s);
      var k := |anchors|;
      DistributeIsFair(count, k);
      var woven := Woven(s, anchors, Distribute(count, k), k);
      WovenStaysAnswered(s, anchors, Distribute(count, k), k);
      SliceStartsFresh(s, anchors, k);
      AnsweredAppend(woven, s[Cut(s, anchors, k)..]);
    }
  }

  /** The list rebuilt with `shares[k]` fillers after its `k`-th anchor. */
  function WithShares(s: seq<Message>, shares: seq<int>): seq<Message>
    requires |shares| == |AllAnchors(s)|
  {
    var anchors := AllAnchors(s);
    Woven(s, anchors, shares, |anchors|) + s[Cut(s, anchors, |anchors|)..]
  }

  /** The fillers are spread over the anchors in shares that differ by at most one. */
  lemma PaddingIsFair(s: seq<Message>, count: int) returns (shares: seq<int>)
    requires count > 0
    ensures |shares| == |AllAnchors(s)| && Fair(shares, count)
    ensures Padded(s, count) == WithShares(s, shares)
  {
    AllAnchorsIncrease(s);
    shares := Distribute(count, |AllAnchors(s)|);
    DistributeIsFair(count, |AllAnchors(s)|);
  }

  lemma {:induction false} NoFillersNothingErased(s: seq<Message>)
    requires Filler !in s
    ensures WithoutFillers(s) == s
  {
    if s != [] {
      var rest, last := s[..|s| - 1], s[|s| - 1];
      assert last in s;
      NoFillersNothingErased(rest);
      assert s == rest + [last];
    }
  }

  /** Padding adds exactly `count` messages and nothing but fillers, and it never comes between a
      batch of calls and its replies. */
  lemma PaddingIsTransparent(s: seq<Message>, count: int)
    ensures |Padded(s, count)| == |s| + Max(count, 0)
    ensures Filler !in s ==> WithoutFillers(Padded(s, count)) == s
    ensures s != [] && !IsTurn(s[0]) && Answered(s) ==> Answered(Padded(s, count))
  {
    PaddingErases(s, count);
    if Filler !in s { NoFillersNothingErased(s); }
    if s != [] && !IsTurn(s[0]) && Answered(s) { PaddingStaysAnswered(s, count); }
  }

  /** The message list that the padding rewrites in place. */
  class MessageList {
    var messages: seq<Message>

    constructor (messages: seq<Message>)
      ensures this.messages == messages
    {
      this.messages := messages;
    }

    method FindTurns() returns (turns: seq<nat>)
      ensures turns == Turns(messages)
    {
      turns := [];
      for i := 0 to |messages|
        invariant turns == Turns(messages[..i])
      {
        assert messages[..i + 1][..i] == messages[..i];
        if IsTurn(messages[i]) { turns := turns + [i]; }
      }
      assert messages[..|messages|] == messages;
    }

    method FindAnchors(turns: seq<nat>) returns (anchors: seq<nat>)
      requires Bounded(turns, |messages|)
      ensures anchors == Anchors(messages, turns, |turns|)
    {
      anchors := [0];
      for i := 0 to |turns|
        invariant anchors == Anchors(messages, turns, i)
      {
        var start := turns[i];
        var end := start + 1;
        while end < |messages| && messages[end].Reply?
          invariant start < end <= |messages|
          invariant LastReply(messages, end - 1) == LastReply(messages, start)
        {
          end := end + 1;
        }
        var anchor := if end - 1 > start then end - 1 else start;
        if anchor != anchors[|anchors| - 1] { anchors := anchors + [anchor]; }
      }
    }

    method Pad(count: int)
      modifies this
      ensures messages == Padded(old(messages), count)
    {
      if count <= 0 { return; }
      TurnsInRange(messages);
      AllAnchorsIncrease(messages);
      var turns := FindTurns();
      var anchors := FindAnchors(turns);
      var shares := Distribute(count, |anchors|);
      DistributeIsFair(count, |anchors|);
      WeaveAll(anchors, shares);
    }

    /** The loop over anchors and shares. */
    method WeaveAll(anchors: seq<nat>, shares: seq<int>)
      requires AnchorsOf(messages, anchors) && |anchors| == |shares|
      modifies this
      ensures var k := |anchors|; var s := old(messages);
              Cut(s, anchors, k) <= |s| && messages == Woven(s, anchors, shares, k) + s[Cut(s, anchors, k)..]
    {
      var padded: seq<Message> := [];
      var previous := 0;
      for k := 0 to |anchors|
        invariant messages == old(messages)
        invariant previous == Cut(messages, anchors, k) <= |messages|
        invariant padded == Woven(messages, anchors, shares, k)
      {
        CutsIncrease(messages, anchors, k + 1);
        var end := Min(anchors[k] + 1, |messages|);
        padded := padded + messages[previous..end] + Fillers(shares[k]);
        previous := end;
      }
      messages := padded + messages[previous..];
    }
  }
}
