/** What the messages of a built transcript say: which calls each assistant turn announces, and how each is
    answered (scripts/bench_c1_latency.py: `build_messages`). */
module TranscriptBatches {
  import opened Shares
  import opened Transcript
  import opened TranscriptShape

  /** The calls of the assistant turns, in order. */
  function Batched(s: seq<Message>): seq<seq<nat>> {
    if s == [] then []
    else Batched(s[..|s| - 1]) + (if s[|s| - 1].Assistant? then [s[|s| - 1].calls] else [])
  }

  function Concatenated(batches: seq<seq<nat>>): seq<nat> {
    if batches == [] then [] else Concatenated(batches[..|batches| - 1]) + batches[|batches| - 1]
  }

  function Numbers(lo: nat, hi: nat): (r: seq<nat>)
    requires lo <= hi
    ensures |r| == hi - lo && forall k :: 0 <= k < hi - lo ==> r[k] == lo + k
  {
    seq(hi - lo, k requires 0 <= k => lo + k)
  }

  /** The turn at `p` is directly followed by the replies to its calls, in order, each as long as asked for. */
  ghost predicate AnsweredAt(s: seq<Message>, sizes: seq<int>, p: nat)
    requires p < |s| && s[p].Assistant?
  {
    forall k :: 0 <= k < |s[p].calls| ==>
      && s[p].calls[k] < |sizes|
      && p + 1 + k < |s|
      && s[p + 1 + k] == Reply(s[p].calls[k], 31 + Max(sizes[s[p].calls[k]] - 31, 32))
  }

  ghost predicate AllAnswered(s: seq<Message>, sizes: seq<int>) {
    forall p :: 0 <= p < |s| && s[p].Assistant? ==> AnsweredAt(s, sizes, p)
  }

  /** The reply at `q` is one of those of a turn before it. */
  ghost predicate Belongs(s: seq<Message>, q: nat) {
    exists p :: 0 <= p < q && p < |s| && s[p].Assistant? && q <= p + |s[p].calls|
  }

  ghost predicate NoOtherReplies(s: seq<Message>) {
    forall q :: 0 <= q < |s| && s[q].Reply? ==> Belongs(s, q)
  }

  /** Every announced call is answered in its place, and there are no other replies. */
  ghost predicate Matched(s: seq<Message>, sizes: seq<int>) {
    AllAnswered(s, sizes) && NoOtherReplies(s)
  }

  lemma {:induction false} BatchedAppend(a: seq<Message>, b: seq<Message>)
    ensures Batched(a + b) == Batched(a) + Batched(b)
  {
    if b == [] {
      assert a + b == a;
    } else {
      BatchedAppend(a, b[..|b| - 1]);
      assert (a + b)[..|a + b| - 1] == a + b[..|b| - 1];
    }
  }

  lemma {:induction false} NothingBatched(s: seq<Message>)
    requires forall i :: 0 <= i < |s| ==> !s[i].Assistant?
    ensures Batched(s) == []
  {
    if s != [] { NothingBatched(s[..|s| - 1]); }
  }

  lemma AnsweredAppend(a: seq<Message>, b: seq<Message>, sizes: seq<int>)
    requires AllAnswered(a, sizes) && AllAnswered(b, sizes)
    ensures AllAnswered(a + b, sizes)
  {
    forall p | 0 <= p < |a + b| && (a + b)[p].Assistant? ensures AnsweredAt(a + b, sizes, p) {
      if p < |a| {
        assert AnsweredAt(a, sizes, p);
      } else {
        assert AnsweredAt(b, sizes, p - |a|);
      }
    }
  }

  lemma NoOthersAppend(a: seq<Message>, b: seq<Message>)
    requires NoOtherReplies(a) && NoOtherReplies(b)
    ensures NoOtherReplies(a + b)
  {
    forall q | 0 <= q < |a + b| && (a + b)[q].Reply? ensures Belongs(a + b, q) {
      if q < |a| {
        var p :| 0 <= p < q && a[p].Assistant? && q <= p + |a[p].calls|;
        assert (a + b)[p] == a[p];
      } else {
        var p :| 0 <= p < q - |a| && b[p].Assistant? && q - |a| <= p + |b[p].calls|;
        assert (a + b)[|a| + p] == b[p];
      }
    }
  }

  lemma MatchedAppend(a: seq<Message>, b: seq<Message>, sizes: seq<int>)
    requires Matched(a, sizes) && Matched(b, sizes)
    ensures Matched(a + b, sizes)
  {
    AnsweredAppend(a, b, sizes);
    NoOthersAppend(a, b);
  }

  lemma OneBatch(calls: seq<nat>)
    ensures Batched([Assistant(calls)]) == [calls]
  {
    assert [Assistant(calls)][..0] == [];
  }

  lemma TurnIs(sizes: seq<int>, lo: nat, hi: nat)
    requires lo <= hi <= |sizes|
    ensures var turn := Turn(sizes, lo, hi);
            && turn[0] == Assistant(Numbers(lo, hi))
            && forall i :: 1 <= i <= hi - lo ==> turn[i] == Reply(lo + i - 1, 31 + Max(sizes[lo + i - 1] - 31, 32))
  {
    var turn := Turn(sizes, lo, hi);
    assert Numbers(lo, hi) == seq(hi - lo, k requires 0 <= k => lo + k);
    forall i | 1 <= i <= hi - lo
      ensures turn[i] == Reply(lo + i - 1, 31 + Max(sizes[lo + i - 1] - 31, 32))
    {
      var replies := seq(hi - lo, k requires 0 <= k < hi - lo => Reply(lo + k, ReplyChars(sizes[lo + k])));
      assert turn[1..] == replies;
      assert turn[i] == turn[1..][i - 1];
      assert replies[i - 1] == Reply(lo + (i - 1), ReplyChars(sizes[lo + (i - 1)]));
    }
  }

  lemma BatchIsMatched(turn: seq<Message>, sizes: seq<int>, lo: nat, hi: nat)
    requires lo <= hi <= |sizes| && |turn| == hi - lo + 1 && turn[0] == Assistant(Numbers(lo, hi))
    requires forall i :: 1 <= i <= hi - lo ==> turn[i] == Reply(lo + i - 1, 31 + Max(sizes[lo + i - 1] - 31, 32))
    ensures Matched(turn, sizes)
  {
    forall p | 0 <= p < |turn| && turn[p].Assistant? ensures AnsweredAt(turn, sizes, p) {
      assert p == 0;
    }
    forall q | 0 <= q < |turn| && turn[q].Reply? ensures Belongs(turn, q) { assert turn[0].Assistant?; }
  }

  lemma TurnIsBatched(turn: seq<Message>, calls: seq<nat>)
    requires turn != [] && turn[0] == Assistant(calls)
    requires forall k :: 0 < k < |turn| ==> !turn[k].Assistant?
    ensures Batched(turn) == [calls]
  {
    assert turn == [Assistant(calls)] + turn[1..];
    BatchedAppend([Assistant(calls)], turn[1..]);
    NothingBatched(turn[1..]);
    OneBatch(calls);
  }

  lemma TurnIsMatched(sizes: seq<int>, lo: nat, hi: nat)
    requires lo <= hi <= |sizes|
    ensures Matched(Turn(sizes, lo, hi), sizes) && Batched(Turn(sizes, lo, hi)) == [Numbers(lo, hi)]
  {
    hide Turn, Matched, Batched;
    var turn := Turn(sizes, lo, hi);
    TurnIs(sizes, lo, hi);
    BatchIsMatched(turn, sizes, lo, hi);
    TurnIsBatched(turn, Numbers(lo, hi));
  }

  /** The calls of the first `t` turns. */
  function FirstBatches(n: nat, perTurn: nat, t: nat): (r: seq<seq<nat>>)
    ensures |r| == t
  {
    if t == 0 then []
    else
      assert Start(n, perTurn, t - 1) <= Start(n, perTurn, t);
      FirstBatches(n, perTurn, t - 1) + [Numbers(Start(n, perTurn, t - 1), Start(n, perTurn, t))]
  }

  lemma OpeningSays(sizes: seq<int>)
    ensures Matched([Opening], sizes) && Batched([Opening]) == []
  {
    NothingBatched([Opening]);
  }

  lemma {:induction false} NativeSays(sizes: seq<int>, perTurn: nat, t: nat)
    ensures Matched(Native(sizes, perTurn, t), sizes)
    ensures Batched(Native(sizes, perTurn, t)) == FirstBatches(|sizes|, perTurn, t)
  {
    hide Matched, Batched, Turn;
    if t == 0 {
      OpeningSays(sizes);
    } else {
      var before := Native(sizes, perTurn, t - 1);
      var turn := Turn(sizes, Start(|sizes|, perTurn, t - 1), Start(|sizes|, perTurn, t));
      NativeSays(sizes, perTurn, t - 1);
      TurnIsMatched(sizes, Start(|sizes|, perTurn, t - 1), Start(|sizes|, perTurn, t));
      MatchedAppend(before, turn, sizes);
      BatchedAppend(before, turn);
    }
  }

  lemma FillersSay(w: seq<Message>, n: int, sizes: seq<int>)
    requires Matched(w, sizes)
    ensures Matched(w + Fillers(n), sizes) && Batched(w + Fillers(n)) == Batched(w)
  {
    hide Matched, Batched;
    NothingBatched(Fillers(n));
    BatchedAppend(w, Fillers(n));
    MatchedAppend(w, Fillers(n), sizes);
  }

  /** Slice `k` is the opening message or one turn. */
  lemma SliceIs(sizes: seq<int>, perTurn: nat, t: nat, k: nat)
    requires k <= t
    ensures k > 0 ==> Start(|sizes|, perTurn, k - 1) <= Start(|sizes|, perTurn, k) <= |sizes|
    ensures var s, anchors := Native(sizes, perTurn, t), TurnEnds(|sizes|, perTurn, t);
            Slice(s, Cut(s, anchors, k), Cut(s, anchors, k + 1)) ==
            if k == 0 then [Opening] else Turn(sizes, Start(|sizes|, perTurn, k - 1), Start(|sizes|, perTurn, k))
  {
    hide Native, Turn, Cut, TurnEnds;
    NativeCut(sizes, perTurn, t, k);
    if k == 0 {
      OpeningSlice(sizes, perTurn, t);
    } else {
      NativeCut(sizes, perTurn, t, k - 1);
      NativeSlice(sizes, perTurn, k - 1, t);
    }
  }

  lemma SliceSays(sizes: seq<int>, perTurn: nat, t: nat, k: nat)
    requires k <= t
    ensures var s, anchors := Native(sizes, perTurn, t), TurnEnds(|sizes|, perTurn, t);
            var slice := Slice(s, Cut(s, anchors, k), Cut(s, anchors, k + 1));
            Matched(slice, sizes)
            && FirstBatches(|sizes|, perTurn, k) ==
               (if k == 0 then [] else FirstBatches(|sizes|, perTurn, k - 1)) + Batched(slice)
  {
    hide Matched, Batched, Native, TurnEnds, Cut, Slice, Turn;
    SliceIs(sizes, perTurn, t, k);
    if k == 0 {
      OpeningSays(sizes);
    } else {
      TurnIsMatched(sizes, Start(|sizes|, perTurn, k - 1), Start(|sizes|, perTurn, k));
    }
  }

  lemma {:induction false} WovenSays(sizes: seq<int>, perTurn: nat, t: nat, shares: seq<int>, k: nat)
    requires k <= t && |shares| == t + 1
    ensures var w := Woven(Native(sizes, perTurn, t), TurnEnds(|sizes|, perTurn, t), shares, k + 1);
            Matched(w, sizes) && Batched(w) == FirstBatches(|sizes|, perTurn, k)
  {
    hide Matched, Batched, Slice;
    var s, anchors := Native(sizes, perTurn, t), TurnEnds(|sizes|, perTurn, t);
    var w, slice := Woven(s, anchors, shares, k), Slice(s, Cut(s, anchors, k), Cut(s, anchors, k + 1));
    if k > 0 { WovenSays(sizes, perTurn, t, shares, k - 1); } else { NothingBatched([]); }
    SliceSays(sizes, perTurn, t, k);
    MatchedAppend(w, slice, sizes);
    BatchedAppend(w, slice);
    FillersSay(w + slice, shares[k], sizes);
  }

  lemma PaddedSays(sizes: seq<int>, perTurn: nat, t: nat, fillers: int)
    ensures var s := Padded(Native(sizes, perTurn, t), fillers);
            Matched(s, sizes) && Batched(s) == FirstBatches(|sizes|, perTurn, t)
  {
    hide Matched, Batched, Woven;
    if fillers <= 0 {
      NativeSays(sizes, perTurn, t);
    } else {
      PaddedNative(sizes, perTurn, t, fillers);
      WovenSays(sizes, perTurn, t, Distribute(fillers, t + 1), t);
    }
  }

  // The batches themselves.

  lemma {:induction false} BatchIs(n: nat, perTurn: nat, t: nat, j: nat)
    requires j < t
    ensures Min(j * perTurn, n) <= Min((j + 1) * perTurn, n)
    ensures FirstBatches(n, perTurn, t)[j] == Numbers(Min(j * perTurn, n), Min((j + 1) * perTurn, n))
    decreases t
  {
    StartIs(n, perTurn, j);
    StartIs(n, perTurn, j + 1);
    assert Start(n, perTurn, j) <= Start(n, perTurn, j + 1);
    if j < t - 1 { BatchIs(n, perTurn, t - 1, j); }
  }

  lemma {:induction false} BatchesConcatenate(n: nat, perTurn: nat, t: nat)
    ensures Concatenated(FirstBatches(n, perTurn, t)) == Numbers(0, Start(n, perTurn, t))
  {
    if t > 0 {
      BatchesConcatenate(n, perTurn, t - 1);
      var before := FirstBatches(n, perTurn, t - 1);
      var last := Numbers(Start(n, perTurn, t - 1), Start(n, perTurn, t));
      assert (before + [last])[..t - 1] == before;
      assert Numbers(0, Start(n, perTurn, t)) == Numbers(0, Start(n, perTurn, t - 1)) + last;
    }
  }

  lemma BatchSize(n: nat, perTurn: nat, j: nat)
    requires perTurn > 0 && j < Batches(n, perTurn)
    ensures j * perTurn < n && (j < Batches(n, perTurn) - 1 ==> (j + 1) * perTurn <= n)
    ensures (j + 1) * perTurn == j * perTurn + perTurn
  {
    var b := Batches(n, perTurn);
    BatchesCover(n, perTurn);
    assert (j + 1) * perTurn == j * perTurn + perTurn;
    assert j * perTurn <= (b - 1) * perTurn;
    if j < b - 1 { assert (j + 1) * perTurn <= (b - 1) * perTurn; }
  }

  /** The envelopes are announced in turns of `perTurn`, the last of them with what is left. */
  ghost predicate InTurns(batches: seq<seq<nat>>, n: nat, perTurn: nat) {
    && Concatenated(batches) == Numbers(0, n)
    && forall j :: 0 <= j < |batches| ==>
         && 0 < |batches[j]| <= perTurn
         && (j < |batches| - 1 ==> |batches[j]| == perTurn)
  }

  lemma BatchesAreInTurns(n: nat, perTurn: nat)
    requires perTurn > 0
    ensures InTurns(FirstBatches(n, perTurn, Batches(n, perTurn)), n, perTurn)
  {
    var b := Batches(n, perTurn);
    var batches := FirstBatches(n, perTurn, b);
    BatchBounds(n, perTurn);
    BatchesConcatenate(n, perTurn, b);
    forall j | 0 <= j < b
      ensures 0 < |batches[j]| <= perTurn && (j < b - 1 ==> |batches[j]| == perTurn)
    {
      BatchIs(n, perTurn, b, j);
      BatchSize(n, perTurn, j);
    }
  }

  /** Read message by message, the list opens with the opening message, announces every envelope once, in order and
      in turns of `perTurn`, and answers each directly after its turn, in its place and at the length asked for. */
  ghost predicate Says(s: seq<Message>, sizes: seq<int>, perTurn: nat)
    requires perTurn > 0
  {
    && s != [] && s[0] == Opening
    && |Batched(s)| == Batches(|sizes|, perTurn) && InTurns(Batched(s), |sizes|, perTurn)
    && Matched(s, sizes)
  }

  lemma {:induction false} WovenOpens(sizes: seq<int>, perTurn: nat, t: nat, shares: seq<int>, k: nat)
    requires k <= t && |shares| == t + 1
    ensures var w := Woven(Native(sizes, perTurn, t), TurnEnds(|sizes|, perTurn, t), shares, k + 1);
            w != [] && w[0] == Opening
  {
    if k > 0 {
      WovenOpens(sizes, perTurn, t, shares, k - 1);
    } else {
      NativeCut(sizes, perTurn, t, 0);
      OpeningSlice(sizes, perTurn, t);
    }
  }

  lemma OpensBuilt(sizes: seq<int>, perTurn: nat, fillers: int)
    requires perTurn > 0 && sizes != []
    ensures Built(sizes, perTurn, fillers) != [] && Built(sizes, perTurn, fillers)[0] == Opening
  {
    var t := Batches(|sizes|, perTurn);
    NativePrefix(sizes, perTurn, 0, t);
    assert Native(sizes, perTurn, t)[..1] == [Opening];
    if fillers > 0 {
      PaddedNative(sizes, perTurn, t, fillers);
      WovenOpens(sizes, perTurn, t, Distribute(fillers, t + 1), t);
    }
  }

  lemma NothingInTurns(perTurn: nat)
    requires perTurn > 0
    ensures InTurns([], 0, perTurn) && Batches(0, perTurn) == 0
  {
    BatchBounds(0, perTurn);
  }

  /** Every built transcript says this, padded or not. */
  lemma BuiltSays(sizes: seq<int>, perTurn: nat, fillers: int)
    requires perTurn > 0
    ensures Says(Built(sizes, perTurn, fillers), sizes, perTurn)
  {
    hide Matched, Batched, InTurns, Batches, Padded, Native;
    if sizes == [] {
      OpeningSays(sizes);
      NothingInTurns(perTurn);
    } else {
      PaddedSays(sizes, perTurn, Batches(|sizes|, perTurn), fillers);
      BatchesAreInTurns(|sizes|, perTurn);
      OpensBuilt(sizes, perTurn, fillers);
    }
  }
}
