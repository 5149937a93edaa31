/** Splitting totals over slots (scripts/bench_c1_latency.py: `_distribute`, `allocate_chars`). */
module Shares {

  function Sum(s: seq<int>): int {
    if s == [] then 0 else Sum(s[..|s| - 1]) + s[|s| - 1]
  }

  lemma {:induction false} SumAppend(a: seq<int>, b: seq<int>)
    ensures Sum(a + b) == Sum(a) + Sum(b)
  {
    if b == [] {
      assert a + b == a;
    } else {
      assert (a + b)[..|a + b| - 1] == a + b[..|b| - 1];
      SumAppend(a, b[..|b| - 1]);
    }
  }

  /** `slots` shares of `base`, the first `extra` of them one larger. */
  function Even(base: int, extra: int, slots: nat): (s: seq<int>)
    ensures |s| == slots
  {
    seq(slots, i => base + (if i < extra then 1 else 0))
  }

  lemma {:induction false} EvenSum(base: int, extra: int, slots: nat)
    requires 0 <= extra <= slots
    ensures Sum(Even(base, extra, slots)) == base * slots + extra
    decreases slots
  {
    if slots > 0 {
      var s := Even(base, extra, slots);
      var e := if extra == slots then extra - 1 else extra;
      assert s[..slots - 1] == Even(base, e, slots - 1);
      EvenSum(base, e, slots - 1);
      assert base * slots == base * (slots - 1) + base;
    }
  }

  function Max(a: int, b: int): int { if a > b then a else b }
  function Min(a: int, b: int): int { if a < b then a else b }

  function Distribute(total: int, slots: int): seq<int> {
    if slots <= 0 then [total]
    else Even(Max(total, 0) / slots, Max(total, 0) % slots, slots)
  }

  /** Shares of `total` that differ by at most one and never grow along the list. */
  ghost predicate Fair(shares: seq<int>, total: int) {
    Sum(shares) == total && forall i, j :: 0 <= i <= j < |shares| ==> 0 <= shares[j] <= shares[i] <= shares[j] + 1
  }

  lemma DivideBack(a: int, b: int)
    requires b > 0
    ensures (a / b) * b + a % b == a
    ensures 0 <= a % b < b
    ensures a >= 0 ==> a / b >= 0
  {
  }

  lemma EvenShares(total: int, slots: int)
    requires slots > 0
    ensures Sum(Even(total / slots, total % slots, slots)) == total
  {
    DivideBack(total, slots);
    EvenSum(total / slots, total % slots, slots);
  }

  lemma DistributeIsFair(total: int, slots: nat)
    requires slots > 0
    ensures |Distribute(total, slots)| == slots && Fair(Distribute(total, slots), Max(total, 0))
  {
    var t := Max(total, 0);
    EvenShares(t, slots);
    DivideBack(t, slots);
  }

  const MIN_RESULT_CHARS := 32

  /** The bodies next to the largest one. */
  function Others(rest: int, slots: nat): (s: seq<int>)
    requires slots > 0
    ensures |s| == slots
  {
    Even(rest / slots, rest % slots, slots)
  }

  function Inserted(sizes: seq<int>, h: nat, b: int): (s: seq<int>)
    requires h <= |sizes|
    ensures |s| == |sizes| + 1
  {
    sizes[..h] + [b] + sizes[h..]
  }

  function Biggest(total: int, count: int, maximum: int): int {
    if maximum >= MIN_RESULT_CHARS then Min(maximum, total - (count - 1) * MIN_RESULT_CHARS) else MIN_RESULT_CHARS
  }

  function AllocateChars(total: int, count: int, maximum: int): seq<int> {
    if count <= 0 then []
    else if count == 1 then [Max(total, MIN_RESULT_CHARS)]
    else
      var room := total - (count - 1) * MIN_RESULT_CHARS;
      if room <= 0 then seq(count, i => MIN_RESULT_CHARS)
      else
        var biggest := Biggest(total, count, maximum);
        var sizes := Others(total - biggest, count - 1);
        Inserted(sizes, (count - 1) / 2, biggest)
  }

  lemma ConstantSum(count: nat)
    ensures Sum(seq(count, i => MIN_RESULT_CHARS)) == MIN_RESULT_CHARS * count
  {
    assert seq(count, i => MIN_RESULT_CHARS) == Even(MIN_RESULT_CHARS, 0, count);
    EvenSum(MIN_RESULT_CHARS, 0, count);
  }

  lemma SumAround(a: seq<int>, b: int, c: seq<int>)
    ensures Sum(a + [b] + c) == Sum(a) + b + Sum(c)
  {
    SumAppend(a + [b], c);
    assert (a + [b])[..|a|] == a;
  }

  lemma InsertedSum(sizes: seq<int>, h: nat, b: int)
    requires h <= |sizes|
    ensures Sum(Inserted(sizes, h, b)) == Sum(sizes) + b
  {
    SumAround(sizes[..h], b, sizes[h..]);
    SumAppend(sizes[..h], sizes[h..]);
    assert sizes[..h] + sizes[h..] == sizes;
  }

  lemma InsertedOthers(total: int, b: int, slots: nat, h: nat)
    requires slots > 0 && h <= slots
    ensures Sum(Inserted(Others(total - b, slots), h, b)) == total
  {
    EvenShares(total - b, slots);
    InsertedSum(Others(total - b, slots), h, b);
  }

  lemma AllocationIs(total: int, count: int, maximum: int)
    requires count >= 2 && total > (count - 1) * MIN_RESULT_CHARS
    ensures 0 <= (count - 1) / 2 <= count - 1
    ensures var b := Biggest(total, count, maximum);
            AllocateChars(total, count, maximum) == Inserted(Others(total - b, count - 1), (count - 1) / 2, b)
  {
  }

  lemma AllocationWithRoom(total: int, count: int, maximum: int)
    requires count >= 2 && total > (count - 1) * MIN_RESULT_CHARS
    ensures Sum(AllocateChars(total, count, maximum)) == total
    ensures |AllocateChars(total, count, maximum)| == count
  {
    AllocationIs(total, count, maximum);
    InsertedOthers(total, Biggest(total, count, maximum), count - 1, (count - 1) / 2);
  }

  /** The lengths add up to the requested total exactly when the total leaves room for the
      shortest bodies next to the largest one. */
  lemma AllocationIsExactIff(total: int, count: int, maximum: int)
    ensures |AllocateChars(total, count, maximum)| == Max(count, 0)
    ensures Sum(AllocateChars(total, count, maximum)) == total <==>
            if count <= 0 then total == 0
            else if count == 1 then total >= MIN_RESULT_CHARS
            else total > (count - 1) * MIN_RESULT_CHARS
  {
    if count >= 2 {
      if total - (count - 1) * MIN_RESULT_CHARS <= 0 {
        ConstantSum(count);
      } else {
        AllocationWithRoom(total, count, maximum);
      }
    } else if count == 1 {
      InsertedSum([], 0, Max(total, MIN_RESULT_CHARS));
      assert [] + [Max(total, MIN_RESULT_CHARS)] + [] == [Max(total, MIN_RESULT_CHARS)];
    }
  }

  lemma NonNegative(a: int, b: int)
    requires a >= 0 && b >= 0
    ensures a * b >= 0
  {
  }

  lemma CompareQuotient(q: int, r: int, d: int, k: int)
    requires 0 <= r < d
    ensures q >= k <==> q * d + r >= k * d
  {
    if q >= k {
      NonNegative(q - k, d);
      assert (q - k) * d == q * d - k * d;
    } else {
      NonNegative(k - 1 - q, d);
      assert (k - 1 - q) * d == k * d - d - q * d;
    }
  }

  lemma QuotientAtLeast(a: int, d: int, k: int)
    requires d > 0
    ensures a / d >= k <==> a >= k * d
  {
    DivideBack(a, d);
    CompareQuotient(a / d, a % d, d, k);
  }

  /** The length allocated to envelope `i`. */
  function Entry(total: int, count: int, maximum: int, i: int): int
    requires count >= 2 && 0 <= i < count
  {
    AllocateChars(total, count, maximum)[i]
  }

  /** What each envelope gets: the middle one the largest size, the others an even share. */
  lemma EntryValue(total: int, count: int, maximum: int, i: int)
    requires count >= 2 && total > (count - 1) * MIN_RESULT_CHARS && 0 <= i < count
    ensures var h, b := (count - 1) / 2, Biggest(total, count, maximum);
            var base, extra := (total - b) / (count - 1), (total - b) % (count - 1);
            Entry(total, count, maximum, i) ==
            if i == h then b else base + (if (if i < h then i else i - 1) < extra then 1 else 0)
  {
  }

  lemma MinimumIsPaid(total: int, count: int, maximum: int)
    requires count >= 2 && total >= count * MIN_RESULT_CHARS
    ensures forall i :: 0 <= i < |AllocateChars(total, count, maximum)| ==>
              AllocateChars(total, count, maximum)[i] >= MIN_RESULT_CHARS
  {
    var s, b := AllocateChars(total, count, maximum), Biggest(total, count, maximum);
    QuotientAtLeast(total - b, count - 1, MIN_RESULT_CHARS);
    forall i | 0 <= i < |s| ensures s[i] >= MIN_RESULT_CHARS {
      EntryValue(total, count, maximum, i);
      assert Entry(total, count, maximum, i) == s[i];
    }
  }

  lemma {:induction false} SumAtLeast(s: seq<int>, low: int)
    requires forall i :: 0 <= i < |s| ==> s[i] >= low
    ensures Sum(s) >= low * |s|
  {
    if s != [] {
      SumAtLeast(s[..|s| - 1], low);
      assert low * |s| == low * (|s| - 1) + low;
    }
  }

  /** No body is shorter than the minimum if and only if the total pays for that many, or for so few
      that every body is given the minimum. */
  lemma AllocationKeepsMinimumIff(total: int, count: int, maximum: int)
    ensures (forall i :: 0 <= i < |AllocateChars(total, count, maximum)| ==>
               AllocateChars(total, count, maximum)[i] >= MIN_RESULT_CHARS)
            <==> count <= 1 || total >= count * MIN_RESULT_CHARS || total <= (count - 1) * MIN_RESULT_CHARS
  {
    AllocationIsExactIff(total, count, maximum);
    var s := AllocateChars(total, count, maximum);
    if count >= 2 && total > (count - 1) * MIN_RESULT_CHARS {
      if total >= count * MIN_RESULT_CHARS {
        MinimumIsPaid(total, count, maximum);
      } else if forall i :: 0 <= i < |s| ==> s[i] >= MIN_RESULT_CHARS {
        SumAtLeast(s, MIN_RESULT_CHARS);
      }
    }
  }

  lemma CeilingAtMost(a: int, d: int, k: int)
    requires d > 0
    ensures a / d + (if a % d > 0 then 1 else 0) <= k <==> a <= k * d
  {
    DivideBack(a, d);
    QuotientAtLeast(a, d, k);
    QuotientAtLeast(a, d, k + 1);
    assert (k + 1) * d == k * d + d;
    if a == k * d { assert a / d == k by { QuotientAtLeast(a, d, k + 1); } }
  }

  lemma LargestOther(total: int, count: int, maximum: int)
    requires count >= 2 && total > (count - 1) * MIN_RESULT_CHARS
    ensures var b := Biggest(total, count, maximum);
            (forall i :: 0 <= i < count ==> Entry(total, count, maximum, i) <= b) <==> b * count >= total
  {
    var h, b := (count - 1) / 2, Biggest(total, count, maximum);
    var rest := total - b;
    CeilingAtMost(rest, count - 1, b);
    assert b * count == b * (count - 1) + b;
    var other := if h == 0 then 1 else 0;
    EntryValue(total, count, maximum, other);
    DivideBack(rest, count - 1);
    assert Entry(total, count, maximum, other) == rest / (count - 1) + (if rest % (count - 1) > 0 then 1 else 0);
    if b * count >= total {
      forall i | 0 <= i < count ensures Entry(total, count, maximum, i) <= b { EntryValue(total, count, maximum, i); }
    }
  }

  lemma MinTimes(a: int, b: int, count: int, total: int)
    requires count > 0
    ensures Min(a, b) * count >= total <==> a * count >= total && b * count >= total
  {
    if a <= b { assert a * count <= b * count; } else { assert b * count <= a * count; }
  }

  lemma RoomCovers(total: int, count: int)
    requires count >= 2
    ensures (total - (count - 1) * MIN_RESULT_CHARS) * count >= total <==> total >= count * MIN_RESULT_CHARS
  {
    var t := total - count * MIN_RESULT_CHARS;
    assert (total - (count - 1) * MIN_RESULT_CHARS) * count - total == t * (count - 1) by {
      assert total - (count - 1) * MIN_RESULT_CHARS == t + MIN_RESULT_CHARS;
      assert (t + MIN_RESULT_CHARS) * count == t * count + MIN_RESULT_CHARS * count;
      assert t * count == t * (count - 1) + t;
    }
    if t >= 0 { assert t * (count - 1) >= 0; } else { assert t * (count - 1) < 0; }
  }

  /** That many bodies of the size in the middle cover the total. */
  predicate MiddleCovers(total: int, count: int, maximum: int) {
    if maximum < MIN_RESULT_CHARS then count * MIN_RESULT_CHARS >= total
    else maximum * count >= total >= count * MIN_RESULT_CHARS
  }

  lemma MiddleCoversIff(total: int, count: int, maximum: int)
    requires count >= 2
    ensures Biggest(total, count, maximum) * count >= total <==> MiddleCovers(total, count, maximum)
  {
    RoomCovers(total, count);
    MinTimes(maximum, total - (count - 1) * MIN_RESULT_CHARS, count, total);
  }

  /** The size asked for sits in the middle, or the room for it, or the minimum when less was asked for. It is
      the largest exactly when that many times it covers the total, or every body is given the minimum. */
  lemma MiddleIsLargestIff(total: int, count: int, maximum: int)
    requires count >= 2
    ensures Entry(total, count, maximum, (count - 1) / 2)
            == if total <= (count - 1) * MIN_RESULT_CHARS || maximum < MIN_RESULT_CHARS then MIN_RESULT_CHARS
               else Min(maximum, total - (count - 1) * MIN_RESULT_CHARS)
    ensures (forall i :: 0 <= i < count ==>
               Entry(total, count, maximum, i) <= Entry(total, count, maximum, (count - 1) / 2))
            <==> total <= (count - 1) * MIN_RESULT_CHARS || MiddleCovers(total, count, maximum)
  {
    if total > (count - 1) * MIN_RESULT_CHARS {
      EntryValue(total, count, maximum, (count - 1) / 2);
      LargestOther(total, count, maximum);
      MiddleCoversIff(total, count, maximum);
    }
  }

  /** Each of the three promises about an allocation fails for some arguments. */
  lemma AllocationExceptions()
    ensures Sum(AllocateChars(32, 2, 32)) != 32
    ensures exists i :: 0 <= i < |AllocateChars(40, 2, 32)| && AllocateChars(40, 2, 32)[i] < MIN_RESULT_CHARS
    ensures Entry(100, 2, 32, 0) < Entry(100, 2, 32, 1)
  {
    AllocationIsExactIff(32, 2, 32);
    AllocationKeepsMinimumIff(40, 2, 32);
    EntryValue(100, 2, 32, 0);
    EntryValue(100, 2, 32, 1);
  }
}
