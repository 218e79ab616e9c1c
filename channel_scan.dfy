/**
 * What every channel scan in the drivers has in common: channels 0..7 are
 * visited in ascending order, a channel that fails is skipped, and a channel
 * that passes is appended to an eight-slot int array with a running count.
 * The round-robin cursor that later walks that array is here too.
 */
module ChannelScan {

  /** Every entry of a channel list is a channel number. */
  predicate ValidChannels(chs: seq<int>) { forall i :: 0 <= i < |chs| ==> 0 <= chs[i] < 8 }

  /** The channels, in ascending order, whose entry in ok is true. */
  function Accepted(ok: seq<bool>): (r: seq<int>)
    ensures |r| <= |ok|
  {
    if |ok| == 0 then [] else Accepted(ok[..|ok| - 1]) + (if ok[|ok| - 1] then [|ok| - 1] else [])
  }

  /**
   * The list holds exactly the passing channels: each entry is a channel
   * whose flag is set, every such channel is listed, and the list ascends.
   */
  lemma {:induction false} AcceptedExactly(ok: seq<bool>)
    ensures forall i :: 0 <= i < |Accepted(ok)| ==> 0 <= Accepted(ok)[i] < |ok| && ok[Accepted(ok)[i]]
    ensures forall c :: 0 <= c < |ok| && ok[c] ==> c in Accepted(ok)
    ensures forall i, j :: 0 <= i < j < |Accepted(ok)| ==> Accepted(ok)[i] < Accepted(ok)[j]
  {
    if |ok| > 0 {
      var p := ok[..|ok| - 1];
      AcceptedExactly(p);
      assert forall c :: 0 <= c < |p| ==> p[c] == ok[c];
    }
  }

  /** Accepting one more channel extends the list by that channel or by nothing. */
  lemma AcceptedSnoc(ok: seq<bool>, i: nat)
    requires i < |ok|
    ensures Accepted(ok[..i + 1]) == Accepted(ok[..i]) + (if ok[i] then [i] else [])
  {
    assert ok[..i + 1][..i] == ok[..i];
  }

  /** The first slots of the list only depend on the first channels. */
  lemma {:induction false} AcceptedPrefix(ok: seq<bool>, i: nat)
    requires i <= |ok|
    ensures |Accepted(ok[..i])| <= |Accepted(ok)|
    ensures Accepted(ok[..i]) == Accepted(ok)[..|Accepted(ok[..i])|]
    decreases |ok| - i
  {
    if i < |ok| {
      AcceptedSnoc(ok, i);
      AcceptedPrefix(ok, i + 1);
    } else {
      assert ok[..i] == ok;
    }
  }

  /** How many entries are true. */
  function CountTrue(ok: seq<bool>): nat
  {
    if |ok| == 0 then 0 else (if ok[0] then 1 else 0) + CountTrue(ok[1..])
  }

  lemma {:induction false} CountTrueSnoc(ok: seq<bool>)
    requires |ok| > 0
    ensures CountTrue(ok) == CountTrue(ok[..|ok| - 1]) + (if ok[|ok| - 1] then 1 else 0)
  {
    if |ok| > 1 {
      assert ok[1..][..|ok[1..]| - 1] == ok[..|ok| - 1][1..];
      CountTrueSnoc(ok[1..]);
    }
  }

  /** Every entry is true exactly when all of them are counted. */
  lemma {:induction false} CountTrueFull(ok: seq<bool>)
    ensures CountTrue(ok) <= |ok|
    ensures CountTrue(ok) == |ok| <==> forall i :: 0 <= i < |ok| ==> ok[i]
  {
    if |ok| > 0 {
      CountTrueFull(ok[1..]);
      assert forall i :: 1 <= i < |ok| ==> ok[i] == ok[1..][i - 1];
    }
  }

  /** The list holds one entry per passing channel. */
  lemma {:induction false} AcceptedLength(ok: seq<bool>)
    ensures |Accepted(ok)| == CountTrue(ok)
  {
    if |ok| > 0 {
      AcceptedLength(ok[..|ok| - 1]);
      CountTrueSnoc(ok);
    }
  }

  /** k copies of xs, one after the other. */
  function Repeat<T>(xs: seq<T>, k: nat): seq<T>
  {
    if k == 0 then [] else xs + Repeat(xs, k - 1)
  }

  /** The channels lo, lo + 1, ..., hi - 1. */
  function Channels(lo: int, hi: int): (r: seq<int>)
    decreases hi - lo
  {
    if lo >= hi then [] else [lo] + Channels(lo + 1, hi)
  }

  // Sequence identities the loop proofs use

  lemma SliceCons<T>(s: seq<T>, i: nat)
    requires i < |s|
    ensures s[i..] == [s[i]] + s[i + 1..]
  {
  }

  lemma ConsAssoc<T>(a: seq<T>, b: seq<T>, c: seq<T>)
    ensures a + b + c == a + (b + c)
  {
  }

  /** One more flag adds one copy of xs when it is set, and none otherwise. */
  lemma CountRepeat<T>(xs: seq<T>, p: seq<bool>, whole: seq<T>, rest: seq<T>)
    requires |p| > 0
    requires whole == (if p[0] then xs else []) + rest
    requires rest == Repeat(xs, CountTrue(p[1..]))
    ensures whole == Repeat(xs, CountTrue(p))
  {
    if p[0] {
      assert Repeat(xs, 1 + CountTrue(p[1..])) == xs + Repeat(xs, CountTrue(p[1..]));
    } else {
      assert whole == rest;
    }
  }

  /** A step that adds one more copy of xs, or nothing, ahead of k further copies. */
  lemma RepeatCons<T>(pre: seq<T>, xs: seq<T>, step: seq<T>, k: nat, b: bool)
    requires step == if b then xs else []
    ensures pre + step + Repeat(xs, k) == pre + Repeat(xs, (if b then 1 else 0) + k)
  {
    if b {
      assert Repeat(xs, 1 + k) == xs + Repeat(xs, k);
    } else {
      assert step == [];
    }
  }

  /** The fixed eight-slot array of enabled channels and its fill count (enable_channels / count_channel). */
  class ChannelTable {
    const slots: array<int>
    var count: nat

    ghost predicate Valid()
      reads this, slots
    {
      slots.Length == 8 && count <= 8 && forall i :: 0 <= i < count ==> 0 <= slots[i] < 8
    }

    /** The channels listed so far. */
    function Contents(): seq<int>
      reads this, slots
      requires Valid()
    {
      slots[..count]
    }

    constructor ()
      ensures Valid() && Contents() == [] && fresh(slots)
    {
      slots := new int[8];
      count := 0;
    }

    /** enable_channels[count_channel++] = ch */
    method Append(ch: int)
      requires Valid() && count < 8 && 0 <= ch < 8
      modifies this, slots
      ensures Valid() && Contents() == old(Contents()) + [ch]
      ensures count == old(count) + 1
    {
      slots[count] := ch;
      count := count + 1;
    }

    /** enable_channels[i] */
    method Get(i: int) returns (ch: int)
      requires Valid() && 0 <= i < count
      ensures ch == Contents()[i]
    {
      ch := slots[i];
    }
  }

  // The round-robin cursor of PreJob

  /** count_channel++, then back to 0 once it reaches the number of enabled channels. */
  function Advance(cursor: int, n: int): (next: int)
    requires 0 <= cursor < n
    ensures 0 <= next < n
  {
    if cursor + 1 == n then 0 else cursor + 1
  }

  /** The cursor after k steps from slot 0. */
  function CursorAfter(k: nat, n: int): (c: int)
    requires n > 0
    ensures 0 <= c < n
  {
    if k == 0 then 0 else Advance(CursorAfter(k - 1, n), n)
  }

  /** Step k reads slot k mod n: the enabled channels are visited cyclically, in list order. */
  lemma {:induction false} CursorCycles(k: nat, n: int)
    requires n > 0
    ensures CursorAfter(k, n) == k % n
  {
    if k > 0 {
      var prev := CursorAfter(k - 1, n);
      CursorCycles(k - 1, n);
      ModStep(k - 1, n);
      assert CursorAfter(k, n) == Advance(prev, n);
    }
  }

  lemma ModStep(a: nat, n: int)
    requires n > 0
    ensures (if a % n + 1 == n then 0 else a % n + 1) == (a + 1) % n
  {
    var q := a / n;
    var r := a % n;
    assert a == q * n + r;
    if r + 1 == n {
      assert a + 1 == (q + 1) * n + 0;
      ModUnique(a + 1, q + 1, 0, n);
    } else {
      ModUnique(a + 1, q, r + 1, n);
    }
  }

  lemma ModUnique(k: int, q: int, r: int, n: int)
    requires n > 0 && 0 <= r < n && k == q * n + r
    ensures k % n == r
  {
    var d := k / n - q;
    assert k == (k / n) * n + k % n;
    assert d * n == (k / n) * n - q * n;
    assert d * n == r - k % n;
    MulMono(d, n);
  }

  lemma MulMono(d: int, n: int)
    requires n > 0
    ensures d >= 1 ==> d * n >= n
    ensures d <= -1 ==> d * n <= -n
    decreases if d >= 0 then d else -d
  {
    if d >= 1 {
      assert d * n == (d - 1) * n + n;
      if d > 1 { MulMono(d - 1, n); }
    } else if d <= -1 {
      assert d * n == (d + 1) * n - n;
      if d < -1 { MulMono(d + 1, n); }
    }
  }
}
