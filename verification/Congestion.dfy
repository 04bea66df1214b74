/** The Reno-style congestion control inside send_file_gbn (src/rtp.cpp:852-858 and 888-959), over reals.
    RFC 5681 is the public reference; where the code departs from it, the code is followed. */
module Congestion {

  /** Window sizes are measured in packets; both fields start positive and every update keeps them so. */
  type Positive = r: real | r > 0.0 witness 1.0

  /** `dup` is dup_ack_count, `fast` is in_fast_recovery. */
  datatype Cong = Cong(cwnd: Positive, ssthresh: Positive, dup: int, fast: bool)

  /** What the constructor of Rtp sets (src/rtp.h:86-88). */
  const INITIAL := Cong(1.0, 65536.0, 0, false)

  function Max(a: real, b: real): real {
    if a < b then b else a
  }

  function OnTimeout(c: Cong): Cong {
    Cong(1.0, Max(c.cwnd / 2.0, 2.0), 0, false)
  }

  lemma QuotientBounds(a: real, b: real)
    requires b > 0.0 && a > 0.0
    ensures 0.0 < a / b && (a <= b ==> a / b <= 1.0)
  {
    assert (a / b) * b == a;
  }

  function OnNewAck(c: Cong): Cong {
    QuotientBounds(1.0, c.cwnd);
    if c.fast then Cong(c.ssthresh, c.ssthresh, 0, false)
    else if c.cwnd < c.ssthresh then Cong(c.cwnd + 1.0, c.ssthresh, 0, false)
    else Cong(c.cwnd + 1.0 / c.cwnd, c.ssthresh, 0, false)
  }

  /** The counter as the duplicate ACK leaves it; 3 triggers the fast retransmit. */
  function DupCount(c: Cong): int {
    if c.fast then c.dup else c.dup + 1
  }

  function OnDupAck(c: Cong): Cong {
    if DupCount(c) == 3 then
      var half := Max(c.cwnd / 2.0, 2.0);
      Cong(half + 3.0, half, 3, true)
    else if c.fast then Cong(c.cwnd + 1.0, c.ssthresh, c.dup, true)
    else c.(dup := c.dup + 1)
  }

  // ---------------------------------------------------------------- every sequence of ACKs and timeouts

  datatype Signal = NewAck | DupAck | Timeout

  function React(c: Cong, signal: Signal): Cong {
    match signal
    case NewAck => OnNewAck(c)
    case DupAck => OnDupAck(c)
    case Timeout => OnTimeout(c)
  }

  predicate Good(c: Cong) {
    && c.cwnd >= 1.0
    && c.ssthresh >= 2.0
    && 0 <= c.dup <= 3
    && (c.fast <==> c.dup == 3)
    && (c.fast ==> c.cwnd == c.ssthresh + 3.0)
  }

  /** One ACK or timeout keeps the congestion state good; it adds at most one segment to the window, and none
      unless a new ACK arrived or the window was below 6. */
  lemma ReactKeeps(c: Cong, signal: Signal)
    requires Good(c)
    ensures Good(React(c, signal))
    ensures signal.NewAck? ==> React(c, signal).cwnd <= c.cwnd + 1.0
    ensures !signal.NewAck? ==> React(c, signal).cwnd <= Max(c.cwnd, 6.0)
  {
    QuotientBounds(1.0, c.cwnd);
  }

  /** The state after any sequence of signals. */
  function Replay(c: Cong, signals: seq<Signal>): (r: Cong)
    requires Good(c)
    ensures Good(r)
    decreases |signals|
  {
    if |signals| == 0 then c else
      var before := Replay(c, signals[..|signals| - 1]);
      ReactKeeps(before, signals[|signals| - 1]);
      React(before, signals[|signals| - 1])
  }

  lemma {:induction false} ReplayAppend(c: Cong, a: seq<Signal>, b: seq<Signal>)
    requires Good(c)
    ensures Replay(c, a + b) == Replay(Replay(c, a), b)
    decreases |b|
  {
    if |b| == 0 {
      assert a + b == a;
    } else {
      ReplayAppend(c, a, b[..|b| - 1]);
      assert (a + b)[..|a + b| - 1] == a + b[..|b| - 1];
    }
  }

  function NewAcks(signals: seq<Signal>): nat {
    if |signals| == 0 then 0
    else NewAcks(signals[..|signals| - 1]) + if signals[|signals| - 1].NewAck? then 1 else 0
  }

  /** The branch meant to inflate the window by one per further duplicate ACK (src/rtp.cpp:953-958). */
  predicate InflationBranch(c: Cong) {
    DupCount(c) != 3 && c.fast
  }

  /** In that branch, which needs a state that no sequence leads to, a duplicate ACK would add one segment. */
  lemma InflationAdds(c: Cong)
    requires InflationBranch(c)
    ensures OnDupAck(c) == c.(cwnd := c.cwnd + 1.0)
  {
  }

  /** Over every sequence of ACKs and timeouts the window stays between 1 and 6 plus the number of new ACKs,
      and the inflation branch is never reached. */
  lemma {:induction false} WindowBounded(signals: seq<Signal>)
    ensures 1.0 <= Replay(INITIAL, signals).cwnd <= 6.0 + NewAcks(signals) as real
    ensures !InflationBranch(Replay(INITIAL, signals))
    decreases |signals|
  {
    if |signals| > 0 {
      var front := signals[..|signals| - 1];
      WindowBounded(front);
      ReactKeeps(Replay(INITIAL, front), signals[|signals| - 1]);
    }
  }

  // ---------------------------------------------------------------- fast recovery

  function Repeat(signal: Signal, k: nat): (s: seq<Signal>)
    ensures |s| == k && forall i :: 0 <= i < k ==> s[i] == signal
  {
    seq(k, _ => signal)
  }

  lemma ReplayRepeat(c: Cong, signal: Signal, k: nat)
    requires Good(c) && k > 0
    ensures Replay(c, Repeat(signal, k)) == React(Replay(c, Repeat(signal, k - 1)), signal)
  {
    assert Repeat(signal, k)[..k - 1] == Repeat(signal, k - 1);
  }

  function Power2(k: nat): (p: real)
    ensures p >= 1.0
  {
    if k == 0 then 1.0 else 2.0 * Power2(k - 1)
  }

  function Halving(c: real, k: nat): real {
    if k == 0 then c else Halving(c, k - 1) / 2.0 + 3.0
  }

  lemma {:induction false} RecoveryHalves(c: Cong, k: nat)
    requires Good(c) && c.fast
    ensures Replay(c, Repeat(DupAck, k)).fast && Replay(c, Repeat(DupAck, k)).cwnd == Halving(c.cwnd, k)
    decreases k
  {
    if k == 0 {
      assert Replay(c, Repeat(DupAck, 0)) == c;
    } else {
      RecoveryHalves(c, k - 1);
      ReplayRepeat(c, DupAck, k);
    }
  }

  lemma {:induction false} HalvingClosedForm(c: real, k: nat)
    ensures (Halving(c, k) - 6.0) * Power2(k) == c - 6.0
    decreases k
  {
    if k > 0 {
      HalvingClosedForm(c, k - 1);
      HalfTheExcess(Halving(c, k - 1), Halving(c, k), Power2(k - 1), c - 6.0);
    }
  }

  /** Each further duplicate ACK during fast recovery halves the distance of the window from 6: the window converges
      to 6, where step 4 of section 3.2 of RFC 5681 would have it grow by one segment. */
  lemma RecoveryConverges(c: Cong, k: nat) returns (window: real)
    requires Good(c) && c.fast
    ensures Replay(c, Repeat(DupAck, k)).fast && Replay(c, Repeat(DupAck, k)).cwnd == window
    ensures (window - 6.0) * Power2(k) == c.cwnd - 6.0
  {
    window := Halving(c.cwnd, k);
    RecoveryHalves(c, k);
    HalvingClosedForm(c.cwnd, k);
  }

  lemma HalfTheExcess(before: real, after: real, power: real, excess: real)
    requires after == before / 2.0 + 3.0 && (before - 6.0) * power == excess
    ensures (after - 6.0) * (2.0 * power) == excess
  {
    assert (after - 6.0) * 2.0 == before - 6.0;
  }

  // ---------------------------------------------------------------- when recovery begins and ends

  /** How many duplicate ACKs there are at the end, after the last new ACK or timeout. */
  function Trailing(signals: seq<Signal>): nat {
    if |signals| == 0 || !signals[|signals| - 1].DupAck? then 0 else 1 + Trailing(signals[..|signals| - 1])
  }

  /** The duplicate count after `k` duplicate ACKs in a row, and whether they have started a recovery. */
  predicate Counts(c: Cong, k: nat) {
    c.dup == (if k < 3 then k else 3) && (c.fast <==> k >= 3)
  }

  lemma ReactCounts(c: Cong, k: nat, signal: Signal)
    requires Counts(c, k)
    ensures Counts(React(c, signal), if signal.DupAck? then k + 1 else 0)
  {
  }

  /** A transfer is in fast recovery exactly while three or more duplicate ACKs are the last it has seen: a new ACK
      or a timeout ends the recovery and starts the count again. */
  lemma {:induction false} RecoveryExactly(signals: seq<Signal>)
    ensures Replay(INITIAL, signals).dup == if Trailing(signals) < 3 then Trailing(signals) else 3
    ensures Replay(INITIAL, signals).fast <==> Trailing(signals) >= 3
    decreases |signals|
  {
    if |signals| > 0 {
      var front, last := signals[..|signals| - 1], signals[|signals| - 1];
      RecoveryExactly(front);
      ReactCounts(Replay(INITIAL, front), Trailing(front), last);
    }
  }

  // ---------------------------------------------------------------- slow start and the two reactions to loss

  /** Slow start: each new ACK below the threshold adds exactly one segment (section 3.1 of RFC 5681). */
  lemma {:induction false} SlowStartGrowth(c: Cong, k: nat)
    requires Good(c) && !c.fast
    requires k > 0 ==> c.cwnd + (k - 1) as real < c.ssthresh
    ensures var d := Replay(c, Repeat(NewAck, k)); d.cwnd == c.cwnd + k as real && d.ssthresh == c.ssthresh && !d.fast
    decreases k
  {
    if k == 0 {
      assert Replay(c, Repeat(NewAck, 0)) == c;
    } else {
      SlowStartGrowth(c, k - 1);
      ReplayRepeat(c, NewAck, k);
    }
  }

  /** After a timeout the window restarts from 1 and climbs back by one segment per new ACK to half its old size. */
  lemma TimeoutRestarts(c: Cong, k: nat)
    requires Good(c) && k as real < Max(c.cwnd / 2.0, 2.0)
    ensures Replay(React(c, Timeout), Repeat(NewAck, k)).cwnd == 1.0 + k as real
    ensures Replay(React(c, Timeout), Repeat(NewAck, k)).ssthresh == Max(c.cwnd / 2.0, 2.0)
  {
    ReactKeeps(c, Timeout);
    SlowStartGrowth(React(c, Timeout), k);
  }

  lemma ReplayLast(c: Cong, front: seq<Signal>, last: Signal)
    requires Good(c)
    ensures Replay(c, front + [last]) == React(Replay(c, front), last)
  {
    assert (front + [last])[..|front|] == front;
  }

  /** Three duplicate ACKs and the new ACK that ends the recovery leave half the window, and no recovery. */
  lemma RecoveryHalvesOnce(c: Cong)
    requires Good(c) && c.dup == 0
    ensures Replay(c, [DupAck, DupAck]).cwnd == c.cwnd && !Replay(c, [DupAck, DupAck]).fast
    ensures Replay(c, [DupAck, DupAck] + [DupAck]).cwnd == Max(c.cwnd / 2.0, 2.0) + 3.0
    ensures var d := Replay(c, [DupAck, DupAck] + [DupAck] + [NewAck]);
            d.cwnd == d.ssthresh == Max(c.cwnd / 2.0, 2.0) && !d.fast && d.dup == 0
  {
    assert Replay(c, []) == c;
    ReplayLast(c, [], DupAck);
    ReplayLast(c, [] + [DupAck], DupAck);
    assert [] + [DupAck] + [DupAck] == [DupAck, DupAck];
    ReplayLast(c, [DupAck, DupAck], DupAck);
    ReplayLast(c, [DupAck, DupAck] + [DupAck], NewAck);
  }

  // ---------------------------------------------------------------- congestion avoidance

  /** From the threshold on, one new ACK adds the part of a segment that a whole window of them adds up to. */
  lemma AvoidanceRate(c: Cong)
    requires !c.fast && c.cwnd >= c.ssthresh
    ensures (OnNewAck(c).cwnd - c.cwnd) * c.cwnd == 1.0 && OnNewAck(c) == c.(cwnd := OnNewAck(c).cwnd, dup := 0)
  {
    assert (1.0 / c.cwnd) * c.cwnd == 1.0;
  }

  lemma SquareOfIncrease(c: real)
    requires c >= 1.0
    ensures c * c + 2.0 <= (c + 1.0 / c) * (c + 1.0 / c) <= c * c + 3.0
  {
    var q := 1.0 / c;
    assert q * c == 1.0;
    QuotientBounds(1.0, c);
    assert (c + q) * (c + q) == c * c + 2.0 * (q * c) + q * q;
    assert 0.0 <= q * q <= 1.0;
  }

  ghost predicate AvoidanceAfter(c: real, d: real, k: real) {
    && d >= c
    && c * c + 2.0 * k <= d * d <= c * c + 3.0 * k
    && (d - c) * c <= k
  }

  function Avoiding(c: real, k: nat): (d: real)
    requires c >= 1.0
    ensures d >= c
  {
    if k == 0 then c else
      var b := Avoiding(c, k - 1);
      QuotientBounds(1.0, b);
      b + 1.0 / b
  }

  lemma {:induction false} AvoidanceFollows(c: Cong, k: nat)
    requires Good(c) && !c.fast && c.cwnd >= c.ssthresh
    ensures var d := Replay(c, Repeat(NewAck, k));
            !d.fast && d.ssthresh == c.ssthresh && d.cwnd == Avoiding(c.cwnd, k)
    decreases k
  {
    if k == 0 {
      assert Replay(c, Repeat(NewAck, 0)) == c;
    } else {
      AvoidanceFollows(c, k - 1);
      ReplayRepeat(c, NewAck, k);
    }
  }

  lemma {:induction false} AvoidingGrows(c: real, k: nat)
    requires c >= 1.0
    ensures AvoidanceAfter(c, Avoiding(c, k), k as real)
    decreases k
  {
    if k == 0 {
      AvoidanceStart(c);
    } else {
      AvoidingGrows(c, k - 1);
      AvoidanceStep(c, Avoiding(c, k - 1), Avoiding(c, k), (k - 1) as real);
      assert (k - 1) as real + 1.0 == k as real;
    }
  }

  /** `k` new ACKs in a row during congestion avoidance: the square of the window grows by 2k to 3k, and the window
      by at most k divided by its first size, the one-segment-per-window rate of section 3.1 of RFC 5681. */
  lemma AvoidanceGrowth(c: Cong, k: nat) returns (window: real)
    requires Good(c) && !c.fast && c.cwnd >= c.ssthresh
    ensures !Replay(c, Repeat(NewAck, k)).fast && Replay(c, Repeat(NewAck, k)).cwnd == window
    ensures AvoidanceAfter(c.cwnd, window, k as real)
    ensures k as real <= c.cwnd ==> window <= c.cwnd + 1.0
  {
    window := Avoiding(c.cwnd, k);
    AvoidanceFollows(c, k);
    AvoidingGrows(c.cwnd, k);
    AvoidingAtMostOne(c.cwnd, k);
  }

  lemma AvoidanceStart(c: real)
    ensures AvoidanceAfter(c, c, 0.0)
  {
  }

  lemma AvoidanceStep(c: real, b: real, d: real, k: real)
    requires c >= 1.0 && AvoidanceAfter(c, b, k) && d == b + 1.0 / b
    ensures AvoidanceAfter(c, d, k + 1.0)
  {
    SquareOfIncrease(b);
    IncreaseTimesFirst(b, c);
    assert (d - c) * c == (b - c) * c + (1.0 / b) * c;
  }

  lemma IncreaseTimesFirst(b: real, c: real)
    requires b >= c >= 1.0
    ensures 0.0 < 1.0 / b && (1.0 / b) * c <= 1.0
  {
    QuotientBounds(1.0, b);
    assert (1.0 / b) * b == 1.0;
    assert (1.0 / b) * (b - c) >= 0.0;
  }

  lemma AvoidingAtMostOne(c: real, k: nat)
    requires c >= 1.0
    ensures k as real <= c ==> Avoiding(c, k) <= c + 1.0
  {
    AvoidingGrows(c, k);
    if k as real <= c {
      AtMostOne(Avoiding(c, k) - c, c, k as real);
    }
  }

  lemma AtMostOne(gain: real, c: real, k: real)
    requires c >= 1.0 && gain * c <= k && k <= c
    ensures gain <= 1.0
  {
    if gain > 1.0 {
      ProductExceeds(gain, c);
    }
  }

  lemma ProductExceeds(e: real, c: real)
    requires e > 1.0 && c >= 1.0
    ensures e * c > c
  {
    ProductPositive(e - 1.0, c);
    assert (e - 1.0) * c == e * c - c;
  }

  lemma ProductPositive(a: real, b: real)
    requires a > 0.0 && b > 0.0
    ensures a * b > 0.0
  {
  }
}
