/** Packets after the checksum has been verified, and how a waiting endpoint reads them
    (src/rtp.h:24-48, src/rtp.cpp:146-156 and 207-267). */
module Packets {
  import opened SequenceNumbers

  datatype Option<+T> = None | Some(value: T)

  const PAYLOAD_MAX := 1461

  const RTP_DAT := 0
  const RTP_SYN := 1
  const RTP_ACK := 2
  const RTP_FIN := 4
  const RTP_SYN_ACK := 3
  const RTP_FIN_ACK := 6

  datatype Packet = Packet(number: int, flags: int, payload: seq<bv8>)

  function Header(number: int, flags: int): Packet {
    Packet(number, flags, [])
  }

  function Data(number: int, payload: seq<bv8>): Packet {
    Packet(number, RTP_DAT, payload)
  }

  /** What one iteration of a waiting loop meets: whether the loop's deadline has passed when it looks at the
      clock, whether the 200 ms retransmission timer has, the intact packets that arrive while it waits,
      and whether the wait ends in an error instead of a timeout when none of them is the awaited kind. */
  datatype Turn = Turn(late: bool, rto: bool, arrivals: seq<Packet>, fault: bool)

  /** The FIN latch of recv_packet: the first FIN of a connection is remembered by its 64-bit number. */
  function Latch(nb: Numbering, seqBase: int, connected: bool, fin: Option<int>, p: Packet): Option<int> {
    if connected && p.flags == RTP_FIN && fin.None? then Some(Decode(nb, seqBase, p.number)) else fin
  }

  datatype Reading = Reading(fin: Option<int>, hit: Option<Packet>)

  /** waitfor: packets are read in order until the first one whose flags match exactly; the others are dropped.
      The first SYN read opens the connection. */
  function ReadUntil(nb: Numbering, seqBase: int, connected: bool, fin: Option<int>, flags: int, arrivals: seq<Packet>)
    : (r: Reading)
    ensures r.hit.Some? ==> r.hit.value in arrivals && r.hit.value.flags == flags
    decreases |arrivals|
  {
    if |arrivals| == 0 then Reading(fin, None) else
      var latched := Latch(nb, seqBase, connected, fin, arrivals[0]);
      if arrivals[0].flags == flags then Reading(latched, Some(arrivals[0]))
      else ReadUntil(nb, seqBase, connected || arrivals[0].flags == RTP_SYN, latched, flags, arrivals[1..])
  }

  /** Whether the endpoint is connected after that wait. */
  function Opened(connected: bool, flags: int, arrivals: seq<Packet>): bool
    decreases |arrivals|
  {
    if |arrivals| == 0 then connected else
      var open := connected || arrivals[0].flags == RTP_SYN;
      if arrivals[0].flags == flags then open else Opened(open, flags, arrivals[1..])
  }

  /** An open connection stays open, and waiting for a SYN opens it exactly if one comes. */
  lemma {:induction false} OpenedExactly(connected: bool, flags: int, arrivals: seq<Packet>)
    ensures connected ==> Opened(connected, flags, arrivals)
    ensures flags == RTP_SYN ==> Opened(connected, flags, arrivals) == (connected || FirstOf(flags, arrivals).Some?)
    decreases |arrivals|
  {
    if |arrivals| > 0 {
      OpenedExactly(connected || arrivals[0].flags == RTP_SYN, flags, arrivals[1..]);
    }
  }

  /** The first packet of exactly this kind. */
  function FirstOf(flags: int, arrivals: seq<Packet>): (p: Option<Packet>)
    ensures p.Some? ==> p.value in arrivals && p.value.flags == flags
    decreases |arrivals|
  {
    if |arrivals| == 0 then None
    else if arrivals[0].flags == flags then Some(arrivals[0])
    else FirstOf(flags, arrivals[1..])
  }

  /** Stray packets of every other kind are discarded: what waitfor returns does not depend on them. */
  lemma {:induction false} ReadUntilHit(nb: Numbering, seqBase: int, connected: bool, fin: Option<int>, flags: int,
                                        arrivals: seq<Packet>)
    ensures ReadUntil(nb, seqBase, connected, fin, flags, arrivals).hit == FirstOf(flags, arrivals)
    decreases |arrivals|
  {
    if |arrivals| > 0 {
      ReadUntilHit(nb, seqBase, connected || arrivals[0].flags == RTP_SYN,
                   Latch(nb, seqBase, connected, fin, arrivals[0]), flags, arrivals[1..]);
    }
  }

  /** Whatever is latched while waiting came from a FIN that arrived, and a latched FIN is never replaced. */
  lemma {:induction false} ReadUntilLatches(nb: Numbering, seqBase: int, connected: bool, fin: Option<int>, flags: int,
                                            arrivals: seq<Packet>)
    ensures var r := ReadUntil(nb, seqBase, connected, fin, flags, arrivals);
            || r.fin == fin
            || ((connected || flags != RTP_SYN) && fin.None? && r.fin.Some?
                && exists p :: p in arrivals && p.flags == RTP_FIN && r.fin.value == Decode(nb, seqBase, p.number))
    decreases |arrivals|
  {
    if |arrivals| > 0 {
      var latched := Latch(nb, seqBase, connected, fin, arrivals[0]);
      assert arrivals[0] in arrivals;
      assert forall p :: p in arrivals[1..] ==> p in arrivals;
      ReadUntilLatches(nb, seqBase, connected || arrivals[0].flags == RTP_SYN, latched, flags, arrivals[1..]);
    }
  }

  /** waitfor reads the packet at `i`: none before it is of the awaited kind. */
  ghost predicate ReadAt(flags: int, arrivals: seq<Packet>, i: nat) {
    i < |arrivals| && forall j :: 0 <= j < i ==> arrivals[j].flags != flags
  }

  /** The packet at `i` is a FIN that is read while the endpoint is connected: from the start or by an earlier SYN. */
  ghost predicate FinAt(connected: bool, flags: int, arrivals: seq<Packet>, i: nat) {
    && ReadAt(flags, arrivals, i) && arrivals[i].flags == RTP_FIN
    && (connected || exists j :: 0 <= j < i && arrivals[j].flags == RTP_SYN)
  }

  lemma FinAtLater(connected: bool, flags: int, arrivals: seq<Packet>, i: nat)
    requires |arrivals| > 0 && arrivals[0].flags != flags
    ensures FinAt(connected, flags, arrivals, i + 1)
       <==> FinAt(connected || arrivals[0].flags == RTP_SYN, flags, arrivals[1..], i)
  {
    var rest := arrivals[1..];
    if FinAt(connected || arrivals[0].flags == RTP_SYN, flags, rest, i) {
      assert forall j :: 1 <= j < i + 1 ==> arrivals[j] == rest[j - 1];
      if !connected && arrivals[0].flags != RTP_SYN {
        var j :| 0 <= j < i && rest[j].flags == RTP_SYN;
        assert arrivals[j + 1].flags == RTP_SYN;
      }
    }
    if FinAt(connected, flags, arrivals, i + 1) {
      assert forall j :: 0 <= j < i ==> rest[j] == arrivals[j + 1];
      if !connected && arrivals[0].flags != RTP_SYN {
        var j :| 0 <= j < i + 1 && arrivals[j].flags == RTP_SYN;
        assert rest[j - 1].flags == RTP_SYN;
      }
    }
  }

  /** A wait latches a FIN exactly if it reads one while connected, and then the first such FIN. */
  lemma {:induction false} FirstFinLatched(nb: Numbering, seqBase: int, connected: bool, flags: int,
                                           arrivals: seq<Packet>) returns (i: nat)
    ensures var fin := ReadUntil(nb, seqBase, connected, None, flags, arrivals).fin;
            && (i < |arrivals| ==> FinAt(connected, flags, arrivals, i)
                                   && fin == Some(Decode(nb, seqBase, arrivals[i].number)))
            && (i >= |arrivals| ==> fin.None?)
    ensures forall j: nat :: j < i ==> !FinAt(connected, flags, arrivals, j)
    decreases |arrivals|
  {
    if |arrivals| == 0 {
      i := 0;
    } else if connected && arrivals[0].flags == RTP_FIN {
      i := 0;
      KeptLatch(nb, seqBase, connected, Decode(nb, seqBase, arrivals[0].number), flags, arrivals[1..]);
    } else if arrivals[0].flags == flags {
      i := |arrivals|;
    } else {
      var open := connected || arrivals[0].flags == RTP_SYN;
      var k := FirstFinLatched(nb, seqBase, open, flags, arrivals[1..]);
      i := k + 1;
      forall j: nat | j < i ensures !FinAt(connected, flags, arrivals, j) {
        if j > 0 {
          FinAtLater(connected, flags, arrivals, j - 1);
        }
      }
      FinAtLater(connected, flags, arrivals, k);
    }
  }

  lemma {:induction false} KeptLatch(nb: Numbering, seqBase: int, connected: bool, fin: int, flags: int,
                                     arrivals: seq<Packet>)
    ensures ReadUntil(nb, seqBase, connected, Some(fin), flags, arrivals).fin == Some(fin)
    decreases |arrivals|
  {
    if |arrivals| > 0 && arrivals[0].flags != flags {
      KeptLatch(nb, seqBase, connected || arrivals[0].flags == RTP_SYN, fin, flags, arrivals[1..]);
    }
  }
}
