/** The two programs, src/sender.cpp and src/receiver.cpp, on the class Rtp, and their place in the step system:
    whatever turns they meet, they do what the sender and the receiver of TransferSystem do. */
module Routines {
  import opened SequenceNumbers
  import opened Packets
  import opened Segmentation
  import opened Congestion
  import opened TransferSystem
  import opened RtpEndpoint
  import S = SenderSide
  import R = ReceiverSide

  // ---------------------------------------------------------------- one side of the system

  /** The sender of the system after these turns, and everything it has sent. */
  function SenderRun(c: Config, turns: seq<Turn>): S.Move
    decreases |turns|
  {
    if |turns| == 0 then S.StartConnect(NewSender(c), c.x) else
      var before := SenderRun(c, turns[..|turns| - 1]);
      var last := SenderProgram(c, S.Iterate(c.nb, before.s, turns[|turns| - 1]));
      S.Move(last.s, before.out + last.out)
  }

  function SenderTurns(labels: seq<Label>): seq<Turn>
    decreases |labels|
  {
    if |labels| == 0 then [] else
      var last := labels[|labels| - 1];
      SenderTurns(labels[..|labels| - 1]) + if last.SenderTurn? then [last.turn] else []
  }

  lemma SendingAppend(a: seq<Packet>, b: seq<Packet>)
    ensures Sending(a + b) == Sending(a) + Sending(b)
  {
  }

  /** In every run of the system, the sender and its channel are what the sender's own turns make of them. */
  lemma {:induction false} SenderOfRun(c: Config, labels: seq<Label>)
    ensures var m := SenderRun(c, SenderTurns(labels));
            Exec(c, Init(c), labels).s == m.s && Exec(c, Init(c), labels).toR == Sending(m.out)
    decreases |labels|
  {
    if |labels| > 0 {
      var front, last := labels[..|labels| - 1], labels[|labels| - 1];
      SenderOfRun(c, front);
      var turns := SenderTurns(front);
      if last.SenderTurn? {
        assert (turns + [last.turn])[..|turns|] == turns;
        var before := SenderRun(c, turns);
        SendingAppend(before.out, SenderProgram(c, S.Iterate(c.nb, before.s, last.turn)).out);
      } else {
        assert SenderTurns(labels) == turns + [] == turns;
      }
    }
  }

  lemma SenderIdle(c: Config, s: S.Sender, t: Turn)
    requires s.phase.Closed? || s.phase.Failed?
    ensures S.Iterate(c.nb, s, t) == S.Move(s, []) && SenderProgram(c, S.Move(s, [])) == S.Move(s, [])
  {
  }

  lemma SenderRunIdle(c: Config, turns: seq<Turn>)
    requires |turns| > 0
    requires var phase := SenderRun(c, turns[..|turns| - 1]).s.phase; phase.Closed? || phase.Failed?
    ensures SenderRun(c, turns) == SenderRun(c, turns[..|turns| - 1])
  {
    var before := SenderRun(c, turns[..|turns| - 1]);
    SenderIdle(c, before.s, turns[|turns| - 1]);
    NothingSent(before.out);
  }

  lemma NothingSent(out: seq<Packet>)
    ensures out + [] == out
  {
  }

  /** After the end the sender stands still. */
  lemma {:induction false} SenderStays(c: Config, turns: seq<Turn>, used: nat)
    requires used <= |turns|
    requires var phase := SenderRun(c, turns[..used]).s.phase; phase.Closed? || phase.Failed?
    ensures SenderRun(c, turns) == SenderRun(c, turns[..used])
    decreases |turns|
  {
    if used == |turns| {
      assert turns[..used] == turns;
    } else {
      assert turns[..|turns| - 1][..used] == turns[..used];
      SenderStays(c, turns[..|turns| - 1], used);
      SenderRunIdle(c, turns);
    }
  }

  datatype Reception = Reception(m: R.Move, written: Option<Bytes>)

  /** The receiver of the system after these turns, everything it has sent, and what it has written. */
  ghost function ReceiverRun(c: Config, turns: seq<Turn>): Reception
    decreases |turns|
  {
    if |turns| == 0 then Reception(R.Move(NewReceiver(c), []), None) else
      var before := ReceiverRun(c, turns[..|turns| - 1]);
      var k := R.Iterate(c.nb, before.m.r, turns[|turns| - 1]);
      var last := ReceiverProgram(c, k);
      Reception(R.Move(last.r, before.m.out + last.out),
                if k.r.phase.Received? then Some(InOrder(k.r.dataMap)) else before.written)
  }

  function ReceiverTurns(labels: seq<Label>): seq<Turn>
    decreases |labels|
  {
    if |labels| == 0 then [] else
      var last := labels[|labels| - 1];
      ReceiverTurns(labels[..|labels| - 1]) + if last.ReceiverTurn? then [last.turn] else []
  }

  /** In every run of the system, the receiver, its channel and its file are what its own turns make of them. */
  lemma {:induction false} ReceiverOfRun(c: Config, labels: seq<Label>)
    ensures var k, z := ReceiverRun(c, ReceiverTurns(labels)), Exec(c, Init(c), labels);
            z.r == k.m.r && z.toS == Sending(k.m.out) && z.written == k.written
    decreases |labels|
  {
    if |labels| > 0 {
      var front, last := labels[..|labels| - 1], labels[|labels| - 1];
      ReceiverOfRun(c, front);
      var turns := ReceiverTurns(front);
      if last.ReceiverTurn? {
        assert (turns + [last.turn])[..|turns|] == turns;
        var before := ReceiverRun(c, turns);
        SendingAppend(before.m.out, ReceiverProgram(c, R.Iterate(c.nb, before.m.r, last.turn)).out);
      } else {
        assert ReceiverTurns(labels) == turns + [] == turns;
      }
    }
  }

  lemma ReceiverIdle(c: Config, r: R.Receiver, t: Turn)
    requires r.phase.Done? || r.phase.Failed?
    ensures R.Iterate(c.nb, r, t) == R.Move(r, []) && ReceiverProgram(c, R.Move(r, [])) == R.Move(r, [])
  {
  }

  lemma ReceptionIdle(c: Config, turns: seq<Turn>)
    requires |turns| > 0
    requires var phase := ReceiverRun(c, turns[..|turns| - 1]).m.r.phase; phase.Done? || phase.Failed?
    ensures ReceiverRun(c, turns) == ReceiverRun(c, turns[..|turns| - 1])
  {
    var before := ReceiverRun(c, turns[..|turns| - 1]);
    ReceiverIdle(c, before.m.r, turns[|turns| - 1]);
    NothingSent(before.m.out);
  }

  /** After the end the receiver stands still. */
  lemma {:induction false} ReceiverStays(c: Config, turns: seq<Turn>, used: nat)
    requires used <= |turns|
    requires var phase := ReceiverRun(c, turns[..used]).m.r.phase; phase.Done? || phase.Failed?
    ensures ReceiverRun(c, turns) == ReceiverRun(c, turns[..used])
    decreases |turns|
  {
    if used == |turns| {
      assert turns[..used] == turns;
    } else {
      assert turns[..|turns| - 1][..used] == turns[..used];
      ReceiverStays(c, turns[..|turns| - 1], used);
      ReceptionIdle(c, turns);
    }
  }

  // ---------------------------------------------------------------- one loop of a program

  lemma {:induction false} GoingBefore(s: S.Sender, turns: seq<Turn>, i: nat)
    requires i <= |turns| && S.Going(S.Run(Wire, s, turns).s.phase)
    ensures S.Going(S.Run(Wire, s, turns[..i]).s.phase)
    decreases |turns|
  {
    if i == |turns| {
      assert turns[..i] == turns;
    } else {
      assert turns[..|turns| - 1][..i] == turns[..i];
      GoingBefore(s, turns[..|turns| - 1], i);
    }
  }

  /** While one loop runs, the program only iterates it; when it ends, the program goes on. */
  lemma {:induction false} SenderStage(c: Config, base: seq<Turn>, more: seq<Turn>, start: S.Sender)
    requires c.nb.Wire? && SenderRun(c, base).s == start && S.Going(start.phase)
    requires |more| > 0 ==> S.Going(S.Run(Wire, start, more[..|more| - 1]).s.phase)
    ensures var p := SenderProgram(c, S.Run(Wire, start, more));
            SenderRun(c, base + more) == S.Move(p.s, SenderRun(c, base).out + p.out)
    decreases |more|
  {
    if |more| == 0 {
      assert base + more == base && SenderRun(c, base).out + [] == SenderRun(c, base).out;
      ProgramIdle(c, S.Move(start, []));
    } else {
      var front := more[..|more| - 1];
      if |front| > 0 {
        GoingBefore(start, front, |front| - 1);
      }
      SenderStage(c, base, front, start);
      ProgramIdle(c, S.Run(Wire, start, front));
      SenderStageStep(c, base, more, start);
    }
  }

  lemma SenderStageStep(c: Config, base: seq<Turn>, more: seq<Turn>, start: S.Sender)
    requires c.nb.Wire? && |more| > 0
    requires var front := S.Run(Wire, start, more[..|more| - 1]);
             && S.Going(front.s.phase)
             && SenderRun(c, base + more[..|more| - 1]) == S.Move(front.s, SenderRun(c, base).out + front.out)
    ensures var p := SenderProgram(c, S.Run(Wire, start, more));
            SenderRun(c, base + more) == S.Move(p.s, SenderRun(c, base).out + p.out)
  {
    assert (base + more)[..|base + more| - 1] == base + more[..|more| - 1];
    var front := S.Run(Wire, start, more[..|more| - 1]);
    var k := S.Iterate(Wire, front.s, more[|more| - 1]);
    ProgramAppends(c, k, front.out);
    AppendAssociates(SenderRun(c, base).out, front.out, SenderProgram(c, k).out);
  }

  lemma SplitTurns(turns: seq<Turn>, from: nat, taken: nat, used: nat)
    requires used == from + taken <= |turns|
    ensures turns[..from] + turns[from..][..taken] == turns[..used]
    ensures taken > 0 ==> turns[from..][..taken][..taken - 1] == turns[from..][..taken - 1]
  {
  }

  /** The same, in terms of how many turns have been taken. */
  lemma SenderStageAt(c: Config, turns: seq<Turn>, from: nat, taken: nat, used: nat, start: S.Sender)
    requires c.nb.Wire? && used == from + taken <= |turns|
    requires SenderRun(c, turns[..from]).s == start && S.Going(start.phase)
    requires SenderNeeded(start, turns[from..], taken)
    ensures var p := SenderProgram(c, S.Run(Wire, start, turns[from..][..taken]));
            SenderRun(c, turns[..used]) == S.Move(p.s, SenderRun(c, turns[..from]).out + p.out)
  {
    var more := turns[from..][..taken];
    SplitTurns(turns, from, taken, used);
    SenderStage(c, turns[..from], more, start);
  }

  /** The program stands still inside a loop and after a failure or the end. */
  lemma ProgramIdle(c: Config, m: S.Move)
    requires !m.s.phase.Connected? && !m.s.phase.Sent?
    ensures SenderProgram(c, m) == m
  {
  }

  // ---------------------------------------------------------------- src/sender.cpp

  /** The fields and the socket are as the move `m` leaves them. */
  ghost predicate Holds(rtp: Rtp, m: S.Move)
    reads rtp
  {
    rtp.Sends(m.s) && rtp.sent == m.out
  }

  /** `rtp` is where the system's sender is after the first `used` turns. */
  ghost predicate SenderAt(rtp: Rtp, c: Config, turns: seq<Turn>, used: nat)
    reads rtp
  {
    used <= |turns| && Holds(rtp, SenderRun(c, turns[..used]))
  }

  /** connect stays among its own phases and leaves the map alone. */
  lemma {:induction false} ConnectPhases(s: S.Sender, turns: seq<Turn>)
    requires s.phase.Connecting?
    ensures var y := S.Run(Wire, s, turns).s;
            && (y.phase.Connecting? || y.phase.Settling? || y.phase.Connected? || y.phase.Failed?)
            && y.dataMap == s.dataMap
    decreases |turns|
  {
    if |turns| > 0 {
      ConnectPhases(s, turns[..|turns| - 1]);
    }
  }

  lemma {:induction false} SendPhases(s: S.Sender, turns: seq<Turn>)
    requires s.phase.Sending? || s.phase.Sent?
    ensures var y := S.Run(Wire, s, turns).s; y.phase.Sending? || y.phase.Sent? || y.phase.Failed?
    decreases |turns|
  {
    if |turns| > 0 {
      SendPhases(s, turns[..|turns| - 1]);
    }
  }

  lemma {:induction false} ClosePhases(s: S.Sender, turns: seq<Turn>)
    requires s.phase.Closing?
    ensures var y := S.Run(Wire, s, turns).s; y.phase.Closing? || y.phase.Closed? || y.phase.Failed?
    decreases |turns|
  {
    if |turns| > 0 {
      ClosePhases(s, turns[..|turns| - 1]);
    }
  }

  /** The end of one method: `m` is where its last loop stopped, and the program goes on from there. */
  ghost predicate StageEnd(rtp: Rtp, c: Config, turns: seq<Turn>, used: nat, m: S.Move)
    reads rtp
  {
    used <= |turns| && Holds(rtp, m) && SenderRun(c, turns[..used]) == SenderProgram(c, m)
  }

  method ConnectStage(rtp: Rtp, c: Config, turns: seq<Turn>, ghost s: S.Sender)
    returns (outcome: Outcome, used: nat, ghost m: S.Move)
    requires c.nb.Wire? && rtp.Sends(s) && rtp.sent == [] && s.dataMap == map[]
    requires S.StartConnect(s, c.x) == S.StartConnect(NewSender(c), c.x)
    modifies rtp
    ensures rtp.connected && StageEnd(rtp, c, turns, used, m)
    ensures outcome == Rtp.ConnectOutcome(m.s.phase)
    ensures m.s.phase.Connecting? || m.s.phase.Settling? || m.s.phase.Connected? || m.s.phase.Failed?
    ensures outcome.Running? ==> used == |turns|
    ensures m.s.dataMap == map[]
  {
    outcome, used := rtp.Connect(c.x, turns, s);
    m := ConnectEnd(c, turns, used, S.StartConnect(s, c.x));
  }

  /** Where connect leaves the program. */
  lemma ConnectEnd(c: Config, turns: seq<Turn>, used: nat, start: S.Move) returns (m: S.Move)
    requires c.nb.Wire? && used <= |turns| && start == S.StartConnect(NewSender(c), c.x)
    requires SenderNeeded(start.s, turns, used)
    ensures var k := S.Run(Wire, start.s, turns[..used]);
            && m.s == k.s && m.out == start.out + k.out
            && (k.s.phase.Connecting? || k.s.phase.Settling? || k.s.phase.Connected? || k.s.phase.Failed?)
    ensures SenderRun(c, turns[..used]) == SenderProgram(c, m) && m.s.dataMap == map[]
  {
    var k := S.Run(Wire, start.s, turns[..used]);
    ConnectPhases(start.s, turns[..used]);
    assert SenderRun(c, turns[..0]) == start;
    assert turns[0..] == turns;
    SenderStageAt(c, turns, 0, used, used, start.s);
    ProgramAppends(c, k, start.out);
    m := S.Move(k.s, start.out + k.out);
  }

  /** The move with which the program goes on from the end of send_file into close. */
  ghost function ThenClosing(m: S.Move): S.Move {
    var k := S.StartClose(Wire, m.s);
    S.Move(k.s, m.out + k.out)
  }

  lemma ConnectedGoesOn(c: Config, m: S.Move)
    requires c.nb.Wire? && m.s.phase.Connected?
    ensures var start := Rtp.SendStart(m.s, c.file);
            SenderProgram(c, m) == if TotalPackets(c.file) == 0
                                   then ThenClosing(S.Move(S.EndSend(start, TotalPackets(c.file)), m.out))
                                   else S.Move(start, m.out)
  {
    ThenCloses(c, S.Move(Rtp.SendStart(m.s, c.file), m.out), TotalPackets(c.file));
  }

  lemma ThenCloses(c: Config, k: S.Move, total: nat)
    requires c.nb.Wire? && total == TotalPackets(c.file)
    ensures ThenClose(c, k) == if k.s.phase.Sent? then ThenClosing(S.Move(S.EndSend(k.s, total), k.out)) else k
  {
  }

  lemma SentGoesOn(c: Config, m: S.Move)
    requires c.nb.Wire? && m.s.phase.Sent?
    ensures SenderProgram(c, m) == ThenClosing(S.Move(S.EndSend(m.s, TotalPackets(c.file)), m.out))
  {
  }

  method SendStage(rtp: Rtp, c: Config, turns: seq<Turn>, from: nat, ghost m: S.Move)
    returns (outcome: Outcome, used: nat, ghost n: S.Move)
    requires c.nb.Wire? && rtp.connected && StageEnd(rtp, c, turns, from, m)
    requires m.s.phase.Connected? && m.s.dataMap == map[]
    modifies rtp
    ensures rtp.connected && from <= used <= |turns| && Holds(rtp, n)
    ensures outcome == Returned(0) ==> SenderRun(c, turns[..used]) == ThenClosing(n)
    ensures outcome != Returned(0) ==> SenderRun(c, turns[..used]) == n
    ensures outcome.Running? ==> used == |turns| && n.s.phase.Sending?
    ensures !outcome.Running? ==> outcome == Returned(0) || (outcome.Exited? && n.s.phase.Failed?)
  {
    var taken;
    ghost var start;
    outcome, taken, start := rtp.SendFile(c.file, turns[from..], m.s);
    used := from + taken;
    n := SendEnd(c, turns, from, taken, used, m, start, outcome);
  }

  /** Where send_file, whose loop starts as `start`, leaves the program. */
  lemma SendEnd(c: Config, turns: seq<Turn>, from: nat, taken: nat, used: nat, m: S.Move, start: S.Sender,
                outcome: Outcome) returns (n: S.Move)
    requires c.nb.Wire? && used == from + taken <= |turns| && m.s.phase.Connected?
    requires start == Rtp.SendStart(m.s, c.file)
    requires SenderRun(c, turns[..from]) == SenderProgram(c, m)
    requires SenderNeeded(start, turns[from..], taken)
    requires TotalPackets(c.file) == 0 ==> taken == 0
    requires outcome == Rtp.SendOutcome(S.Run(Wire, start, turns[from..][..taken]).s.phase)
    ensures var k := S.Run(Wire, start, turns[from..][..taken]);
            && n.s == (if outcome == Returned(0) then S.EndSend(k.s, TotalPackets(c.file)) else k.s)
            && n.out == m.out + k.out
            && (k.s.phase.Sending? || k.s.phase.Sent? || k.s.phase.Failed?)
    ensures outcome == Returned(0) ==> SenderRun(c, turns[..used]) == ThenClosing(n)
    ensures outcome != Returned(0) ==> SenderRun(c, turns[..used]) == n
  {
    var k := S.Run(Wire, start, turns[from..][..taken]);
    SendPhases(start, turns[from..][..taken]);
    ConnectedGoesOn(c, m);
    n := S.Move(if outcome == Returned(0) then S.EndSend(k.s, TotalPackets(c.file)) else k.s, m.out + k.out);
    if TotalPackets(c.file) > 0 {
      SenderStageAt(c, turns, from, taken, used, start);
      SendGoesOn(c, m.out, k);
    }
  }

  lemma SendGoesOn(c: Config, before: seq<Packet>, k: S.Move)
    requires c.nb.Wire? && (k.s.phase.Sending? || k.s.phase.Sent? || k.s.phase.Failed?)
    ensures var p := SenderProgram(c, k);
            (S.Move(p.s, before + p.out)
             == if k.s.phase.Sent? then ThenClosing(S.Move(S.EndSend(k.s, TotalPackets(c.file)), before + k.out))
                else S.Move(k.s, before + k.out))
  {
    if k.s.phase.Sent? {
      SentGoesOn(c, k);
      var end := S.EndSend(k.s, TotalPackets(c.file));
      AppendAssociates(before, k.out, S.StartClose(Wire, end).out);
    } else {
      ProgramIdle(c, k);
    }
  }

  method CloseStage(rtp: Rtp, c: Config, turns: seq<Turn>, from: nat, ghost n: S.Move)
    returns (outcome: Outcome, used: nat)
    requires c.nb.Wire? && rtp.connected && from <= |turns| && Holds(rtp, n)
    requires SenderRun(c, turns[..from]) == ThenClosing(n)
    modifies rtp
    ensures SenderAt(rtp, c, turns, used)
    ensures var phase := SenderRun(c, turns[..used]).s.phase;
            && outcome == Rtp.CloseOutcome(phase) && (outcome.Running? ==> phase.Closing? && used == |turns|)
  {
    var taken;
    outcome, taken := rtp.Close(turns[from..], n.s);
    used := from + taken;
    CloseEnd(c, turns, from, taken, used, n);
  }

  /** Where close leaves the program. */
  lemma CloseEnd(c: Config, turns: seq<Turn>, from: nat, taken: nat, used: nat, n: S.Move)
    requires c.nb.Wire? && used == from + taken <= |turns| && SenderRun(c, turns[..from]) == ThenClosing(n)
    requires SenderNeeded(S.StartClose(Wire, n.s).s, turns[from..], taken)
    ensures var k := S.Run(Wire, S.StartClose(Wire, n.s).s, turns[from..][..taken]);
            && SenderRun(c, turns[..used]) == S.Move(k.s, n.out + S.StartClose(Wire, n.s).out + k.out)
            && (k.s.phase.Closing? || k.s.phase.Closed? || k.s.phase.Failed?)
  {
    var start := S.StartClose(Wire, n.s);
    ClosePhases(start.s, turns[from..][..taken]);
    SenderStageAt(c, turns, from, taken, used, start.s);
    ProgramIdle(c, S.Run(Wire, start.s, turns[from..][..taken]));
  }

  method SenderStages(rtp: Rtp, c: Config, turns: seq<Turn>, ghost s: S.Sender) returns (outcome: Outcome, used: nat)
    requires c.nb.Wire? && rtp.Sends(s) && rtp.sent == [] && s.dataMap == map[]
    requires S.StartConnect(s, c.x) == S.StartConnect(NewSender(c), c.x)
    modifies rtp
    ensures SenderAt(rtp, c, turns, used)
    ensures var phase := SenderRun(c, turns[..used]).s.phase;
            && (outcome == Returned(0) <==> phase.Closed?)
            && (outcome.Running? <==> S.Going(phase)) && (outcome.Running? ==> used == |turns|)
            && (!outcome.Running? ==> phase.Closed? || phase.Failed?)
  {
    ghost var m, n;
    outcome, used, m := ConnectStage(rtp, c, turns, s);
    if outcome != Returned(0) {
      ProgramIdle(c, m);
      return;
    }
    outcome, used, n := SendStage(rtp, c, turns, used, m);
    if outcome == Returned(0) {
      outcome, used := CloseStage(rtp, c, turns, used, n);
    }
  }

  /** sender_routine: connect, send_file, close. Whatever turns it meets, the object is where the system's sender is
      after them, and it has sent exactly what the system's sender has sent. */
  method SenderRoutine(c: Config, turns: seq<Turn>) returns (rtp: Rtp, outcome: Outcome)
    requires c.nb.Wire?
    ensures fresh(rtp) && Holds(rtp, SenderRun(c, turns))
    ensures outcome == Returned(0) <==> SenderRun(c, turns).s.phase.Closed?
    ensures outcome.Running? <==> S.Going(SenderRun(c, turns).s.phase)
  {
    rtp := new Rtp(c.s0.seqNum, c.s0.seqBase, c.s0.finReceived, c.s0.finSeq);
    ghost var s := S.Sender(S.Connecting, 0, 0, c.s0.seqBase, c.s0.seqNum, 0, 0, 0, INITIAL, -1, map[], rtp.Fin());
    var used;
    outcome, used := SenderStages(rtp, c, turns, s);
    if outcome.Running? {
      assert turns[..used] == turns;
    } else {
      SenderStays(c, turns, used);
    }
  }

  // ---------------------------------------------------------------- one loop of the other program

  lemma {:induction false} ReceiverGoingBefore(r: R.Receiver, turns: seq<Turn>, i: nat)
    requires i <= |turns| && R.Going(R.Run(Wire, r, turns).r.phase)
    ensures R.Going(R.Run(Wire, r, turns[..i]).r.phase)
    decreases |turns|
  {
    if i == |turns| {
      assert turns[..i] == turns;
    } else {
      assert turns[..|turns| - 1][..i] == turns[..i];
      ReceiverGoingBefore(r, turns[..|turns| - 1], i);
    }
  }

  /** The reception `before`, carried on by the move `m` of one loop and whatever the program does after it. */
  ghost function Continued(c: Config, before: Reception, m: R.Move): Reception {
    var p := ReceiverProgram(c, m);
    Reception(R.Move(p.r, before.m.out + p.out),
              if m.r.phase.Received? then Some(InOrder(m.r.dataMap)) else before.written)
  }

  lemma {:induction false} ReceiverStage(c: Config, base: seq<Turn>, more: seq<Turn>, start: R.Receiver)
    requires c.nb.Wire? && ReceiverRun(c, base).m.r == start && R.Going(start.phase)
    requires |more| > 0 ==> R.Going(R.Run(Wire, start, more[..|more| - 1]).r.phase)
    ensures ReceiverRun(c, base + more) == Continued(c, ReceiverRun(c, base), R.Run(Wire, start, more))
    decreases |more|
  {
    if |more| == 0 {
      assert base + more == base;
    } else {
      var front := more[..|more| - 1];
      assert (base + more)[..|base + more| - 1] == base + front;
      if |front| > 0 {
        ReceiverGoingBefore(start, front, |front| - 1);
      }
      ReceiverStage(c, base, front, start);
      ReceiverStageStep(c, base, more, start);
    }
  }

  lemma ReceiverStageStep(c: Config, base: seq<Turn>, more: seq<Turn>, start: R.Receiver)
    requires c.nb.Wire? && |more| > 0
    requires var front := R.Run(Wire, start, more[..|more| - 1]);
             && R.Going(front.r.phase)
             && ReceiverRun(c, base + more[..|more| - 1]) == Continued(c, ReceiverRun(c, base), front)
    ensures ReceiverRun(c, base + more) == Continued(c, ReceiverRun(c, base), R.Run(Wire, start, more))
  {
    assert (base + more)[..|base + more| - 1] == base + more[..|more| - 1];
    var front := R.Run(Wire, start, more[..|more| - 1]);
    var k := R.Iterate(Wire, front.r, more[|more| - 1]);
    ReceiverProgramAppends(c, k, front.out);
    AppendAssociates(ReceiverRun(c, base).m.out, front.out, ReceiverProgram(c, k).out);
  }

  lemma ReceiverProgramAppends(c: Config, k: R.Move, before: seq<Packet>)
    ensures var p, q := ReceiverProgram(c, k), ReceiverProgram(c, R.Move(k.r, before + k.out));
            q.r == p.r && q.out == before + p.out
  {
  }

  lemma ReceiverStageAt(c: Config, turns: seq<Turn>, from: nat, taken: nat, used: nat, start: R.Receiver)
    requires c.nb.Wire? && used == from + taken <= |turns| && ReceiverRun(c, turns[..from]).m.r == start
    requires R.Going(start.phase) && ReceiverNeeded(start, turns[from..], taken)
    ensures ReceiverRun(c, turns[..used])
         == Continued(c, ReceiverRun(c, turns[..from]), R.Run(Wire, start, turns[from..][..taken]))
  {
    var more := turns[from..][..taken];
    SplitTurns(turns, from, taken, used);
    ReceiverStage(c, turns[..from], more, start);
  }

  lemma {:induction false} AcceptPhases(r: R.Receiver, turns: seq<Turn>)
    requires r.phase.Listening?
    ensures var y := R.Run(Wire, r, turns).r;
            y.phase.Listening? || y.phase.Accepting? || y.phase.Accepted? || y.phase.Failed?
    decreases |turns|
  {
    if |turns| > 0 {
      AcceptPhases(r, turns[..|turns| - 1]);
    }
  }

  /** recv_file_gbn returns 0 only after a FIN. */
  lemma {:induction false} ReceivePhases(r: R.Receiver, turns: seq<Turn>)
    requires r.phase.Receiving?
    ensures var y := R.Run(Wire, r, turns).r;
            y.phase.Receiving? || (y.phase.Received? && y.fin.Some?) || y.phase.Failed?
    decreases |turns|
  {
    if |turns| > 0 {
      ReceivePhases(r, turns[..|turns| - 1]);
    }
  }

  lemma {:induction false} DoneStays(r: R.Receiver, turns: seq<Turn>)
    requires r.phase.Done?
    ensures R.Run(Wire, r, turns) == R.Move(r, [])
    decreases |turns|
  {
    if |turns| > 0 {
      DoneStays(r, turns[..|turns| - 1]);
    }
  }

  // ---------------------------------------------------------------- src/receiver.cpp

  ghost predicate ReceiverHolds(rtp: Rtp, m: R.Move)
    reads rtp
  {
    rtp.Receives(m.r) && rtp.sent == m.out
  }

  /** Where wait_connect leaves the program. */
  lemma AcceptEnd(c: Config, turns: seq<Turn>, used: nat) returns (m: R.Move)
    requires c.nb.Wire? && used <= |turns| && ReceiverNeeded(NewReceiver(c), turns, used)
    ensures m == R.Run(Wire, NewReceiver(c), turns[..used])
    ensures var p := ReceiverProgram(c, m); ReceiverRun(c, turns[..used]) == Reception(R.Move(p.r, p.out), None)
    ensures m.r.phase.Listening? || m.r.phase.Accepting? || m.r.phase.Accepted? || m.r.phase.Failed?
  {
    var start := NewReceiver(c);
    m := R.Run(Wire, start, turns[..used]);
    AcceptPhases(start, turns[..used]);
    assert turns[0..] == turns;
    ReceiverStageAt(c, turns, 0, used, used, start);
    assert ReceiverRun(c, turns[..0]) == Reception(R.Move(start, []), None);
    assert [] + ReceiverProgram(c, m).out == ReceiverProgram(c, m).out;
  }

  /** The move with which the program goes on from the end of recv_file into wait_close. */
  ghost function ThenWaiting(m: R.Move): R.Move {
    var k := R.StartWaitClose(Wire, m.r);
    R.Move(k.r, m.out + k.out)
  }

  /** Where recv_file leaves the program. */
  lemma ReceiveEnd(c: Config, turns: seq<Turn>, from: nat, taken: nat, used: nat, m: R.Move) returns (n: R.Move)
    requires c.nb.Wire? && used == from + taken <= |turns| && m.r.phase.Accepted?
    requires ReceiverRun(c, turns[..from]) == Reception(R.Move(R.StartReceive(m.r), m.out), None)
    requires ReceiverNeeded(R.StartReceive(m.r), turns[from..], taken)
    ensures var k := R.Run(Wire, R.StartReceive(m.r), turns[from..][..taken]);
            && n.out == m.out + k.out
            && (k.r.phase.Receiving? || (k.r.phase.Received? && k.r.fin.Some?) || k.r.phase.Failed?)
            && (if k.r.phase.Received?
                then n.r == R.EndReceive(k.r)
                     && ReceiverRun(c, turns[..used]) == Reception(ThenWaiting(n), Some(InOrder(k.r.dataMap)))
                else n.r == k.r && ReceiverRun(c, turns[..used]) == Reception(n, None))
  {
    var start := R.StartReceive(m.r);
    var k := R.Run(Wire, start, turns[from..][..taken]);
    ReceivePhases(start, turns[from..][..taken]);
    ReceiverStageAt(c, turns, from, taken, used, start);
    n := R.Move(if k.r.phase.Received? then R.EndReceive(k.r) else k.r, m.out + k.out);
    if k.r.phase.Received? {
      AppendAssociates(m.out, k.out, R.StartWaitClose(Wire, R.EndReceive(k.r)).out);
    }
  }

  method ListenStage(rtp: Rtp, c: Config, turns: seq<Turn>, ghost r: R.Receiver)
    returns (outcome: Outcome, used: nat, ghost m: R.Move)
    requires c.nb.Wire? && rtp.Receives(r) && rtp.sent == [] && R.StartListen(r) == NewReceiver(c)
    modifies rtp
    ensures used <= |turns| && ReceiverHolds(rtp, m) && outcome == Rtp.AcceptOutcome(m.r.phase)
    ensures var p := ReceiverProgram(c, m); ReceiverRun(c, turns[..used]) == Reception(R.Move(p.r, p.out), None)
    ensures m.r.phase.Listening? || m.r.phase.Accepting? || m.r.phase.Accepted? || m.r.phase.Failed?
    ensures outcome.Running? ==> used == |turns|
    ensures outcome == Returned(0) ==> rtp.connected
  {
    outcome, used := rtp.WaitConnect(turns, r);
    m := AcceptEnd(c, turns, used);
  }

  method ReceiveStage(rtp: Rtp, c: Config, turns: seq<Turn>, from: nat, ghost m: R.Move)
    returns (outcome: Outcome, used: nat, written: Option<Bytes>, ghost n: R.Move)
    requires c.nb.Wire? && rtp.connected && from <= |turns| && ReceiverHolds(rtp, m) && m.r.phase.Accepted?
    requires ReceiverRun(c, turns[..from]) == Reception(R.Move(R.StartReceive(m.r), m.out), None)
    modifies rtp
    ensures rtp.connected && from <= used <= |turns| && ReceiverHolds(rtp, n)
    ensures outcome == Returned(0) ==>
              n.r.fin.Some? && ReceiverRun(c, turns[..used]) == Reception(ThenWaiting(n), written)
    ensures outcome != Returned(0) ==> ReceiverRun(c, turns[..used]) == Reception(n, written)
    ensures outcome.Running? ==> used == |turns| && n.r.phase.Receiving?
    ensures !outcome.Running? ==> outcome == Returned(0) || (outcome.Exited? && n.r.phase.Failed?)
  {
    var taken;
    outcome, taken, written := rtp.RecvFile(turns[from..], m.r);
    used := from + taken;
    n := ReceiveEnd(c, turns, from, taken, used, m);
  }

  /** wait_close after a latched FIN: it answers at once and takes no turn. */
  method WaitCloseStage(rtp: Rtp, turns: seq<Turn>, ghost n: R.Move) returns (outcome: Outcome)
    requires rtp.connected && ReceiverHolds(rtp, n) && n.r.fin.Some?
    modifies rtp
    ensures outcome == Returned(0) && ReceiverHolds(rtp, ThenWaiting(n)) && ThenWaiting(n).r.phase.Done?
  {
    var taken;
    outcome, taken := rtp.WaitClose(turns, n.r);
    DoneStays(R.StartWaitClose(Wire, n.r).r, turns[..taken]);
  }

  method ReceiverStages(rtp: Rtp, c: Config, turns: seq<Turn>, ghost r: R.Receiver)
    returns (outcome: Outcome, used: nat, written: Option<Bytes>)
    requires c.nb.Wire? && rtp.Receives(r) && rtp.sent == [] && R.StartListen(r) == NewReceiver(c)
    modifies rtp
    ensures used <= |turns|
    ensures var z := ReceiverRun(c, turns[..used]);
            && ReceiverHolds(rtp, z.m) && written == z.written
            && (outcome == Returned(0) <==> z.m.r.phase.Done?)
            && (outcome.Running? <==> R.Going(z.m.r.phase)) && (outcome.Running? ==> used == |turns|)
            && (!outcome.Running? ==> z.m.r.phase.Done? || z.m.r.phase.Failed?)
  {
    written := None;
    ghost var m, n;
    outcome, used, m := ListenStage(rtp, c, turns, r);
    if outcome != Returned(0) {
      return;
    }
    outcome, used, written, n := ReceiveStage(rtp, c, turns, used, m);
    if outcome == Returned(0) {
      outcome := WaitCloseStage(rtp, turns[used..], n);
    }
  }

  /** receiver_routine: wait_connect, recv_file, wait_close. Whatever turns it meets, the object is where the system's
      receiver is after them, it has sent what the system's receiver has sent, and it has written the same file. */
  method ReceiverRoutine(c: Config, turns: seq<Turn>)
    returns (rtp: Rtp, outcome: Outcome, written: Option<Bytes>)
    requires c.nb.Wire?
    ensures fresh(rtp)
    ensures var z := ReceiverRun(c, turns);
            && ReceiverHolds(rtp, z.m) && written == z.written
            && (outcome == Returned(0) <==> z.m.r.phase.Done?)
            && (outcome.Running? <==> R.Going(z.m.r.phase))
  {
    rtp := new Rtp(c.r0.seqNum, c.r0.seqBase, c.r0.finReceived, c.r0.finSeq);
    ghost var r := R.Receiver(R.Listening, c.r0.seqBase, c.r0.seqNum, 0, map[], rtp.Fin(), false);
    var used;
    outcome, used, written := ReceiverStages(rtp, c, turns, r);
    if outcome.Running? {
      assert turns[..used] == turns;
    } else {
      ReceiverStays(c, turns, used);
    }
  }
}
