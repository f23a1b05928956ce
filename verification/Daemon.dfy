/**
  The daemon as the process runs it: static variables updated in place, one call of
  `AlgorithmRun` per heartbeat. Each method is proved to issue the commands, and to leave
  the state, that the machine of NodeMachine prescribes for every sequence of replies.
 */
module QdiskDaemon {
  import opened SharedDisk
  import opened NodeMachine

  function Next(replies: seq<Reply>): Reply { if replies == [] then Failed else replies[0] }

  function Later(replies: seq<Reply>): seq<Reply> { if replies == [] then [] else replies[1..] }

  /** The device handle: replies still to come, and the commands issued so far. */
  class DiskPort {
    var replies: seq<Reply>
    var log: seq<Command>

    constructor (replies: seq<Reply>)
      ensures this.replies == replies && log == []
    {
      this.replies := replies;
      log := [];
    }

    method Issue(c: Command) returns (r: Reply)
      modifies this
      ensures log == old(log) + [c]
      ensures r == Next(old(replies)) && replies == Later(old(replies))
    {
      r := Next(replies);
      replies := Later(replies);
      log := log + [c];
    }
  }

  /** A daemon that has come to rest, what it issued on the way, and the replies left over. */
  datatype Outcome = Outcome(node: Node, issued: seq<Command>, left: seq<Reply>)

  /** Advances `n` until no command is in flight. */
  function Drive(n: Node, replies: seq<Reply>, c1: nat, c2: nat): Outcome
    decreases CommandsLeft(n.phase)
  {
    if !n.Waiting() then Outcome(n, [], replies)
    else
      var o := Drive(Receive(n, Next(replies), c1, c2), Later(replies), c1, c2);
      o.(issued := [Pending(n.phase)] + o.issued)
  }

  /** The acts of NodeMachine that `Drive` goes through. */
  ghost function DriveActs(n: Node, replies: seq<Reply>, c1: nat, c2: nat): seq<Act>
    decreases CommandsLeft(n.phase)
  {
    if !n.Waiting() then []
    else [Got(Next(replies), c1, c2)] + DriveActs(Receive(n, Next(replies), c1, c2), Later(replies), c1, c2)
  }

  /** Driving a node is a run of the machine, so what holds of all runs holds of the methods below. */
  lemma {:induction false} DriveIsRun(n: Node, replies: seq<Reply>, c1: nat, c2: nat)
    requires n.clock <= c1 <= c2
    ensures var acts := DriveActs(n, replies, c1, c2);
            && IsRun(n, acts)
            && Run(n, acts) == Drive(n, replies, c1, c2).node
            && !Run(n, acts).Waiting()
    decreases CommandsLeft(n.phase)
  {
    if !n.Waiting() {
    } else {
      var m := Receive(n, Next(replies), c1, c2);
      if m.Waiting() {
        DriveIsRun(m, Later(replies), c1, c2);
      }
    }
  }

  /** A whole heartbeat, as `AlgorithmRun` below performs it, is a run of the machine. */
  lemma HeartbeatIsRun(n: Node, view: View, replies: seq<Reply>, c0: nat, c1: nat, c2: nat)
    requires n.phase.Rest? && n.clock <= c0 <= c1 <= c2
    ensures var acts := [Tick(c0, view)] + DriveActs(Begin(n, c0, view), replies, c1, c2);
            && IsRun(n, acts)
            && Run(n, acts) == Drive(Begin(n, c0, view), replies, c1, c2).node
            && (Run(n, acts).phase.Rest? || Run(n, acts).phase.Down?)
  {
    hide Drive, DriveActs;
    var rest := DriveActs(Begin(n, c0, view), replies, c1, c2);
    DriveIsRun(Begin(n, c0, view), replies, c1, c2);
    assert ([Tick(c0, view)] + rest)[1..] == rest;
  }

  /** So is a start, as `AlgorithmInit` below performs it. It ends serving in `Rest`, or down again. */
  lemma StartIsRun(n: Node, nodeKeys: Option<seq<Key>>, replies: seq<Reply>, c1: nat, c2: nat)
    requires n.phase.Down? && n.clock <= c1 <= c2
    ensures var acts := [Boot(nodeKeys)] + DriveActs(BeginBoot(n, nodeKeys), replies, c1, c2);
            && IsRun(n, acts)
            && Run(n, acts) == Drive(BeginBoot(n, nodeKeys), replies, c1, c2).node
            && (Run(n, acts).phase.Rest? || Run(n, acts).phase.Down?)
  {
    hide Drive, DriveActs;
    var rest := DriveActs(BeginBoot(n, nodeKeys), replies, c1, c2);
    DriveIsRun(BeginBoot(n, nodeKeys), replies, c1, c2);
    assert ([Boot(nodeKeys)] + rest)[1..] == rest;
  }

  /** Driving `n0` goes through `n`, with `issued` sent and `replies` left at that point. */
  ghost predicate Through(n0: Node, replies0: seq<Reply>, n: Node, issued: seq<Command>, replies: seq<Reply>,
                          c1: nat, c2: nat)
  {
    var o0, o := Drive(n0, replies0, c1, c2), Drive(n, replies, c1, c2);
    o0.node == o.node && o0.issued == issued + o.issued && o0.left == o.left
  }

  /** The node after the reply to its pending command, and the commands sent so far. */
  lemma Sent(log0: seq<Command>, n0: Node, replies0: seq<Reply>, n: Node, sent: seq<Command>, left: seq<Reply>,
             c1: nat, c2: nat)
    returns (m: Node, sent': seq<Command>)
    requires n.Waiting() && Through(n0, replies0, n, sent, left, c1, c2)
    ensures m == Receive(n, Next(left), c1, c2) && sent' == sent + [Pending(n.phase)]
    ensures log0 + sent + [Pending(n.phase)] == log0 + sent'
    ensures Through(n0, replies0, m, sent', Later(left), c1, c2)
    ensures !m.Waiting() ==> Drive(n0, replies0, c1, c2) == Outcome(m, sent', Later(left))
  {
    m, sent' := Receive(n, Next(left), c1, c2), sent + [Pending(n.phase)];
    var o := Drive(m, Later(left), c1, c2);
    assert sent + ([Pending(n.phase)] + o.issued) == sent' + o.issued;
    assert log0 + sent + [Pending(n.phase)] == log0 + sent';
  }

  /** The first command of a drive. */
  lemma SentFirst(log0: seq<Command>, n0: Node, replies0: seq<Reply>, c1: nat, c2: nat)
    returns (m: Node, sent: seq<Command>)
    requires n0.Waiting()
    ensures m == Receive(n0, Next(replies0), c1, c2) && sent == [Pending(n0.phase)]
    ensures Through(n0, replies0, m, sent, Later(replies0), c1, c2)
    ensures !m.Waiting() ==> Drive(n0, replies0, c1, c2) == Outcome(m, sent, Later(replies0))
  {
    m, sent := Sent(log0, n0, replies0, n0, [], replies0, c1, c2);
    assert [] + [Pending(n0.phase)] == [Pending(n0.phase)];
  }

  /** A node with no command in flight is where its drive ends. */
  lemma NothingSent(log0: seq<Command>, n: Node, replies: seq<Reply>, c1: nat, c2: nat)
    ensures !n.Waiting() ==> Drive(n, replies, c1, c2) == Outcome(n, [], replies) && log0 + [] == log0
  {
  }

  /** Where the drive from `n` ends, the drive from `n0` ends. */
  lemma Resume(log0: seq<Command>, n0: Node, replies0: seq<Reply>, n: Node, sent: seq<Command>, left: seq<Reply>,
               c1: nat, c2: nat)
    requires Through(n0, replies0, n, sent, left, c1, c2)
    ensures var o0, o := Drive(n0, replies0, c1, c2), Drive(n, left, c1, c2);
            o0.node == o.node && log0 + o0.issued == log0 + sent + o.issued && o0.left == o.left
  {
    hide Drive;
    assert log0 + (sent + Drive(n, left, c1, c2).issued) == log0 + sent + Drive(n, left, c1, c2).issued;
  }

  /** Whether the holder is among the nodes in sight. A key of 0 matches nobody. */
  method FindHolder(nodeKeys: seq<Key>, reservationHolder: Key) returns (resvNodeVisible: bool)
    ensures resvNodeVisible <==> reservationHolder != 0 && reservationHolder in nodeKeys
  {
    resvNodeVisible := false;
    var i := 0;
    while i < |nodeKeys| && !resvNodeVisible
      invariant i <= |nodeKeys|
      invariant resvNodeVisible <==> reservationHolder != 0 && reservationHolder in nodeKeys[..i]
    {
      if nodeKeys[i] != 0 {
        resvNodeVisible := nodeKeys[i] == reservationHolder;
      }
      i := i + 1;
    }
  }

  method FindKey(keys: seq<Key>, key: Key) returns (found: bool)
    ensures found <==> key in keys
  {
    found := false;
    var j := 0;
    while j < |keys| && !found
      invariant j <= |keys|
      invariant found <==> key in keys[..j]
    {
      found := key == keys[j];
      j := j + 1;
    }
  }

  /** A start needs every node in sight to have its key on the disk. */
  method ValidateKeys(nodeKeys: seq<Key>, registered: seq<Key>) returns (ok: bool)
    ensures ok <==> forall k | k in nodeKeys :: k in registered
  {
    ok := true;
    var i := 0;
    while i < |nodeKeys| && ok
      invariant i <= |nodeKeys|
      invariant ok <==> forall k | k in nodeKeys[..i] :: k in registered
    {
      ok := FindKey(registered, nodeKeys[i]);
      i := i + 1;
    }
  }

  class Daemon {
    const key: Key
    const timeout: nat
    var state: State
    var timeoutTime: nat
    var goodHeartbeatTimeout: nat
    var down: Option<Reason>
    var clock: nat
    var polls: seq<Poll>
    var beats: nat

    function AsNode(): Node
      reads this
    {
      Node(key, timeout, state, timeoutTime, goodHeartbeatTimeout,
           if down.Some? then Down(down.value) else Rest, clock, polls, beats)
    }

    constructor (key: Key, timeout: nat)
      ensures this.key == key && this.timeout == timeout
      ensures AsNode() == Node(key, timeout, START, 0, UINT64_MAX, Down(NotStarted), 0, [], 0)
    {
      this.key, this.timeout := key, timeout;
      state, timeoutTime, goodHeartbeatTimeout, down := START, 0, UINT64_MAX, Some(NotStarted);
      clock, polls, beats := 0, [], 0;
    }

    /** The daemon and the port have gone from `n` and `replies` to where `Drive` takes them. */
    twostate predicate Drove(port: DiskPort, n: Node, c1: nat, c2: nat)
      reads this, port
    {
      var o := Drive(n, old(port.replies), c1, c2);
      AsNode() == o.node && port.log == old(port.log) + o.issued && port.replies == o.left
    }

    method Exit(why: Reason)
      modifies this
      ensures AsNode() == Halt(old(AsNode()), why)
    {
      down := Some(why);
      state, timeoutTime, goodHeartbeatTimeout := START, 0, UINT64_MAX;
    }

    /** vquorum_qdevice_unregister, followed by the end of the process. */
    method Withdrawn(why: Reason)
      modifies this
      ensures AsNode() == Withdraw(old(AsNode()), why)
    {
      polls := polls + [Poll(false, clock)];
      Exit(why);
    }

    /** algorithm_stop, followed by the end of the process. */
    method AlgorithmStop(port: DiskPort, why: Reason, ghost c1: nat, ghost c2: nat)
      modifies this, port
      ensures Drove(port, old(AsNode()).(phase := StopRelease(why)), c1, c2)
      ensures port.log == old(port.log) + [Release, Unregister]
      ensures down == Some(why) && polls == old(polls) + [Poll(false, clock)] && clock == old(clock)
    {
      hide Drive, CommandsLeft, Through, Switch;
      ghost var n, left := AsNode().(phase := StopRelease(why)), port.replies;
      var r := port.Issue(Release);
      ghost var m, sent := SentFirst(old(port.log), n, left, c1, c2);
      r := port.Issue(Unregister);
      m, sent := Sent(old(port.log), n, left, m, sent, Later(left), c1, c2);
      Withdrawn(why);
      assert [Release] + [Unregister] == [Release, Unregister];
    }

    /** The end of a heartbeat: the poll, unless skipped, and the new cutoff. */
    method EndHeartbeat(castVote: bool, skipPoll: bool, c2: nat)
      modifies this
      ensures AsNode() == Finish(old(AsNode()), old(state), old(timeoutTime),
                                 if skipPoll then None else Some(castVote), c2)
                          .(phase := old(AsNode()).phase)
    {
      if !skipPoll {
        polls := polls + [Poll(castVote, c2)];
      }
      goodHeartbeatTimeout := c2 + timeout;
      clock, beats := c2, beats + 1;
    }

    /** The RESERVE_DISK branch. */
    method RunReserve(port: DiskPort, snap: Snapshot, resvNodeVisible: bool, c1: nat, c2: nat)
      requires down.None? && state == RESERVE_DISK && resvNodeVisible == snap.HolderVisible()
      modifies this, port
      ensures Drove(port, old(AsNode()).(phase := DoReserve(snap)), c1, c2)
    {
      hide Drive, CommandsLeft, Through, Switch;
      ghost var n0, replies0 := AsNode().(phase := DoReserve(snap)), port.replies;
      var castVote, skipPoll := true, false;
      var reply := port.Issue(Reserve);
      ghost var n, sent := SentFirst(old(port.log), n0, replies0, c1, c2);
      if reply == Flag(true) {
        state := HAVE_QDISK;
      } else if resvNodeVisible {
        state := RECV_VOTE;
      } else if snap.reserved && !resvNodeVisible {
        state := RESIGNED;
        castVote := false;
      } else if c1 > timeoutTime {
        state := RESIGNED;
        castVote := false;
      } else {
        skipPoll := true;
      }
      EndHeartbeat(castVote, skipPoll, c2);
    }

    /** The RELEASE_QDISK branch, which is taken again at the next heartbeat unless it succeeds. */
    method RunRelease(port: DiskPort, c1: nat, c2: nat)
      requires down.None?
      modifies this, port
      ensures Drove(port, old(AsNode()).(phase := DoRelease), c1, c2)
    {
      hide Drive, CommandsLeft, Through, Switch;
      ghost var n0, replies0 := AsNode().(phase := DoRelease), port.replies;
      var reply := port.Issue(Release);
      ghost var n, sent := SentFirst(old(port.log), n0, replies0, c1, c2);
      var released := reply == Flag(true);
      if !released {
        ghost var left := port.replies;
        reply := port.Issue(IsReserved);
        n, sent := Sent(old(port.log), n0, replies0, n, sent, left, c1, c2);
        released := reply == Flag(false);
      }
      if released {
        state := IDLE;
      }
      EndHeartbeat(true, false, c2);
    }

    /** algorithm_run from its state switch on. */
    method RunState(port: DiskPort, snap: Snapshot, resvNodeVisible: bool, c1: nat, c2: nat)
      requires down.None? && resvNodeVisible == snap.HolderVisible()
      modifies this, port
      ensures Drove(port, Switch(old(AsNode()).(phase := AskKeys(snap)), snap, c1, c2), c1, c2)
    {
      var view := snap.view;
      var tiebreakNeeded := view.visible * 2 == view.nodeCount;
      var castVote, skipPoll := false, false;
      match state {
        case START =>
          castVote := false;
          if view.quorate {
            state := IDLE;
          }
        case IDLE =>
          castVote := true;
          if tiebreakNeeded {
            if resvNodeVisible {
              timeoutTime := c1 + timeout;
              state := RECV_VOTE;
            } else if !snap.reserved {
              timeoutTime := c1 + timeout;
              state := RESERVE_DISK;
            } else if c1 > timeoutTime {
              castVote := false;
              state := RESIGNED;
            } else {
              skipPoll := true;
            }
          } else if view.visible * 2 < view.nodeCount {
            castVote := false;
            state := RESIGNED;
          } else {
            timeoutTime := c1 + timeout;
          }
        case RESERVE_DISK =>
          RunReserve(port, snap, resvNodeVisible, c1, c2);
          return;
        case RECV_VOTE =>
          castVote := true;
          if resvNodeVisible && tiebreakNeeded {
            timeoutTime := c1 + timeout;
          } else if c1 > timeoutTime {
            state := IDLE;
          }
        case HAVE_QDISK =>
          castVote := true;
          if !snap.reserved || snap.holder != key {
            Exit(LostReservation);
            return;
          }
          if !tiebreakNeeded {
            state := RELEASE_QDISK;
          }
        case RELEASE_QDISK =>
          RunRelease(port, c1, c2);
          return;
        case RESIGNED =>
          castVote := false;
          if view.quorate {
            state := IDLE;
          }
      }
      EndHeartbeat(castVote, skipPoll, c2);
    }

    /** algorithm_run: one heartbeat, up to its state switch. */
    method AlgorithmRun(port: DiskPort, view: View, c0: nat, c1: nat, c2: nat)
      requires down.None?
      modifies this, port
      ensures Drove(port, Begin(old(AsNode()), c0, view), c1, c2)
    {
      hide Drive, Switch, AfterReserve, CommandsLeft, Through;
      ghost var n0, replies0 := Begin(AsNode(), c0, view), port.replies;
      clock := c0;
      if goodHeartbeatTimeout < c0 {
        AlgorithmStop(port, MissedHeartbeats, c1, c2);
        return;
      }

      var reply := port.Issue(IsReserved);
      ghost var n, sent := SentFirst(old(port.log), n0, replies0, c1, c2);
      if !reply.Flag? {
        return;
      }
      var reserved, reservationHolder: Key := reply.flag, 0;
      if reserved {
        ghost var left := port.replies;
        reply := port.Issue(ReadOwner);
        n, sent := Sent(old(port.log), n0, replies0, n, sent, left, c1, c2);
        if !reply.Holder? {
          return;
        }
        reservationHolder := reply.key;
        if reservationHolder == 0 {
          Resume(old(port.log), n0, replies0, n, sent, port.replies, c1, c2);
          AlgorithmStop(port, KeyZero, c1, c2);
          return;
        }
        // a stray reservation, left by an earlier run or taken behind a lost reply
        if state != HAVE_QDISK && state != RELEASE_QDISK && state != RESERVE_DISK && reservationHolder == key {
          left := port.replies;
          reply := port.Issue(Release);
          n, sent := Sent(old(port.log), n0, replies0, n, sent, left, c1, c2);
          return;
        }
      }
      // What the switch will see: the flag and the key agree.
      assert reserved <==> reservationHolder != 0;

      if view.keys.None? {
        return;
      }
      var snap := Snapshot(view, reserved, reservationHolder);
      var resvNodeVisible := FindHolder(view.keys.value, reservationHolder);

      ghost var left := port.replies;
      reply := port.Issue(ReadKeys);
      n, sent := Sent(old(port.log), n0, replies0, n, sent, left, c1, c2);
      if !reply.Registered? {
        return;
      }
      var found := FindKey(reply.keys, key);
      Resume(old(port.log), n0, replies0, n, sent, port.replies, c1, c2);
      if !found {
        AlgorithmStop(port, KeyGone, c1, c2);
        return;
      }
      RunState(port, snap, resvNodeVisible, c1, c2);
    }

    /** algorithm_init from joining votequorum on. */
    method InitRegister(port: DiskPort, ghost c1: nat, ghost c2: nat)
      requires down.Some?
      modifies this, port
      ensures Drove(port, old(AsNode()).(phase := BootJoin), c1, c2)
    {
      hide Drive, CommandsLeft, Through, Switch;
      ghost var n0, replies0 := AsNode().(phase := BootJoin), port.replies;
      var reply := port.Issue(Join);
      ghost var n, sent := SentFirst(old(port.log), n0, replies0, c1, c2);
      if reply != Flag(true) {
        Withdrawn(BootFailed);
        return;
      }
      ghost var left := port.replies;
      reply := port.Issue(Register);
      n, sent := Sent(old(port.log), n0, replies0, n, sent, left, c1, c2);
      if reply != Flag(true) {
        Withdrawn(BootFailed);
        return;
      }
      left := port.replies;
      reply := port.Issue(Share);
      n, sent := Sent(old(port.log), n0, replies0, n, sent, left, c1, c2);
      if reply == Flag(true) {
        down := None;
        return;
      }
      left := port.replies;
      reply := port.Issue(Unregister);
      n, sent := Sent(old(port.log), n0, replies0, n, sent, left, c1, c2);
      Withdrawn(BootFailed);
    }

    /**
      algorithm_init from its first look at the reservation on. A daemon that holds the
      reservation releases it, since it does not yet provide service.
     */
    method InitRelease(port: DiskPort, ghost c1: nat, ghost c2: nat)
      requires down.Some?
      modifies this, port
      ensures Drove(port, old(AsNode()).(phase := BootReserved), c1, c2)
    {
      hide Drive, CommandsLeft, Through, Switch;
      ghost var n0, replies0 := AsNode().(phase := BootReserved), port.replies;
      var reply := port.Issue(IsReserved);
      ghost var n, sent := SentFirst(old(port.log), n0, replies0, c1, c2);
      if reply == Flag(true) {
        ghost var left := port.replies;
        reply := port.Issue(ReadOwner);
        n, sent := Sent(old(port.log), n0, replies0, n, sent, left, c1, c2);
        var owner := reply;
        if owner == Holder(key) {
          left := port.replies;
          reply := port.Issue(Release);
          n, sent := Sent(old(port.log), n0, replies0, n, sent, left, c1, c2);
        }
        if owner == Holder(0) {
          Withdrawn(KeyZero);
          return;
        }
      }
      Resume(old(port.log), n0, replies0, n, sent, port.replies, c1, c2);
      InitRegister(port, c1, c2);
    }

    /** algorithm_init, given the keys of the nodes in sight if they can be fetched. */
    method AlgorithmInit(port: DiskPort, nodeKeys: Option<seq<Key>>, ghost c1: nat, ghost c2: nat)
      requires down.Some?
      modifies this, port
      ensures Drove(port, BeginBoot(old(AsNode()), nodeKeys), c1, c2)
      ensures var r := Next(old(port.replies));
              !(nodeKeys.Some? && r.Registered? && forall k | k in nodeKeys.value :: k in r.keys) ==>
                down == Some(BootFailed) && port.log == old(port.log) + if nodeKeys.Some? then [ReadKeys] else []
    {
      hide Drive, CommandsLeft, Through, Switch;
      ghost var n0, replies0 := BeginBoot(AsNode(), nodeKeys), port.replies;
      if nodeKeys.None? {
        NothingSent(port.log, n0, replies0, c1, c2);
        Withdrawn(BootFailed);
        return;
      }

      var reply := port.Issue(ReadKeys);
      ghost var n, sent := SentFirst(old(port.log), n0, replies0, c1, c2);
      var valid := false;
      if reply.Registered? {
        valid := ValidateKeys(nodeKeys.value, reply.keys);
      }
      if !valid {
        Withdrawn(BootFailed);
        return;
      }
      Resume(old(port.log), n0, replies0, n, sent, port.replies, c1, c2);
      InitRelease(port, c1, c2);
    }
  }
}
