/**
  What a heartbeat comes to, seen from its results: when it moves the deadline, which vote it
  gives, which state it ends in, which commands it issues, and when it is given up.
 */
module Heartbeats {
  import opened SharedDisk
  import opened NodeMachine
  import opened NodeRuns
  import opened StaleVote
  import opened QdiskDaemon

  // ---------- A heartbeat that runs to its end ----------

  /** A heartbeat of `n` runs to its end in act `a`. */
  ghost predicate Ends(n: Node, a: Act) {
    n.Serving() && InFlight(n, (v: View) => true, (s: Snapshot) => true) && Enabled(n, a) && Completes(n, a)
  }

  /** The snapshot that the last command of a heartbeat goes by. */
  function Seen(n: Node): Snapshot {
    match n.phase
    case AskKeys(snap) => snap
    case DoReserve(snap) => snap
    case _ => Snapshot(View(false, 0, 0, None), false, 0)
  }

  /** IDLE has a majority in sight, or a tie in which it need not wait for the holder. */
  predicate IdleGoesOn(s: Snapshot) { s.view.Majority() || (s.view.Tie() && (s.HolderVisible() || !s.reserved)) }

  /** The heartbeat sets a new deadline. */
  predicate Renews(n: Node) {
    (n.state == IDLE && IdleGoesOn(Seen(n))) || (n.state == RECV_VOTE && Seen(n).view.Tie() && Seen(n).HolderVisible())
  }

  /** Undecided until the deadline: IDLE with the holder out of sight, or a refused reserve of a free disk. */
  predicate Abstains(n: Node, a: Act)
    requires a.Got?
  {
    && a.c1 <= n.deadline
    && !Seen(n).HolderVisible()
    && ((n.state == IDLE && Seen(n).view.Tie() && Seen(n).reserved)
        || (n.state == RESERVE_DISK && a.reply != Flag(true) && !Seen(n).reserved))
  }

  predicate VotesOne(n: Node, a: Act)
    requires a.Got?
  {
    || n.state == RECV_VOTE || n.state == HAVE_QDISK || n.state == RELEASE_QDISK
    || (n.state == IDLE && IdleGoesOn(Seen(n)))
    || (n.state == RESERVE_DISK && (a.reply == Flag(true) || Seen(n).HolderVisible()))
  }

  /** A heartbeat that ends reads the clock for the cutoff last, and moves the deadline only where it renews it. */
  lemma EndOfHeartbeat(n: Node, a: Act)
    requires Ends(n, a)
    ensures var m := Step(n, a);
            && a.Got? && m.phase.Rest? && m.beats == n.beats + 1
            && m.clock == a.c2 && m.cutoff == a.c2 + n.timeout
            && m.deadline == if Renews(n) then a.c1 + n.timeout else n.deadline
  {
  }

  /** Which vote a heartbeat gives, if it gives one. */
  lemma VoteOfHeartbeat(n: Node, a: Act)
    requires Ends(n, a)
    ensures a.Got?
    ensures Step(n, a).polls ==
            n.polls + if Abstains(n, a) then [] else [Poll(VotesOne(n, a), a.c2)]
  {
  }

  lemma WithinHeartbeatAtSwitch(n: Node, a: Act)
    requires n.Serving() && Enabled(n, a) && Step(n, a).Serving() && !Completes(n, a) && a.Got? && n.phase.AskKeys?
    ensures var m := Step(n, a); m.deadline == n.deadline && m.cutoff == n.cutoff && m.state == n.state
    ensures Step(n, a).polls == n.polls
  {
    hide AfterReserve;
  }

  /** The deadline and the cutoff stay where they are between two ends of heartbeats. */
  lemma WithinHeartbeat(n: Node, a: Act)
    requires n.Serving() && Enabled(n, a) && Step(n, a).Serving() && !Completes(n, a)
    ensures var m := Step(n, a); m.deadline == n.deadline && m.cutoff == n.cutoff && m.state == n.state
    ensures Step(n, a).polls == n.polls
  {
    if a.Got? && n.phase.AskKeys? {
      WithinHeartbeatAtSwitch(n, a);
    } else {
      hide Switch;
    }
  }

  /** How a heartbeat comes to end in each of the seven states. */
  lemma StateAfterHeartbeat(n: Node, a: Act)
    requires Ends(n, a)
    ensures a.Got?
    ensures var m, s, late := Step(n, a), Seen(n), a.c1 > n.deadline;
            var refused := n.state == RESERVE_DISK && a.reply != Flag(true) && !s.HolderVisible();
            && (m.state == START <==> n.state == START && !s.view.quorate)
            && (m.state == IDLE <==>
                || ((n.state == START || n.state == RESIGNED) && s.view.quorate)
                || (n.state == IDLE && (s.view.Majority() || Abstains(n, a)))
                || (n.state == RECV_VOTE && !Renews(n) && late)
                || (n.state == RELEASE_QDISK && a.reply == Flag(n.phase.DoRelease?)))
            && (m.state == RESERVE_DISK <==>
                || (n.state == IDLE && s.view.Tie() && !s.HolderVisible() && !s.reserved)
                || (n.state == RESERVE_DISK && Abstains(n, a)))
            && (m.state == RECV_VOTE <==>
                || (n.state == IDLE && s.view.Tie() && s.HolderVisible())
                || (n.state == RESERVE_DISK && a.reply != Flag(true) && s.HolderVisible())
                || (n.state == RECV_VOTE && (Renews(n) || !late)))
            && (m.state == HAVE_QDISK <==>
                || (n.state == RESERVE_DISK && a.reply == Flag(true))
                || (n.state == HAVE_QDISK && s.view.Tie()))
            && (m.state == RELEASE_QDISK <==>
                || (n.state == HAVE_QDISK && !s.view.Tie())
                || (n.state == RELEASE_QDISK && n.phase.Recheck? && a.reply != Flag(false)))
            && (m.state == RESIGNED <==>
                || (n.state == RESIGNED && !s.view.quorate)
                || (n.state == IDLE && s.view.Minority())
                || (n.state == IDLE && s.view.Tie() && s.reserved && !s.HolderVisible() && late)
                || (refused && (s.reserved || late)))
  {
  }

  // ---------- The deadline over runs ----------

  /** A tie with the holder out of sight, seen no later than `t`. */
  predicate WaitingAct(n: Node, a: Act, t: nat) {
    LosingAct(n, a) && !a.Boot? && (a.Tick? ==> a.view.Tie()) && (a.Got? ==> a.c1 <= t)
  }

  ghost predicate Awaits(n: Node, t: nat, polls: seq<Poll>) {
    && (n.Serving() ==>
        && n.state == IDLE && n.deadline == t && n.polls == polls
        && LosingFlight(n) && InFlight(n, (v: View) => v.Tie(), (s: Snapshot) => true))
    && (!n.Serving() ==> n.phase.StopRelease? || n.phase.StopUnregister? || n.phase.Down?)
  }

  lemma AwaitsStep(n: Node, a: Act, t: nat, polls: seq<Poll>)
    requires Awaits(n, t, polls) && Enabled(n, a) && WaitingAct(n, a, t)
    ensures Awaits(Step(n, a), t, polls)
  {
  }

  lemma {:induction false} AwaitsRun(n: Node, acts: seq<Act>, t: nat, polls: seq<Poll>)
    requires Awaits(n, t, polls) && RunOf(n, acts, (n, a) => WaitingAct(n, a, t))
    ensures IsRun(n, acts) && Awaits(Run(n, acts), t, polls)
    decreases |acts|
  {
    hide Step, Awaits, Enabled, WaitingAct;
    if acts == [] {
    } else {
      AwaitsStep(n, acts[0], t, polls);
      AwaitsRun(Step(n, acts[0]), acts[1..], t, polls);
    }
  }

  /**
    An IDLE heartbeat above half whose switch reads the clock at `r` gives the node until `r + T`:
    in a tie with the holder out of sight it neither resigns nor votes before that.
   */
  lemma HealthyHeartbeatBuysTime(n: Node, a: Act, acts: seq<Act>)
    requires Ends(n, a) && n.state == IDLE && Seen(n).view.Majority() && a.Got?
    requires RunOf(Step(n, a), acts, (n', a') => WaitingAct(n', a', a.c1 + n.timeout))
    ensures var m := Step(n, a);
            && IsRun(m, acts)
            && (Run(m, acts).Serving() ==> Run(m, acts).state == IDLE && Run(m, acts).polls == m.polls)
  {
    EndOfHeartbeat(n, a);
    StateAfterHeartbeat(n, a);
    AwaitsRun(Step(n, a), acts, a.c1 + n.timeout, Step(n, a).polls);
  }

  /**
    The last heartbeat that sees the holder in a tie sets the clock for everything after it. If
    it reads the clock at `r` and the holder then goes out of sight, the last vote of 1 comes by
    `r + 2T + 2d`, and the vote of 0 or the end of service by `r + 3T + 3d`.
   */
  lemma LastSightOfTheHolder(n: Node, a: Act, acts: seq<Act>, d: nat)
    requires Ends(n, a) && (n.state == IDLE || n.state == RECV_VOTE) && a.Got?
    requires Seen(n).view.Tie() && Seen(n).HolderVisible() && a.c2 <= a.c1 + d
    requires RunOf(Step(n, a), acts, (n', a') => TimedAct(n', a', d)) && IsRun(Step(n, a), acts)
    ensures var m, r, t := Step(n, a), a.c1, n.timeout;
            var e := Run(m, acts);
            && OnesBy(e.polls, |m.polls|, r + 2 * t + 2 * d)
            && OnesThenZeros(e.polls, |m.polls|)
            && (e.Serving() && e.clock > r + 3 * t + 3 * d ==> ZeroBy(e.polls, |m.polls|, r + 3 * t + 3 * d))
  {
    EndOfHeartbeat(n, a);
    StateAfterHeartbeat(n, a);
    StepKeepsPast(n, a);
    RenewedVoteEnds(Step(n, a), acts, a.c1, d);
  }

  // ---------- A heartbeat as a dialogue with the disk ----------

  /** The first command of a drive, and then the rest of it. */
  lemma DriveNext(n: Node, replies: seq<Reply>, c1: nat, c2: nat)
    requires n.Waiting()
    ensures var o, later := Drive(n, replies, c1, c2), Drive(Receive(n, Next(replies), c1, c2), Later(replies), c1, c2);
            o.node == later.node && o.issued == [Pending(n.phase)] + later.issued && o.left == later.left
  {
  }

  /** algorithm_stop: release and unregister, whatever the replies, and withdraw the vote. */
  lemma StopDialogue(n: Node, why: Reason, replies: seq<Reply>, c1: nat, c2: nat)
    requires n.phase == StopRelease(why)
    ensures var o := Drive(n, replies, c1, c2);
            && o.issued == [Release, Unregister]
            && o.node.phase == Down(why) && o.node.state == START
            && o.node.polls == n.polls + [Poll(false, n.clock)]
            && o.left == Later(Later(replies))
  {
    hide Drive;
    var m := Receive(n, Next(replies), c1, c2);
    var e := Receive(m, Next(Later(replies)), c1, c2);
    DriveNext(n, replies, c1, c2);
    DriveNext(m, Later(replies), c1, c2);
    NothingSent([], e, Later(Later(replies)), c1, c2);
    assert [Release] + ([Unregister] + []) == [Release, Unregister];
  }

  /** The heartbeat is given up: no vote, no new cutoff, the same state. */
  ghost predicate GivenUp(n: Node, o: Outcome, issued: seq<Command>, c0: nat) {
    o.node == n.(clock := c0) && o.issued == issued
  }

  /** The process ends and withdraws its vote. */
  ghost predicate Stopped(n: Node, o: Outcome, issued: seq<Command>, why: Reason, c0: nat) {
    && o.node.phase == Down(why) && o.issued == issued + [Release, Unregister]
    && o.node.polls == n.polls + [Poll(false, c0)]
  }

  /** The commands that a state adds to the reads, and the last act of the heartbeat. */
  ghost predicate Acted(n: Node, o: Outcome, issued: seq<Command>, s: Snapshot, left: seq<Reply>,
                        c0: nat, c1: nat, c2: nat)
    requires n.clock <= c0 <= c1 <= c2
  {
    var k := n.(clock := c0);
    match n.state
    case RESERVE_DISK =>
      o.issued == issued + [Reserve] && o.node == Step(k.(phase := DoReserve(s)), Got(Next(Later(left)), c1, c2))
    case RELEASE_QDISK =>
      if Next(Later(left)) == Flag(true) then
        o.issued == issued + [Release] && o.node == Step(k.(phase := DoRelease), Got(Flag(true), c1, c2))
      else
        && o.issued == issued + [Release, IsReserved]
        && o.node == Step(k.(phase := Recheck), Got(Next(Later(Later(left))), c1, c2))
    case _ => o.issued == issued && o.node == Step(k.(phase := AskKeys(s)), Got(Next(left), c1, c2))
  }

  /** What follows once the reservation is known: the key check, the lost reservation, the state's own commands. */
  ghost predicate Sighted(n: Node, o: Outcome, issued: seq<Command>, s: Snapshot, left: seq<Reply>,
                          c0: nat, c1: nat, c2: nat)
    requires n.clock <= c0 <= c1 <= c2
  {
    var asked, r := issued + [ReadKeys], Next(left);
    if s.view.keys.None? then GivenUp(n, o, issued, c0)
    else if !r.Registered? then GivenUp(n, o, asked, c0)
    else if n.key !in r.keys then Stopped(n, o, asked, KeyGone, c0)
    else if n.state == HAVE_QDISK && (!s.reserved || s.holder != n.key) then
      o.node.phase == Down(LostReservation) && o.issued == asked && o.node.polls == n.polls
    else
      && o.node.beats == n.beats + 1 && o.node.phase.Rest?
      && Acted(n, o, asked, s, left, c0, c1, c2)
  }

  lemma ReserveDialogue(n: Node, s: Snapshot, left: seq<Reply>, c0: nat, c1: nat, c2: nat)
    requires n.clock == c0 <= c1 <= c2 && n.phase == DoReserve(s) && n.state == RESERVE_DISK
    ensures var o := Drive(n, left, c1, c2);
            && o.issued == [Reserve] && o.node == Step(n, Got(Next(left), c1, c2))
            && o.node.beats == n.beats + 1 && o.node.phase.Rest?
  {
    hide Drive;
    DriveNext(n, left, c1, c2);
    NothingSent([], Receive(n, Next(left), c1, c2), Later(left), c1, c2);
    assert [Reserve] + [] == [Reserve];
  }

  lemma ReleaseDialogue(n: Node, left: seq<Reply>, c0: nat, c1: nat, c2: nat)
    requires n.clock == c0 <= c1 <= c2 && n.phase == DoRelease && n.state == RELEASE_QDISK
    ensures var o := Drive(n, left, c1, c2);
            && o.node.beats == n.beats + 1 && o.node.phase.Rest?
            && (if Next(left) == Flag(true) then
                  o.issued == [Release] && o.node == Step(n, Got(Flag(true), c1, c2))
                else
                  && o.issued == [Release, IsReserved]
                  && o.node == Step(n.(phase := Recheck), Got(Next(Later(left)), c1, c2)))
  {
    hide Drive;
    DriveNext(n, left, c1, c2);
    var m := Receive(n, Next(left), c1, c2);
    if Next(left) == Flag(true) {
      NothingSent([], m, Later(left), c1, c2);
      assert [Release] + [] == [Release];
    } else {
      DriveNext(m, Later(left), c1, c2);
      NothingSent([], Receive(m, Next(Later(left)), c1, c2), Later(Later(left)), c1, c2);
      assert [Release] + ([IsReserved] + []) == [Release, IsReserved];
    }
  }

  /** From the key check on. */
  lemma KeysDialogue(n: Node, s: Snapshot, left: seq<Reply>, c0: nat, c1: nat, c2: nat)
    requires n.phase.Rest? && n.clock <= c0 <= c1 <= c2 && s.view.keys.Some?
    ensures var o := Drive(n.(clock := c0, phase := AskKeys(s)), left, c1, c2);
            Sighted(n, o, [], s, left, c0, c1, c2)
  {
    hide Drive;
    var k := n.(clock := c0, phase := AskKeys(s));
    var m, r := Receive(k, Next(left), c1, c2), Next(left);
    DriveNext(k, left, c1, c2);
    assert [] + [ReadKeys] == [ReadKeys] == [ReadKeys] + [];
    if r.Registered? && n.key !in r.keys {
      StopDialogue(m, KeyGone, Later(left), c1, c2);
    } else if r.Registered? && n.state == RESERVE_DISK {
      ReserveDialogue(m, s, Later(left), c0, c1, c2);
    } else if r.Registered? && n.state == RELEASE_QDISK {
      ReleaseDialogue(m, Later(left), c0, c1, c2);
    } else {
      NothingSent([], m, Later(left), c1, c2);
    }
  }

  /** Commands issued before carry over. */
  lemma SightedAfter(n: Node, o: Outcome, o': Outcome, issued: seq<Command>, s: Snapshot, left: seq<Reply>,
                     c0: nat, c1: nat, c2: nat)
    requires n.clock <= c0 <= c1 <= c2 && Sighted(n, o, [], s, left, c0, c1, c2)
    requires o'.node == o.node && o'.issued == issued + o.issued
    ensures Sighted(n, o', issued, s, left, c0, c1, c2)
  {
    hide Step;
    assert [] + [ReadKeys] == [ReadKeys] && issued + [] == issued;
    assert forall x: seq<Command> {:trigger [ReadKeys] + x} :: issued + ([ReadKeys] + x) == issued + [ReadKeys] + x;
  }

  /** One call of algorithm_run. */
  function Beaten(n: Node, view: View, replies: seq<Reply>, c0: nat, c1: nat, c2: nat): Outcome {
    Drive(Begin(n, c0, view), replies, c1, c2)
  }

  /** A heartbeat after the cutoff ends the process. */
  lemma LateHeartbeat(n: Node, view: View, replies: seq<Reply>, c0: nat, c1: nat, c2: nat)
    requires n.phase.Rest? && n.cutoff < c0
    ensures Stopped(n, Beaten(n, view, replies, c0, c1, c2), [], MissedHeartbeats, c0)
  {
    hide Drive;
    StopDialogue(Begin(n, c0, view), MissedHeartbeats, replies, c1, c2);
    assert [] + [Release, Unregister] == [Release, Unregister];
  }

  /** A heartbeat that cannot read whether the disk is reserved is given up. */
  lemma HeartbeatUnread(n: Node, view: View, replies: seq<Reply>, c0: nat, c1: nat, c2: nat)
    requires n.phase.Rest? && c0 <= n.cutoff && !Next(replies).Flag?
    ensures GivenUp(n, Beaten(n, view, replies, c0, c1, c2), [IsReserved], c0)
  {
    hide Drive;
    var k := Begin(n, c0, view);
    DriveNext(k, replies, c1, c2);
    NothingSent([], Receive(k, Next(replies), c1, c2), Later(replies), c1, c2);
    assert [IsReserved] + [] == [IsReserved];
  }

  /** What `FetchNodeKeys` leads to. */
  lemma SightFollows(n: Node, o: Outcome, issued: seq<Command>, s: Snapshot, left: seq<Reply>,
                     c0: nat, c1: nat, c2: nat)
    requires n.phase.Rest? && n.clock <= c0 <= c1 <= c2
    requires var later := Drive(FetchNodeKeys(n.(clock := c0), s), left, c1, c2);
             o.node == later.node && o.issued == issued + later.issued
    ensures Sighted(n, o, issued, s, left, c0, c1, c2)
  {
    hide Drive, Acted;
    if s.view.keys.None? {
      NothingSent([], n.(clock := c0), left, c1, c2);
      assert issued + [] == issued;
    } else {
      KeysDialogue(n, s, left, c0, c1, c2);
      SightedAfter(n, Drive(n.(clock := c0, phase := AskKeys(s)), left, c1, c2), o, issued, s, left, c0, c1, c2);
    }
  }

  lemma HeartbeatOnFreeDisk(n: Node, view: View, replies: seq<Reply>, c0: nat, c1: nat, c2: nat)
    requires n.phase.Rest? && n.clock <= c0 <= c1 <= c2 && c0 <= n.cutoff && Next(replies) == Flag(false)
    ensures Sighted(n, Beaten(n, view, replies, c0, c1, c2), [IsReserved], Snapshot(view, false, 0), Later(replies),
                    c0, c1, c2)
  {
    hide Drive, Sighted;
    var k, s := Begin(n, c0, view), Snapshot(view, false, 0);
    DriveNext(k, replies, c1, c2);
    SightFollows(n, Beaten(n, view, replies, c0, c1, c2), [IsReserved], s, Later(replies), c0, c1, c2);
  }

  /** The states in which the node may hold the disk. */
  predicate MayHold(s: State) { s == RESERVE_DISK || s == HAVE_QDISK || s == RELEASE_QDISK }

  /** On a held disk the holder is read; key 0 stops the process, and a stray reservation is released. */
  lemma HeartbeatOnHeldDisk(n: Node, view: View, replies: seq<Reply>, c0: nat, c1: nat, c2: nat)
    requires n.phase.Rest? && n.clock <= c0 <= c1 <= c2 && c0 <= n.cutoff && Next(replies) == Flag(true)
    ensures var o, r := Beaten(n, view, replies, c0, c1, c2), Next(Later(replies));
            var asked, left := [IsReserved, ReadOwner], Later(Later(replies));
            if !r.Holder? then GivenUp(n, o, asked, c0)
            else if r.key == 0 then Stopped(n, o, asked, KeyZero, c0)
            else if r.key == n.key && !MayHold(n.state) then GivenUp(n, o, asked + [Release], c0)
            else Sighted(n, o, asked, Snapshot(view, true, r.key), left, c0, c1, c2)
  {
    hide Drive, Sighted;
    var k := Begin(n, c0, view);
    var m := Receive(k, Next(replies), c1, c2);
    var e, r, left := Receive(m, Next(Later(replies)), c1, c2), Next(Later(replies)), Later(Later(replies));
    var o := Beaten(n, view, replies, c0, c1, c2);
    DriveNext(k, replies, c1, c2);
    DriveNext(m, Later(replies), c1, c2);
    var later := Drive(e, left, c1, c2);
    assert [IsReserved] + ([ReadOwner] + later.issued) == [IsReserved, ReadOwner] + later.issued;
    if !r.Holder? {
      NothingSent([], e, left, c1, c2);
      assert [IsReserved, ReadOwner] + [] == [IsReserved, ReadOwner];
    } else if r.key == 0 {
      StopDialogue(e, KeyZero, left, c1, c2);
    } else if r.key == n.key && !MayHold(n.state) {
      DriveNext(e, left, c1, c2);
      NothingSent([], Receive(e, Next(left), c1, c2), Later(left), c1, c2);
      assert [Release] + [] == [Release];
    } else {
      SightFollows(n, o, [IsReserved, ReadOwner], Snapshot(view, true, r.key), left, c0, c1, c2);
    }
  }
}
