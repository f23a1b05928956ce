/**
  What one daemon does over whole runs, for every clock and every sequence of quorate
  readings, as long as its snapshots stay of one kind.
 */
module NodeRuns {
  import opened SharedDisk
  import opened NodeMachine

  /** `acts` is a run from `n` in which every act is `allowed` where it happens. */
  ghost predicate RunOf(n: Node, acts: seq<Act>, allowed: (Node, Act) -> bool)
    decreases |acts|
  {
    acts == [] ||
    (Enabled(n, acts[0]) && allowed(n, acts[0]) && RunOf(Step(n, acts[0]), acts[1..], allowed))
  }

  lemma RunOfIsRun(n: Node, acts: seq<Act>, allowed: (Node, Act) -> bool)
    requires RunOf(n, acts, allowed)
    ensures IsRun(n, acts)
    decreases |acts|
  {
    if acts == [] {
    } else {
      RunOfIsRun(Step(n, acts[0]), acts[1..], allowed);
    }
  }

  /** The node a run leads to. */
  ghost function After(n: Node, acts: seq<Act>, allowed: (Node, Act) -> bool): Node
    requires RunOf(n, acts, allowed)
  {
    RunOfIsRun(n, acts, allowed);
    Run(n, acts)
  }

  /** The votes given between `n` and a later `m`, if all of them are `vote`. */
  ghost predicate OnlyPolls(n: Node, m: Node, vote: bool) {
    n.polls <= m.polls && forall i | |n.polls| <= i < |m.polls| :: m.polls[i].vote == vote
  }

  /** As many votes as completed heartbeats, all of them 1. */
  ghost predicate PollsOneEachBeat(n: Node, m: Node) {
    OnlyPolls(n, m, true) && |m.polls| - |n.polls| == m.beats - n.beats
  }

  predicate StaysInService(n: Node, a: Act) {
    Enabled(n, a) && Step(n, a).Serving()
  }

  /** The view or snapshot of a heartbeat in flight satisfies `p`. */
  ghost predicate InFlight(n: Node, view: View -> bool, snap: Snapshot -> bool) {
    match n.phase
    case AskReserved(v) => view(v)
    case AskOwner(v) => view(v)
    case AskKeys(s) => view(s.view) && snap(s)
    case DoReserve(s) => view(s.view) && snap(s) && n.state == RESERVE_DISK
    case DoRelease => n.state == RELEASE_QDISK
    case Recheck => n.state == RELEASE_QDISK
    case _ => true
  }

  // ---------- The vote that is left behind ----------

  /** A process that ended in any orderly way has withdrawn its vote. */
  predicate VoteWithdrawn(n: Node) {
    n.phase.Down? && n.phase.why != NotStarted && n.phase.why != Crashed && n.phase.why != LostReservation ==>
      !n.LastVote()
  }

  lemma {:induction false} LeavingWithdrawsVote(n: Node, acts: seq<Act>)
    requires IsRun(n, acts) && VoteWithdrawn(n)
    ensures VoteWithdrawn(Run(n, acts))
    decreases |acts|
  {
    if acts == [] {
    } else {
      assert VoteWithdrawn(Step(n, acts[0]));
      LeavingWithdrawsVote(Step(n, acts[0]), acts[1..]);
    }
  }

  // ---------- The side that does not hold the disk ----------

  /** The node sees no more than half of the nodes, and a disk held by another node that it does not see. */
  predicate LosingAct(n: Node, a: Act) {
    match a
    case Tick(_, v) => !v.Majority()
    case Got(reply, _, _) =>
      (match n.phase
       case AskReserved(_) => reply != Flag(false)
       case AskOwner(v) => reply.Holder? ==> reply.key != n.key && !v.Sees(reply.key)
       case DoReserve(_) => reply != Flag(true)
       case _ => true)
    case _ => true
  }

  ghost predicate LosingFlight(n: Node) {
    InFlight(n, (v: View) => !v.Majority(),
             (s: Snapshot) => s.reserved && !s.HolderVisible() && s.holder != n.key)
  }

  /** A losing node in one of four states, or on its way out of service. */
  ghost predicate Losing(n: Node) {
    && LosingFlight(n)
    && (|| n.state == START || n.state == IDLE || n.state == RESERVE_DISK || n.state == RESIGNED
        || n.phase.StopRelease? || n.phase.StopUnregister?)
  }

  lemma LosingStepAtSwitch(n: Node, a: Act)
    requires Losing(n) && Enabled(n, a) && LosingAct(n, a)
    requires a.Got? && n.phase.AskKeys?
    ensures Losing(Step(n, a)) && OnlyPolls(n, Step(n, a), false)
  {
  }

  lemma LosingStepElsewhere(n: Node, a: Act)
    requires Losing(n) && Enabled(n, a) && LosingAct(n, a)
    requires a.Got? && n.Serving() && !n.phase.AskKeys?
    ensures Losing(Step(n, a)) && OnlyPolls(n, Step(n, a), false)
  {
    hide Switch;
  }

  lemma LosingStepOffline(n: Node, a: Act)
    requires Losing(n) && Enabled(n, a) && LosingAct(n, a)
    requires a.Got? && !n.Serving()
    ensures Losing(Step(n, a)) && OnlyPolls(n, Step(n, a), false)
  {
    hide Switch, AfterReserve, Finish;
  }

  lemma LosingStepUnasked(n: Node, a: Act)
    requires Losing(n) && Enabled(n, a) && LosingAct(n, a)
    requires !a.Got?
    ensures Losing(Step(n, a)) && OnlyPolls(n, Step(n, a), false)
  {
    hide Receive;
  }

  lemma LosingStep(n: Node, a: Act)
    requires Losing(n) && Enabled(n, a) && LosingAct(n, a)
    ensures Losing(Step(n, a)) && OnlyPolls(n, Step(n, a), false)
  {
    hide *;
    if a.Got? && n.phase.AskKeys? {
      LosingStepAtSwitch(n, a);
    } else if a.Got? && n.Serving() {
      LosingStepElsewhere(n, a);
    } else if a.Got? {
      LosingStepOffline(n, a);
    } else {
      LosingStepUnasked(n, a);
    }
  }

  /** Losing-side closure: the four states are closed and poll only 0 or nothing. */
  lemma {:induction false} LosingSideStaysSilent(n: Node, acts: seq<Act>)
    requires Losing(n) && RunOf(n, acts, LosingAct)
    ensures Losing(After(n, acts, LosingAct))
    ensures OnlyPolls(n, After(n, acts, LosingAct), false)
    decreases |acts|
  {
    RunOfIsRun(n, acts, LosingAct);
    if acts == [] {
    } else {
      LosingStep(n, acts[0]);
      LosingSideStaysSilent(Step(n, acts[0]), acts[1..]);
    }
  }

  /** A node on the losing side that still polls 1 is in RECV_VOTE or RELEASE_QDISK. */
  lemma OnlyStaleVotersPollOne(n: Node, a: Act)
    requires LosingFlight(n) && Enabled(n, a) && LosingAct(n, a)
    requires |Step(n, a).polls| > |n.polls| && Step(n, a).LastVote()
    ensures n.state == RECV_VOTE || n.state == RELEASE_QDISK
  {
  }

  /** IDLE does not resign over a holder out of sight before its deadline has passed; until then it skips its poll. */
  lemma IdleResignsAfterDeadline(n: Node, a: Act)
    requires LosingFlight(n) && n.phase.AskKeys? && n.phase.snap.view.Tie() && n.state == IDLE
    requires Enabled(n, a) && a.Got? && Step(n, a).beats > n.beats
    ensures Step(n, a).state == RESIGNED <==> a.c1 > n.deadline
    ensures Step(n, a).state != RESIGNED ==> Step(n, a).polls == n.polls
  {
  }

  // ---------- The side that holds the disk ----------

  /** The node sees a tie and a disk held by another node that it does see. */
  predicate WinningAct(n: Node, a: Act) {
    && StaysInService(n, a)
    && match a
       case Tick(_, v) => v.Tie()
       case Got(reply, _, _) =>
         (match n.phase
          case AskReserved(_) => reply != Flag(false)
          case AskOwner(v) => reply.Holder? ==> reply.key != n.key && (v.keys.Some? ==> v.Sees(reply.key))
          case DoReserve(_) => reply != Flag(true)
          case _ => true)
       case _ => true
  }

  ghost predicate Winning(n: Node) {
    && n.Serving()
    && InFlight(n, (v: View) => v.Tie(), (s: Snapshot) => s.HolderVisible())
    && (n.state == IDLE || n.state == RESERVE_DISK || n.state == RECV_VOTE)
  }

  lemma WinningStep(n: Node, a: Act)
    requires Winning(n) && WinningAct(n, a)
    ensures var m := Step(n, a);
            && Winning(m) && PollsOneEachBeat(n, m)
            && (m.state == n.state || m.state == RECV_VOTE)
            && (m.beats > n.beats ==> m.state == RECV_VOTE)
  {
  }

  /**
    Winning side: every completed heartbeat polls 1 and leaves the node in RECV_VOTE, so
    RESIGNED is never reached.
   */
  lemma {:induction false} WinningSideKeepsItsVote(n: Node, acts: seq<Act>)
    requires Winning(n) && RunOf(n, acts, WinningAct)
    ensures var m := After(n, acts, WinningAct);
            && Winning(m) && PollsOneEachBeat(n, m)
            && (m.state == n.state || m.state == RECV_VOTE)
            && (m.beats > n.beats ==> m.state == RECV_VOTE)
    decreases |acts|
  {
    RunOfIsRun(n, acts, WinningAct);
    if acts == [] {
    } else {
      WinningStep(n, acts[0]);
      WinningSideKeepsItsVote(Step(n, acts[0]), acts[1..]);
    }
  }

  // ---------- Below half ----------

  predicate BelowHalf(n: Node, a: Act) { a.Tick? ==> a.view.Minority() }

  ghost predicate MinorityFlight(n: Node) { InFlight(n, (v: View) => v.Minority(), (s: Snapshot) => true) }

  ghost predicate Quiet(n: Node) {
    MinorityFlight(n) && (n.state == START || n.state == IDLE || n.state == RESIGNED)
  }

  lemma QuietStepAtSwitch(n: Node, a: Act)
    requires Quiet(n) && Enabled(n, a) && BelowHalf(n, a)
    requires a.Got? && n.phase.AskKeys?
    ensures Quiet(Step(n, a)) && OnlyPolls(n, Step(n, a), false)
  {
  }

  lemma QuietStepElsewhere(n: Node, a: Act)
    requires Quiet(n) && Enabled(n, a) && BelowHalf(n, a)
    requires a.Got? && n.Serving() && !n.phase.AskKeys?
    ensures Quiet(Step(n, a)) && OnlyPolls(n, Step(n, a), false)
  {
    hide Switch;
  }

  lemma QuietStepOffline(n: Node, a: Act)
    requires Quiet(n) && Enabled(n, a) && BelowHalf(n, a)
    requires a.Got? && !n.Serving()
    ensures Quiet(Step(n, a)) && OnlyPolls(n, Step(n, a), false)
  {
    hide Switch, AfterReserve, Finish;
  }

  lemma QuietStepUnasked(n: Node, a: Act)
    requires Quiet(n) && Enabled(n, a) && BelowHalf(n, a)
    requires !a.Got?
    ensures Quiet(Step(n, a)) && OnlyPolls(n, Step(n, a), false)
  {
    hide Receive;
  }

  lemma QuietStep(n: Node, a: Act)
    requires Quiet(n) && Enabled(n, a) && BelowHalf(n, a)
    ensures Quiet(Step(n, a)) && OnlyPolls(n, Step(n, a), false)
  {
    hide *;
    if a.Got? && n.phase.AskKeys? {
      QuietStepAtSwitch(n, a);
    } else if a.Got? && n.Serving() {
      QuietStepElsewhere(n, a);
    } else if a.Got? {
      QuietStepOffline(n, a);
    } else {
      QuietStepUnasked(n, a);
    }
  }

  /** Below half, a node in START, IDLE or RESIGNED never polls 1 again. */
  lemma {:induction false} MinorityStaysQuiet(n: Node, acts: seq<Act>)
    requires Quiet(n) && RunOf(n, acts, BelowHalf)
    ensures Quiet(After(n, acts, BelowHalf)) && OnlyPolls(n, After(n, acts, BelowHalf), false)
    decreases |acts|
  {
    RunOfIsRun(n, acts, BelowHalf);
    if acts == [] {
    } else {
      QuietStep(n, acts[0]);
      MinorityStaysQuiet(Step(n, acts[0]), acts[1..]);
    }
  }

  /** Heartbeats come at least one clock unit apart. */
  predicate Advances(n: Node, a: Act) { a.Tick? ==> n.clock < a.c0 }

  predicate MinorityAct(n: Node, a: Act) {
    StaysInService(n, a) && BelowHalf(n, a) && Advances(n, a)
  }

  /** The states a run passes through include `s`. */
  ghost predicate Visits(n: Node, acts: seq<Act>, s: State)
    requires IsRun(n, acts)
    decreases |acts|
  {
    n.state == s || (acts != [] && Visits(Step(n, acts[0]), acts[1..], s))
  }

  /** Heartbeats that end in RELEASE_QDISK with the release neither accepted nor confirmed. */
  ghost function FailedReleases(n: Node, acts: seq<Act>): nat
    requires IsRun(n, acts)
    decreases |acts|
  {
    if acts == [] then 0
    else
      (if n.phase.Recheck? && acts[0].Got? && acts[0].reply != Flag(false) then 1 else 0)
      + FailedReleases(Step(n, acts[0]), acts[1..])
  }

  /** Clock units before the deadline has passed. */
  function TimeLeft(n: Node): nat {
    if n.clock <= n.deadline then n.deadline + 1 - n.clock else 0
  }

  /** A heartbeat that began before the deadline may still end in the state it began in. */
  function Credit(n: Node): nat {
    if !n.phase.Rest? && n.clock <= n.deadline then 1 else 0
  }

  function StepsToResigned(s: State): nat {
    match s
    case RESIGNED => 0
    case IDLE => 1
    case RECV_VOTE => 2
    case RELEASE_QDISK => 2
    case HAVE_QDISK => 3
    case RESERVE_DISK => 4
    case START => 5
  }

  lemma MinorityStep(n: Node, a: Act)
    requires n.Serving() && n.state != START && n.state != RESIGNED && MinorityFlight(n) && MinorityAct(n, a)
    ensures var m := Step(n, a);
            && m.Serving() && m.state != START && MinorityFlight(m)
            && m.beats + StepsToResigned(m.state) + TimeLeft(m) + Credit(m)
               <= n.beats + StepsToResigned(n.state) + TimeLeft(n) + Credit(n)
                  + (if n.phase.Recheck? && a.Got? && a.reply != Flag(false) then 1 else 0)
  {
  }

  lemma {:induction false} MinorityMeasure(n: Node, acts: seq<Act>)
    requires n.Serving() && n.state != START && MinorityFlight(n)
    requires RunOf(n, acts, MinorityAct) && IsRun(n, acts) && !Visits(n, acts, RESIGNED)
    ensures var m := Run(n, acts);
            && m.state != RESIGNED && m.state != START
            && m.beats + StepsToResigned(m.state) + TimeLeft(m) + Credit(m)
               <= n.beats + StepsToResigned(n.state) + TimeLeft(n) + Credit(n) + FailedReleases(n, acts)
    decreases |acts|
  {
    hide Step, Enabled, StepsToResigned, TimeLeft, Credit, MinorityFlight;
    if acts == [] {
    } else {
      MinorityStep(n, acts[0]);
      RunOfIsRun(Step(n, acts[0]), acts[1..], MinorityAct);
      MinorityMeasure(Step(n, acts[0]), acts[1..]);
    }
  }

  /**
    Below half, a node past START is in RESIGNED at some point of its next
    rank + time-to-deadline + (failed releases) completed heartbeats.
   */
  lemma MinorityResigns(n: Node, acts: seq<Act>)
    requires n.phase.Rest? && n.state != START && RunOf(n, acts, MinorityAct)
    requires IsRun(n, acts) &&
             Run(n, acts).beats >= n.beats + StepsToResigned(n.state) + TimeLeft(n) + FailedReleases(n, acts)
    ensures Visits(n, acts, RESIGNED)
  {
    if !Visits(n, acts, RESIGNED) {
      MinorityMeasure(n, acts);
    }
  }

  /**
    Which heartbeats below half still poll 1: those in RECV_VOTE, HAVE_QDISK and RELEASE_QDISK, and
    those in RESERVE_DISK that get the disk or see its holder.
   */
  lemma PollsOneBelowHalf(n: Node, a: Act)
    requires n.Serving() && MinorityFlight(n) && Enabled(n, a) && BelowHalf(n, a) && Step(n, a).beats > n.beats
    ensures var m := Step(n, a);
            |m.polls| > |n.polls| && m.LastVote() <==>
              || n.state == RECV_VOTE || n.state == HAVE_QDISK || n.state == RELEASE_QDISK
              || (n.phase.DoReserve? && (a.reply == Flag(true) || n.phase.snap.HolderVisible()))
  {
  }

  // ---------- Above half ----------

  predicate MajorityAct(n: Node, a: Act) {
    StaysInService(n, a) && Advances(n, a) && (a.Tick? ==> a.view.Majority() && a.view.quorate)
  }

  ghost predicate MajorityFlight(n: Node) {
    n.Serving() && InFlight(n, (v: View) => v.Majority() && v.quorate, (s: Snapshot) => true)
  }

  function StepsToIdle(s: State): nat {
    match s
    case IDLE => 0
    case HAVE_QDISK => 2
    case RESERVE_DISK => 3
    case _ => 1
  }

  /** Above half and quorate, IDLE is never left and every completed heartbeat polls 1. */
  lemma {:induction false} MajorityStaysIdle(n: Node, acts: seq<Act>)
    requires MajorityFlight(n) && n.state == IDLE && RunOf(n, acts, MajorityAct)
    ensures After(n, acts, MajorityAct).state == IDLE
    ensures PollsOneEachBeat(n, After(n, acts, MajorityAct))
    decreases |acts|
  {
    RunOfIsRun(n, acts, MajorityAct);
    if acts == [] {
    } else {
      var m := Step(n, acts[0]);
      assert MajorityFlight(m) && m.state == IDLE && PollsOneEachBeat(n, m);
      MajorityStaysIdle(m, acts[1..]);
    }
  }

  lemma MajorityStep(n: Node, a: Act)
    requires MajorityFlight(n) && n.state != IDLE && MajorityAct(n, a)
    ensures var m := Step(n, a);
            && MajorityFlight(m)
            && (m.state != IDLE ==>
                m.beats + StepsToIdle(m.state) + TimeLeft(m) + Credit(m)
                <= n.beats + StepsToIdle(n.state) + TimeLeft(n) + Credit(n)
                   + (if n.phase.Recheck? && a.Got? && a.reply != Flag(false) then 1 else 0))
  {
  }

  /** Some split of the run reaches IDLE, or the measure still bounds the heartbeats. */
  lemma {:induction false} MajorityMeasure(n: Node, acts: seq<Act>) returns (i: nat)
    requires MajorityFlight(n) && RunOf(n, acts, MajorityAct) && IsRun(n, acts)
    ensures i <= |acts| && IsRun(n, acts[..i]) && MajorityFlight(Run(n, acts[..i]))
    ensures n.state == IDLE ==> i == 0
    ensures RunOf(Run(n, acts[..i]), acts[i..], MajorityAct) && IsRun(Run(n, acts[..i]), acts[i..])
    ensures Run(n, acts) == Run(Run(n, acts[..i]), acts[i..])
    ensures var m := Run(n, acts);
            Run(n, acts[..i]).state == IDLE ||
            (m.state != IDLE &&
             m.beats + StepsToIdle(m.state) + TimeLeft(m) + Credit(m)
             <= n.beats + StepsToIdle(n.state) + TimeLeft(n) + Credit(n) + FailedReleases(n, acts))
    decreases |acts|
  {
    hide Step, TimeLeft, Credit, InFlight;
    assert acts[..0] == [] && acts[0..] == acts;
    if acts == [] || n.state == IDLE {
      return 0;
    }
    var m := Step(n, acts[0]);
    MajorityStep(n, acts[0]);
    var j := MajorityMeasure(m, acts[1..]);
    i := j + 1;
    assert acts[..i][1..] == acts[1..][..j] && acts[i..] == acts[1..][j..];
  }

  /**
    Above half and quorate, every node is in IDLE after rank + time-to-deadline + (failed
    releases) completed heartbeats; from the moment it first is, it stays and polls 1 at
    every completed heartbeat.
   */
  lemma MajorityServes(n: Node, acts: seq<Act>) returns (i: nat)
    requires n.phase.Rest? && RunOf(n, acts, MajorityAct)
    requires IsRun(n, acts) &&
             Run(n, acts).beats >= n.beats + StepsToIdle(n.state) + TimeLeft(n) + FailedReleases(n, acts)
    ensures i <= |acts| && IsRun(n, acts[..i]) && Run(n, acts[..i]).state == IDLE
    ensures Run(n, acts).state == IDLE && PollsOneEachBeat(Run(n, acts[..i]), Run(n, acts))
  {
    i := MajorityMeasure(n, acts);
    var m := Run(n, acts[..i]);
    if m.state == IDLE {
      MajorityStaysIdle(m, acts[i..]);
    }
  }
}
