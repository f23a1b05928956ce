/**
  How long a node that does not hold the disk can go on voting once the holder has gone out of
  its sight: the vote deadline, the IDLE deadline and the missed-heartbeat exit taken together.
 */
module StaleVote {
  import opened SharedDisk
  import opened NodeMachine
  import opened NodeRuns

  /**
    The node sees no majority and a disk held out of its sight, each heartbeat that
    completes takes at most `d` from its first to its last clock reading, and the process is
    not started again.
   */
  predicate TimedAct(n: Node, a: Act, d: nat) {
    && LosingAct(n, a)
    && !a.Boot?
    && (a.Got? ==> a.c2 <= n.clock + d)
  }

  /** The votes of 1 come first, and the first vote of 0 ends them. */
  ghost predicate OnesThenZeros(polls: seq<Poll>, from: nat) {
    forall i, j | from <= i < j < |polls| && !polls[i].vote :: !polls[j].vote
  }

  /** No vote of 1 after index `from` is later than `t`. */
  ghost predicate OnesBy(polls: seq<Poll>, from: nat, t: nat) {
    forall i | from <= i < |polls| && polls[i].vote :: polls[i].at <= t
  }

  ghost predicate ZeroBy(polls: seq<Poll>, from: nat, t: nat) {
    exists i | from <= i < |polls| :: !polls[i].vote && polls[i].at <= t
  }

  ghost predicate AllOnes(polls: seq<Poll>, from: nat) {
    forall i | from <= i < |polls| :: polls[i].vote
  }

  predicate HoldsNothing(n: Node) { n.state != HAVE_QDISK && n.state != RELEASE_QDISK }

  /**
    The three stages of a stale vote, where no heartbeat of the first stage begins after `e`:
    not yet a vote of 0, waiting for it in IDLE after the deadline, and a vote of 0 given.
   */
  ghost predicate Stage(n: Node, from: nat, e: nat, d: nat) {
    var t := n.timeout;
    && LosingFlight(n)
    && OnesBy(n.polls, from, e + d)
    && OnesThenZeros(n.polls, from)
    && from <= |n.polls|
    && (n.Serving() ==>
        && n.deadline + t + d <= e
        && (|| (&& HoldsNothing(n)
                && AllOnes(n.polls, from)
                && n.clock <= e && n.cutoff <= e)
            || (&& n.state == IDLE
                && AllOnes(n.polls, from)
                && n.deadline < n.clock <= e + t + d && n.cutoff <= e + t + d)
            || (&& (n.state == START || n.state == IDLE || n.state == RESIGNED)
                && ZeroBy(n.polls, from, e + t + 2 * d))))
    && (!n.Serving() ==>
        || n.phase.StopRelease? || n.phase.StopUnregister?
        || (n.phase.Down? && n.state == START && (n.phase.why == Crashed || !n.LastVote())))
  }

  lemma ExtendPolls(polls: seq<Poll>, p: Poll, from: nat, t1: nat, t0: nat)
    requires from <= |polls| && OnesBy(polls, from, t1) && OnesThenZeros(polls, from)
    requires p.vote ==> AllOnes(polls, from) && p.at <= t1
    ensures OnesBy(polls + [p], from, t1) && OnesThenZeros(polls + [p], from)
    ensures p.vote ==> AllOnes(polls + [p], from)
    ensures ZeroBy(polls, from, t0) || (!p.vote && p.at <= t0) ==> ZeroBy(polls + [p], from, t0)
  {
    var all := polls + [p];
    if ZeroBy(polls, from, t0) {
      var i :| from <= i < |polls| && !polls[i].vote && polls[i].at <= t0;
      assert !all[i].vote && all[i].at <= t0;
    } else if !p.vote && p.at <= t0 {
      assert !all[|polls|].vote;
    }
  }

  /** The vote a step gives, if it gives one. */
  function NewPoll(n: Node, m: Node): Option<Poll> {
    if |m.polls| > |n.polls| then Some(m.polls[|n.polls|]) else None
  }

  /** What one step in service does to the clocks and the votes. */
  lemma StageMoves(n: Node, a: Act, d: nat)
    requires LosingFlight(n) && n.Serving() && HoldsNothing(n) && Enabled(n, a) && TimedAct(n, a, d)
    ensures var m := Step(n, a); var p := NewPoll(n, m);
            && LosingFlight(m) && m.timeout == n.timeout && n.clock <= m.clock
            && m.polls == n.polls + (if p.Some? then [p.value] else [])
            && (!m.Serving() ==> p.None? && (m.phase.StopRelease? || (m.phase == Down(Crashed) && m.state == START)))
            && (m.Serving() ==> m.deadline == n.deadline && HoldsNothing(m))
            && (m.Serving() && m.beats == n.beats ==>
                p.None? && m.state == n.state && m.cutoff == n.cutoff && (m.clock == n.clock || m.clock <= n.cutoff))
            && (m.Serving() && m.beats > n.beats ==>
                m.clock <= n.clock + d && m.cutoff == m.clock + m.timeout && (p.Some? ==> p.value.at == m.clock))
  {
  }

  /** Which vote a completed heartbeat gives, and the state it leaves. */
  lemma StageVotes(n: Node, a: Act, d: nat)
    requires LosingFlight(n) && n.Serving() && HoldsNothing(n) && Enabled(n, a) && TimedAct(n, a, d)
    requires Step(n, a).Serving() && Step(n, a).beats > n.beats
    ensures var m := Step(n, a); var p := NewPoll(n, m);
            if n.state == RECV_VOTE then
              && p.Some? && p.value.vote
              && ((m.state == RECV_VOTE && n.clock <= n.deadline) || (m.state == IDLE && m.clock > m.deadline))
            else
              && (m.state == START || m.state == IDLE || m.state == RESIGNED)
              && (if p.Some? then !p.value.vote else n.state == IDLE == m.state && n.clock <= n.deadline)
  {
  }

  lemma ServingStageStep(n: Node, a: Act, from: nat, e: nat, d: nat)
    requires Stage(n, from, e, d) && n.Serving() && Enabled(n, a) && TimedAct(n, a, d)
    ensures Stage(Step(n, a), from, e, d)
  {
    hide Step, LosingFlight, TimedAct, Enabled, OnesBy, OnesThenZeros, AllOnes, ZeroBy;
    var m := Step(n, a);
    StageMoves(n, a, d);
    StepKeepsPast(n, a);
    if m.Serving() && m.beats > n.beats {
      StageVotes(n, a, d);
    }
    var p := NewPoll(n, m);
    if p.Some? {
      ExtendPolls(n.polls, p.value, from, e + d, e + n.timeout + 2 * d);
    } else {
      assert m.polls == n.polls;
    }
  }

  lemma StageStep(n: Node, a: Act, from: nat, e: nat, d: nat)
    requires Stage(n, from, e, d) && Enabled(n, a) && TimedAct(n, a, d)
    ensures Stage(Step(n, a), from, e, d)
  {
    if n.Serving() {
      ServingStageStep(n, a, from, e, d);
    } else {
      hide Switch, AfterReserve;
    }
  }

  lemma {:induction false} StageHolds(n: Node, acts: seq<Act>, from: nat, e: nat, d: nat)
    requires Stage(n, from, e, d)
    requires RunOf(n, acts, (n, a) => TimedAct(n, a, d))
    ensures IsRun(n, acts) && Stage(Run(n, acts), from, e, d) && Run(n, acts).timeout == n.timeout
    decreases |acts|
  {
    hide Step, Stage, Enabled;
    RunOfIsRun(n, acts, (n, a) => TimedAct(n, a, d));
    if acts == [] {
    } else {
      StageStep(n, acts[0], from, e, d);
      StepKeepsPast(n, acts[0]);
      StageHolds(Step(n, acts[0]), acts[1..], from, e, d);
    }
  }

  /**
    From any state but HAVE_QDISK and RELEASE_QDISK, with every snapshot showing no majority
    and a disk held out of sight, let `e` be no earlier than the clock, the cutoff, and the
    deadline plus the timeout plus `d`. Then no vote of 1 comes after `e + d`, none follows a
    vote of 0, and a node whose clock has passed `e + T + 2d` has voted 0 by then or has left service.
   */
  lemma StaleVoteEnds(n: Node, acts: seq<Act>, e: nat, d: nat)
    requires n.Serving() && LosingFlight(n) && HoldsNothing(n)
    requires n.clock <= e && n.cutoff <= e && n.deadline + n.timeout + d <= e
    requires RunOf(n, acts, (n, a) => TimedAct(n, a, d)) && IsRun(n, acts)
    ensures var m := Run(n, acts);
            && OnesBy(m.polls, |n.polls|, e + d)
            && OnesThenZeros(m.polls, |n.polls|)
            && (m.Serving() && m.clock > e + n.timeout + 2 * d ==> ZeroBy(m.polls, |n.polls|, e + n.timeout + 2 * d))
  {
    StageHolds(n, acts, |n.polls|, e, d);
  }

  /**
    A heartbeat sets a RECV_VOTE node's deadline at time `r` and ends by `r + d`. Then the
    last vote of 1 comes by `r + 2T + 2d`, and the vote of 0 or the end of service by `r + 3T + 3d`.
   */
  lemma RenewedVoteEnds(n: Node, acts: seq<Act>, r: nat, d: nat)
    requires n.phase.Rest? && n.state == RECV_VOTE && n.deadline == r + n.timeout
    requires n.clock <= r + d && n.cutoff == n.clock + n.timeout
    requires RunOf(n, acts, (n, a) => TimedAct(n, a, d)) && IsRun(n, acts)
    ensures var m := Run(n, acts);
            && OnesBy(m.polls, |n.polls|, r + 2 * n.timeout + 2 * d)
            && OnesThenZeros(m.polls, |n.polls|)
            && (m.Serving() && m.clock > r + 3 * n.timeout + 3 * d
                ==> ZeroBy(m.polls, |n.polls|, r + 3 * n.timeout + 3 * d))
  {
    StaleVoteEnds(n, acts, r + 2 * n.timeout + d, d);
  }
}
