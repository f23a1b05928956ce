/**
  The time bounds of StaleVote for a cluster: once a tied component has won the disk, how long
  each node outside it can still vote 1 and be quorate, whatever it was doing at that moment
  and however often it stops and starts.
 */
module SplitTimes {
  import opened SharedDisk
  import opened NodeMachine
  import opened NodeRuns
  import opened StaleVote
  import opened Cluster
  import opened SplitBrain

  // ---------- What an outside node sees ----------

  lemma OutsiderLoses(d: Disk, n: Node, what: What, winner: Key)
    requires Fresh(n, winner) && Enabled(n, ActOf(d, n, what))
    requires d.holder == Some(winner) && winner != n.key && winner != 0
    requires what.Beat? ==> !what.view.Majority()
    ensures LosingAct(n, ActOf(d, n, what))
  {
  }

  lemma OutsiderLosesUnderEvent(w: World, e: Event, s: Split, id: NodeId)
    requires Won(w, s) && Allowed(w, e, s) && s.Outside(id) && Fresh(w.nodes[id], s.keys[s.winner])
    ensures Fresh(Apply(w, e).nodes[id], s.keys[s.winner])
    ensures e.id == id ==> LosingAct(w.nodes[id], ActOf(w.disk, w.nodes[id], e.what))
  {
    hide Step, Served, ActOf, NodeHolds, NodeTruth, Fresh, LateBeat, Settled, LosingAct;
    OutsiderUnderEvent(w, e, s, id);
    if e.id == id {
      OutsideHasAtMostHalf(s, id);
      WinnerHasDisk(w, s);
      OutsiderLoses(w.disk, w.nodes[id], e.what, s.keys[s.winner]);
    }
  }

  /** What an outside node goes through in the cluster is a run of the losing side. */
  lemma {:induction false} OutsiderRunIsLosing(w: World, es: seq<Event>, s: Split, id: NodeId)
    requires Won(w, s) && Under(w, es, s) && IsHistory(w, es) && s.Outside(id)
    requires Fresh(w.nodes[id], s.keys[s.winner])
    ensures RunOf(w.nodes[id], ActsIn(w, es, id), LosingAct)
    decreases |es|
  {
    hide Step, Served, ActOf, Won, Fresh, LosingAct, Allowed;
    if es == [] {
    } else {
      var w1 := Apply(w, es[0]);
      var later := ActsIn(w1, es[1..], id);
      AllowedFacts(w, es[0], s);
      OutsiderLosesUnderEvent(w, es[0], s, id);
      WonStep(w, es[0], s);
      OutsiderRunIsLosing(w1, es[1..], s, id);
      if es[0].id == id {
        var a := ActOf(w.disk, w.nodes[id], es[0].what);
        assert ([a] + later)[1..] == later;
      } else {
        assert [] + later == later;
      }
    }
  }

  // ---------- The life of an outside node ----------

  predicate Stopping(n: Node) { n.phase.StopRelease? || n.phase.StopUnregister? }

  /** A heartbeat from before the split is in flight; no vote has been given since. */
  ghost predicate Stale(n: Node, from: nat, e: nat, d: nat) {
    && n.Serving() && HoldsNothing(n)
    && !n.phase.Rest? && !n.phase.DoRelease? && !n.phase.Recheck?
    && |n.polls| == from
    && n.cutoff <= e && n.deadline + n.timeout + d <= e && n.clock + 2 * n.timeout + 2 * d <= e
  }

  /**
    The process has been started again, and no vote of 1 has been given since. If it had not
    crashed, there is none left either.
   */
  ghost predicate Silenced(n: Node, from: nat, e: nat, d: nat, clean: bool) {
    && LosingFlight(n)
    && from <= |n.polls| && OnesBy(n.polls, from, e + d) && OnesThenZeros(n.polls, from)
    && (n.LastVote() ==> n.state == START && !clean)
    && (n.state == START || n.state == IDLE || n.state == RESIGNED)
    && (!n.Serving() && !Stopping(n) ==> n.state == START)
  }

  /** What can happen to an outside node; `clean` if it is not started again after a crash. */
  predicate LifeAct(n: Node, a: Act, d: nat, clean: bool) {
    && (a.Got? ==> a.c2 <= n.clock + d)
    && (a.Got? && n.phase.DoReserve? ==> a.reply != Flag(true))
    && (clean && a.Boot? ==> n.phase != Down(Crashed))
  }

  ghost predicate InLife(n: Node, from: nat, e: nat, d: nat, clean: bool) {
    Stage(n, from, e, d) || Silenced(n, from, e, d, clean)
  }

  lemma StageIsLife(n: Node, from: nat, e: nat, d: nat, clean: bool)
    requires Stage(n, from, e, d)
    ensures InLife(n, from, e, d, clean)
  {
  }

  /** Where one step leads from a stale heartbeat in flight: further along, or to its end. */
  ghost predicate StaleOutcome(n: Node, m: Node, from: nat, e: nat, d: nat) {
    var p := NewPoll(n, m);
    && m.timeout == n.timeout && m.polls == n.polls + (if p.Some? then [p.value] else [])
    && (Stale(m, from, e, d) ||
        (&& LosingFlight(m)
         && (p.Some? ==> p.value.at <= n.clock + d)
         && (if m.Serving() then
               && HoldsNothing(m) && m.clock <= n.clock + d
               && (m.cutoff == n.cutoff || m.cutoff <= n.clock + d + n.timeout)
               && (m.deadline == n.deadline || m.deadline <= n.clock + d + n.timeout)
               && (p.Some? && !p.value.vote ==> m.state == START || m.state == IDLE || m.state == RESIGNED)
             else p.None? && (m.phase.StopRelease? || (m.phase == Down(Crashed) && m.state == START)))))
  }

  lemma StaleMovesAtSwitch(n: Node, a: Act, from: nat, e: nat, d: nat)
    requires Stale(n, from, e, d) && Enabled(n, a) && LifeAct(n, a, d, false)
    requires a.Got? && n.phase.AskKeys?
    ensures StaleOutcome(n, Step(n, a), from, e, d)
  {
    hide AfterReserve;
  }

  lemma StaleMovesElsewhere(n: Node, a: Act, from: nat, e: nat, d: nat)
    requires Stale(n, from, e, d) && Enabled(n, a) && LifeAct(n, a, d, false)
    requires !(a.Got? && n.phase.AskKeys?)
    ensures StaleOutcome(n, Step(n, a), from, e, d)
  {
    hide Switch;
  }

  lemma StaleStep(n: Node, a: Act, from: nat, e: nat, d: nat)
    requires Stale(n, from, e, d) && Enabled(n, a) && LifeAct(n, a, d, false)
    ensures Stale(Step(n, a), from, e, d) || Stage(Step(n, a), from, e, d)
  {
    hide Step, LifeAct, Enabled, LosingFlight;
    if a.Got? && n.phase.AskKeys? {
      StaleMovesAtSwitch(n, a, from, e, d);
    } else {
      StaleMovesElsewhere(n, a, from, e, d);
    }
    var p := NewPoll(n, Step(n, a));
    if p.Some? && !p.value.vote {
      assert !Step(n, a).polls[from].vote;
    }
  }

  lemma SilencedMoves(n: Node, a: Act)
    requires LosingFlight(n) && Enabled(n, a) && LosingAct(n, a)
    requires n.state == START || n.state == IDLE || n.state == RESIGNED
    requires !n.Serving() && !Stopping(n) ==> n.state == START
    ensures var m := Step(n, a);
            && LosingFlight(m)
            && (m.polls == n.polls || exists t: nat :: m.polls == n.polls + [Poll(false, t)])
            && (m.state == START || m.state == IDLE || m.state == RESIGNED)
            && (!m.Serving() && !Stopping(m) ==> m.state == START)
            && (m.polls == n.polls && m.state != START ==> n.state != START)
  {
  }

  lemma SilencedStep(n: Node, a: Act, from: nat, e: nat, d: nat, clean: bool)
    requires Silenced(n, from, e, d, clean) && Enabled(n, a) && LosingAct(n, a)
    ensures Silenced(Step(n, a), from, e, d, clean)
  {
    hide Step, LosingAct, Enabled, LosingFlight, OnesBy, OnesThenZeros;
    SilencedMoves(n, a);
    var m := Step(n, a);
    if m.polls != n.polls {
      var t: nat :| m.polls == n.polls + [Poll(false, t)];
      ExtendPolls(n.polls, Poll(false, t), from, e + d, 0);
    }
  }

  /** A start from any of the three stages. */
  lemma RestartStep(n: Node, a: Act, from: nat, e: nat, d: nat, clean: bool)
    requires Stage(n, from, e, d) && Enabled(n, a) && LifeAct(n, a, d, clean) && a.Boot?
    ensures Silenced(Step(n, a), from, e, d, clean)
  {
    hide OnesBy, OnesThenZeros;
    ExtendPolls(n.polls, Poll(false, n.clock), from, e + d, 0);
  }

  lemma LifeStep(n: Node, a: Act, from: nat, e: nat, d: nat, clean: bool)
    requires InLife(n, from, e, d, clean) && Enabled(n, a) && LifeAct(n, a, d, clean) && LosingAct(n, a)
    ensures InLife(Step(n, a), from, e, d, clean)
  {
    hide Step, Enabled, LosingAct, Stage, Silenced;
    if Silenced(n, from, e, d, clean) {
      SilencedStep(n, a, from, e, d, clean);
    } else if a.Boot? {
      RestartStep(n, a, from, e, d, clean);
    } else {
      StageStep(n, a, from, e, d);
    }
  }

  // ---------- The same in the cluster ----------

  /** Node `id` ends each heartbeat within `d` of its first clock reading. */
  ghost predicate Prompt(w: World, es: seq<Event>, id: NodeId, d: nat)
    requires IsHistory(w, es) && id in w.nodes
    decreases |es|
  {
    es == [] ||
    (&& (es[0].On? && es[0].id == id && es[0].what.Serve? ==> es[0].what.c2 <= w.nodes[id].clock + d)
     && Prompt(Apply(w, es[0]), es[1..], id, d))
  }

  /** Node `id` is not started again after a crash. */
  ghost predicate CleanStarts(w: World, es: seq<Event>, id: NodeId)
    requires IsHistory(w, es) && id in w.nodes
    decreases |es|
  {
    es == [] ||
    (&& (es[0].On? && es[0].id == id && es[0].what.Start? ==> w.nodes[id].phase != Down(Crashed))
     && CleanStarts(Apply(w, es[0]), es[1..], id))
  }

  ghost predicate Outsider(n: Node, winner: Key, from: nat, e: nat, d: nat, clean: bool) {
    Stale(n, from, e, d) || (Fresh(n, winner) && InLife(n, from, e, d, clean))
  }

  lemma ReserveIsRefused(d: Disk, n: Node, what: What, winner: Key)
    requires Enabled(n, ActOf(d, n, what)) && d.holder == Some(winner) && winner != n.key
    ensures var a := ActOf(d, n, what); a.Got? && n.phase.DoReserve? ==> a.reply != Flag(true)
  {
  }

  lemma OffTheStaleBeat(n: Node, a: Act, winner: Key, from: nat, e: nat, d: nat)
    requires Stale(n, from, e, d) && Enabled(n, a) && !Stale(Step(n, a), from, e, d) && LifeAct(n, a, d, false)
    ensures Fresh(Step(n, a), winner)
  {
  }

  lemma OutsiderLifeStep(w: World, ev: Event, s: Split, id: NodeId, from: nat, e: nat, d: nat, clean: bool)
    requires Won(w, s) && Allowed(w, ev, s) && s.Outside(id)
    requires Outsider(w.nodes[id], s.keys[s.winner], from, e, d, clean)
    requires ev.id == id && ev.what.Serve? ==> ev.what.c2 <= w.nodes[id].clock + d
    requires clean && ev.id == id && ev.what.Start? ==> w.nodes[id].phase != Down(Crashed)
    ensures Outsider(Apply(w, ev).nodes[id], s.keys[s.winner], from, e, d, clean)
  {
    hide Step, Served, NodeHolds, NodeTruth, Fresh, InLife, Stale, LosingAct, Enabled;
    if ev.id == id {
      var n, a, k := w.nodes[id], ActOf(w.disk, w.nodes[id], ev.what), s.keys[s.winner];
      WinnerHasDisk(w, s);
      ReserveIsRefused(w.disk, n, ev.what, k);
      assert LifeAct(n, a, d, clean);
      if Stale(n, from, e, d) {
        StaleStep(n, a, from, e, d);
        if !Stale(Step(n, a), from, e, d) {
          OffTheStaleBeat(n, a, k, from, e, d);
          StageIsLife(Step(n, a), from, e, d, clean);
        }
      } else {
        OutsiderLosesUnderEvent(w, ev, s, id);
        LifeStep(n, a, from, e, d, clean);
      }
    }
  }

  lemma {:induction false} OutsiderLives(w: World, es: seq<Event>, s: Split, id: NodeId,
                                         from: nat, e: nat, d: nat, clean: bool)
    requires Won(w, s) && Under(w, es, s) && IsHistory(w, es) && s.Outside(id) && Prompt(w, es, id, d)
    requires Outsider(w.nodes[id], s.keys[s.winner], from, e, d, clean) && (clean ==> CleanStarts(w, es, id))
    ensures Won(Exec(w, es), s) && id in Exec(w, es).nodes
    ensures Outsider(Exec(w, es).nodes[id], s.keys[s.winner], from, e, d, clean)
    ensures Exec(w, es).nodes[id].timeout == w.nodes[id].timeout
    decreases |es|
  {
    hide Won, Step, Served, ActOf, Allowed, Outsider;
    WonFits(w, s);
    if es == [] {
    } else {
      AllowedFacts(w, es[0], s);
      OutsiderLifeStep(w, es[0], s, id, from, e, d, clean);
      WonStep(w, es[0], s);
      StepKeepsPast(w.nodes[es[0].id], ActOf(w.disk, w.nodes[es[0].id], es[0].what));
      OutsiderLives(Apply(w, es[0]), es[1..], s, id, from, e, d, clean);
    }
  }

  /** Once a vote of 0 has been given, the last vote is 0. */
  lemma ZeroIsLast(polls: seq<Poll>, from: nat, t: nat)
    requires OnesThenZeros(polls, from) && ZeroBy(polls, from, t)
    ensures polls != [] && !polls[|polls| - 1].vote
  {
  }

  /** What a life has come to once its clock has passed `e + T + 2d`. */
  lemma LifeAtTheEnd(m: Node, winner: Key, from: nat, e: nat, d: nat, clean: bool)
    requires Outsider(m, winner, from, e, d, clean)
    ensures OnesBy(m.polls, from, e + d)
    ensures m.Serving() && m.state != START && m.clock > e + m.timeout + 2 * d ==> !m.LastVote()
    ensures clean && !Stopping(m) && m.phase != Down(Crashed) && (m.clock > e + m.timeout + 2 * d || m.phase.Down?) ==>
              !m.LastVote()
  {
    hide LosingFlight, OnesThenZeros;
    if ZeroBy(m.polls, from, e + m.timeout + 2 * d) && !Stale(m, from, e, d) {
      ZeroIsLast(m.polls, from, e + m.timeout + 2 * d);
    }
  }

  lemma LifeAtTheStart(w: World, s: Split, id: NodeId, e: nat, d: nat, clean: bool)
    requires Won(w, s) && s.Outside(id)
    requires var n := w.nodes[id];
             && (n.Serving() ==> n.clock <= e && n.cutoff <= e && n.deadline + n.timeout + d <= e)
             && (n.Serving() && !Fresh(n, s.keys[s.winner]) ==> n.clock + 2 * n.timeout + 2 * d <= e)
             && (clean && !n.Serving() && !Stopping(n) ==> !n.LastVote())
    ensures Outsider(w.nodes[id], s.keys[s.winner], |w.nodes[id].polls|, e, d, clean)
  {
    WinnerHasDisk(w, s);
    assert NodeTruth(w.nodes[id], w.disk) && NodeHolds(w.nodes[id], w.disk);
  }

  /**
    In a split that has been won, let `e` be no earlier than an outside node's clock, its cutoff,
    and its deadline plus the timeout plus `d`; and if a heartbeat from before the split is in
    flight, no earlier than its start plus `2T + 2d`. Then that node gives no vote of 1 after `e + d`,
    over any stops, crashes and restarts. Once its clock has passed `e + T + 2d`, its last vote is 0
    and it is not quorate: in every state of service past START, and if it is not started again
    after a crash, also in START, while it starts, and once it is down in any way but a crash.
   */
  lemma OutsideVotesEndInTime(w: World, es: seq<Event>, s: Split, id: NodeId, e: nat, d: nat)
    requires Won(w, s) && Under(w, es, s) && IsHistory(w, es) && s.Outside(id) && Prompt(w, es, id, d)
    requires var n := w.nodes[id];
             && (n.Serving() ==> n.clock <= e && n.cutoff <= e && n.deadline + n.timeout + d <= e)
             && (n.Serving() && !Fresh(n, s.keys[s.winner]) ==> n.clock + 2 * n.timeout + 2 * d <= e)
    ensures var n, w' := w.nodes[id], Exec(w, es);
            && s.Fits(w')
            && var m := w'.nodes[id];
               var late, clean := m.clock > e + m.timeout + 2 * d,
                                  CleanStarts(w, es, id) && (n.Serving() || Stopping(n) || !n.LastVote());
               && OnesBy(m.polls, |n.polls|, e + d)
               && (m.Serving() && m.state != START && late ==> !m.LastVote() && !Quorate(w', s, id))
               && (clean && !Stopping(m) && m.phase != Down(Crashed) && (late || m.phase.Down?) ==>
                   !m.LastVote() && !Quorate(w', s, id))
  {
    hide Won, Under, IsHistory, Exec, Prompt, CleanStarts, Outsider, OnesBy, Fresh;
    WonFits(w, s);
    var n := w.nodes[id];
    var clean := CleanStarts(w, es, id) && (n.Serving() || Stopping(n) || !n.LastVote());
    LifeAtTheStart(w, s, id, e, d, clean);
    OutsiderLives(w, es, s, id, |n.polls|, e, d, clean);
    LifeAtTheEnd(Exec(w, es).nodes[id], s.keys[s.winner], |n.polls|, e, d, clean);
    WonFits(Exec(w, es), s);
    OutsideHasAtMostHalf(s, id);
  }
}
