/**
  How a tie ends: the cluster heals and every node comes back to IDLE, or the holder's
  component shrinks below half and gives the disk up.
 */
module TieEnds {
  import opened SharedDisk
  import opened NodeMachine
  import opened NodeRuns
  import opened Cluster

  // ---------- Healing ----------

  /** A node sees a quorate majority and stays in service, and no reply hides the holder. */
  ghost predicate HealedEvent(w: World, e: Event) {
    e.On? && CanHappen(w, e) && KeepsTruth(w, e) && MajorityAct(w.nodes[e.id], ActOf(w.disk, w.nodes[e.id], e.what))
  }

  ghost predicate Healed(w: World, es: seq<Event>)
    decreases |es|
  {
    es == [] || (HealedEvent(w, es[0]) && Healed(Apply(w, es[0]), es[1..]))
  }

  lemma {:induction false} HealedRun(w: World, es: seq<Event>, id: NodeId)
    requires Healed(w, es) && IsHistory(w, es) && id in w.nodes
    ensures RunOf(w.nodes[id], ActsIn(w, es, id), MajorityAct)
    decreases |es|
  {
    hide Step, Served, ActOf, MajorityAct, KeepsTruth;
    if es == [] {
    } else {
      var w1 := Apply(w, es[0]);
      var later := ActsIn(w1, es[1..], id);
      HealedRun(w1, es[1..], id);
      if es[0].id == id {
        assert ([ActOf(w.disk, w.nodes[id], es[0].what)] + later)[1..] == later;
      } else {
        assert [] + later == later;
      }
    }
  }

  lemma {:induction false} HealedTruth(w: World, es: seq<Event>)
    requires TruthInv(w) && Healed(w, es) && IsHistory(w, es)
    ensures TruthInv(Exec(w, es))
    decreases |es|
  {
    hide TruthInv, Apply, KeepsTruth, MajorityAct;
    if es == [] {
    } else {
      TruthStep(w, es[0]);
      HealedTruth(Apply(w, es[0]), es[1..]);
    }
  }

  lemma {:induction false} MajorityFlightStays(n: Node, acts: seq<Act>)
    requires MajorityFlight(n) && RunOf(n, acts, MajorityAct)
    ensures IsRun(n, acts) && MajorityFlight(Run(n, acts))
    decreases |acts|
  {
    if acts == [] {
    } else {
      assert MajorityFlight(Step(n, acts[0]));
      MajorityFlightStays(Step(n, acts[0]), acts[1..]);
    }
  }

  /** Node `id` completes as many heartbeats as it may need: its rank, its time to the deadline, its failed releases. */
  ghost predicate EnoughBeats(w: World, es: seq<Event>, id: NodeId)
    requires IsHistory(w, es) && id in w.nodes
  {
    var n, acts := w.nodes[id], ActsIn(w, es, id);
    && IsRun(n, acts)
    && Run(n, acts).beats >= n.beats + StepsToIdle(n.state) + TimeLeft(n) + FailedReleases(n, acts)
  }

  /** In IDLE, without the disk, and with a vote of 1 for each heartbeat since `n`. */
  ghost predicate Recovered(n: Node, m: Node, d: Disk) {
    m.In(IDLE) && d.holder != Some(m.key) && PollsOneEachBeat(n, m)
  }

  lemma IdleHoldsNothing(w: World, id: NodeId)
    requires TruthInv(w) && id in w.nodes && w.nodes[id].In(IDLE)
    ensures w.disk.holder != Some(w.nodes[id].key)
  {
    assert NodeTruth(w.nodes[id], w.disk);
  }

  lemma NodeRecovers(w: World, es: seq<Event>, more: seq<Event>, id: NodeId)
    requires TruthInv(w) && id in w.nodes && w.nodes[id].phase.Rest?
    requires Healed(w, es) && IsHistory(w, es) && EnoughBeats(w, es, id)
    requires Healed(Exec(w, es), more) && IsHistory(Exec(w, es), more)
    ensures var w1 := Exec(w, es); var w2 := Exec(w1, more);
            id in w1.nodes && id in w2.nodes && Recovered(w1.nodes[id], w2.nodes[id], w2.disk)
  {
    hide Healed, IsHistory, Exec, ActsIn, Run, IsRun, RunOf, MajorityAct, FailedReleases, TruthInv;
    var w1 := Exec(w, es);
    HealedRun(w, es, id);
    HistoryIsRun(w, es, id);
    MajorityFlightStays(w.nodes[id], ActsIn(w, es, id));
    var i := MajorityServes(w.nodes[id], ActsIn(w, es, id));
    HealedRun(w1, more, id);
    HistoryIsRun(w1, more, id);
    MajorityFlightStays(w1.nodes[id], ActsIn(w1, more, id));
    MajorityStaysIdle(w1.nodes[id], ActsIn(w1, more, id));
    HealedTruth(w, es);
    HealedTruth(w1, more);
    IdleHoldsNothing(Exec(w1, more), id);
  }

  /**
    Recovery. `before` is any history in which the nodes are right about who holds the disk. The
    cluster heals, and during `es` every node completes the heartbeats it needs. Then, throughout
    `more`, every node is in IDLE and polls 1 at each heartbeat, and no node holds the disk.
   */
  lemma ClusterRecovers(w0: World, before: seq<Event>, es: seq<Event>, more: seq<Event>)
    requires Initial(w0) && IsHistory(w0, before) && AllKeepTruth(w0, before)
    requires var w := Exec(w0, before);
             && Healed(w, es) && IsHistory(w, es)
             && (forall id | id in w.nodes :: w.nodes[id].phase.Rest? && EnoughBeats(w, es, id))
             && Healed(Exec(w, es), more) && IsHistory(Exec(w, es), more)
    ensures var w1 := Exec(Exec(w0, before), es); var w2 := Exec(w1, more);
            && w2.nodes.Keys == w1.nodes.Keys == w0.nodes.Keys
            && forall id | id in w0.nodes :: Recovered(w1.nodes[id], w2.nodes[id], w2.disk)
  {
    hide *;
    TruthfulHistory(w0, before);
    var w := Exec(w0, before);
    NodesStay(w0, before);
    NodesStay(w, es);
    NodesStay(Exec(w, es), more);
    forall id | id in w0.nodes
      ensures Recovered(Exec(w, es).nodes[id], Exec(Exec(w, es), more).nodes[id], Exec(Exec(w, es), more).disk)
    {
      NodeRecovers(w, es, more, id);
    }
  }

  // ---------- The holder falls below half ----------

  /** The holder's votes so far, one a heartbeat: 1 in HAVE_QDISK and in RELEASE_QDISK. */
  function VotesBefore(s: State, c: nat): seq<Poll> {
    match s
    case RELEASE_QDISK => [Poll(true, c)]
    case IDLE => [Poll(true, c), Poll(true, c)]
    case RESIGNED => [Poll(true, c), Poll(true, c), Poll(false, c)]
    case _ => []
  }

  /** A holder that has come to see less than half of the nodes, up to its leaving IDLE. */
  predicate Falling(n: Node, d: Disk, polls: seq<Poll>, c: nat) {
    && n.key in d.registered && n.key != 0 && n.clock == c <= n.cutoff
    && n.polls == polls + VotesBefore(n.state, c)
    && (n.state == HAVE_QDISK || n.state == RELEASE_QDISK || n.state == IDLE)
    && d.holder == (if n.state == IDLE then None else Some(n.key))
    && match n.phase
       case Rest => true
       case AskReserved(v) => v.Minority() && v.keys.Some?
       case AskOwner(v) => v.Minority() && v.keys.Some? && n.state != IDLE
       case AskKeys(s) =>
         && s.view.Minority()
         && (if n.state == IDLE then !s.reserved && s.holder == 0 else s.reserved && s.holder == n.key)
       case DoRelease => n.state == RELEASE_QDISK
       case _ => false
  }

  function StepsToFall(s: State, p: Phase): nat {
    (match s
     case HAVE_QDISK => 12
     case RELEASE_QDISK => 6
     case _ => 0)
    + (match p
       case Rest => 5
       case AskReserved(_) => 4
       case AskOwner(_) => 3
       case AskKeys(_) => 2
       case DoRelease => 1
       case _ => 0)
  }

  lemma FallStep(d: Disk, n: Node, view: View, polls: seq<Poll>, c: nat)
    requires Falling(n, d, polls, c) && view.Minority() && view.keys.Some?
    ensures var what := NextOf(n, view);
            && Enabled(n, ActOf(d, n, what))
            && var m, d' := Step(n, ActOf(d, n, what)), Served(d, n, what).0;
               if m.state == RESIGNED then
                 m.phase.Rest? && d'.holder == None && m.polls == polls + VotesBefore(RESIGNED, c)
               else
                 Falling(m, d', polls, c) && StepsToFall(m.state, m.phase) < StepsToFall(n.state, n.phase)
  {
  }

  lemma {:induction false} Falls(w: World, id: NodeId, view: View, polls: seq<Poll>, c: nat) returns (es: seq<Event>)
    requires id in w.nodes && Falling(w.nodes[id], w.disk, polls, c) && view.Minority() && view.keys.Some?
    ensures IsHistory(w, es) && NoOperator(es)
    ensures var w' := Exec(w, es);
            && id in w'.nodes && w'.nodes[id].In(RESIGNED) && w'.disk.holder == None
            && w'.nodes[id].polls == polls + VotesBefore(RESIGNED, c)
    decreases StepsToFall(w.nodes[id].state, w.nodes[id].phase)
  {
    hide Step, Served, ActOf, Falling, Enabled, StepsToFall, NextOf, VotesBefore;
    var e := On(id, NextOf(w.nodes[id], view));
    FallStep(w.disk, w.nodes[id], view, polls, c);
    var w1 := Apply(w, e);
    var later := [];
    if w1.nodes[id].state != RESIGNED {
      later := Falls(w1, id, view, polls, c);
    }
    ExecNext(w, e, later);
    es := [e] + later;
  }

  /**
    A holder that falls below half does not resign at once: it polls 1 in HAVE_QDISK, releases the
    disk and polls 1 in RELEASE_QDISK, and resigns with a poll of 0 from IDLE.
   */
  lemma HolderBelowHalfPollsOneTwice(w: World, id: NodeId, view: View) returns (es: seq<Event>)
    requires Inv(w) && id in w.nodes && view.Minority() && view.keys.Some?
    requires var n := w.nodes[id]; n.phase.Rest? && n.state == HAVE_QDISK && n.clock <= n.cutoff
    ensures IsHistory(w, es) && NoOperator(es)
    ensures var n, w' := w.nodes[id], Exec(w, es);
            && id in w'.nodes && w'.nodes[id].In(RESIGNED) && w'.disk.holder == None
            && w'.nodes[id].polls == n.polls + [Poll(true, n.clock), Poll(true, n.clock), Poll(false, n.clock)]
  {
    var n := w.nodes[id];
    assert NodeHolds(n, w.disk);
    assert n.polls + [] == n.polls;
    es := Falls(w, id, view, n.polls, n.clock);
  }
}
