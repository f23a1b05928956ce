/**
  When the two halves of a cluster can vote 1 at the same time: always before the disk is won, and
  after that for as long as a node of the other half is in RECV_VOTE or about to be.
 */
module SplitVotes {
  import opened SharedDisk
  import opened NodeMachine
  import opened NodeRuns
  import opened Cluster
  import opened SplitBrain
  import opened SplitSettles
  import opened SplitTimes

  // ---------- Before the disk is won ----------

  /** A node that has not come into service yet, on its way there. */
  predicate Rising(n: Node, d: Disk) {
    && d.holder == None && n.key != 0 && n.clock <= n.cutoff && n.state == START
    && match n.phase
       case Down(_) => true
       case BootValidate(nodeKeys) => nodeKeys == []
       case BootReserved => true
       case BootJoin => true
       case BootRegister => true
       case BootShare => n.key in d.registered
       case Rest => n.key in d.registered
       case AskReserved(v) => v.quorate && v.keys.Some? && n.key in d.registered
       case AskKeys(s) => s.view.quorate && n.key in d.registered
       case _ => false
  }

  function StepsToService(p: Phase): nat {
    match p
    case Down(_) => 9
    case BootValidate(_) => 8
    case BootReserved => 7
    case BootJoin => 6
    case BootRegister => 5
    case BootShare => 4
    case Rest => 3
    case AskReserved(_) => 2
    case AskKeys(_) => 1
    case _ => 0
  }

  /** The next event on the way: a start, a heartbeat in sight of `view`, or a command without fault. */
  function OnTheRise(n: Node, view: View): What {
    if n.phase.Down? then Start(Some([]))
    else if n.phase.Rest? then Beat(n.clock, view)
    else Serve(NoFault, n.clock, n.clock)
  }

  predicate InIdle(n: Node) { AtRest(n) && n.state == IDLE }

  lemma RiseStep(d: Disk, n: Node, view: View)
    requires Rising(n, d) && view.quorate && view.keys.Some?
    ensures var what := OnTheRise(n, view);
            && Enabled(n, ActOf(d, n, what))
            && var m, d' := Step(n, ActOf(d, n, what)), Served(d, n, what).0;
               && d'.holder == None
               && (InIdle(m) || (Rising(m, d') && StepsToService(m.phase) < StepsToService(n.phase)))
  {
  }

  /** On a free disk a node can come into service while the others stand still. */
  lemma {:induction false} ComesIntoService(w: World, id: NodeId, view: View) returns (es: seq<Event>)
    requires id in w.nodes && Rising(w.nodes[id], w.disk) && view.quorate && view.keys.Some?
    ensures IsHistory(w, es) && NoOperator(es)
    ensures var w' := Exec(w, es);
            id in w'.nodes && w'.disk.holder == None && InIdle(w'.nodes[id]) && w'.nodes == w.nodes[id := w'.nodes[id]]
    decreases StepsToService(w.nodes[id].phase)
  {
    hide Step, Served, ActOf, Rising, Enabled, InIdle, StepsToService, OnTheRise;
    var e := On(id, OnTheRise(w.nodes[id], view));
    RiseStep(w.disk, w.nodes[id], view);
    var w1 := Apply(w, e);
    var later := [];
    if !InIdle(w1.nodes[id]) {
      later := ComesIntoService(w1, id, view);
    }
    ExecNext(w, e, later);
    es := [e] + later;
  }

  /** What node `id` of a split can be told when it knows no keys. */
  function Sight(s: Split, id: NodeId): View
    requires id in s.part
  {
    View(false, |s.Component(id)|, |s.part|, Some([]))
  }

  function StepsToVote(p: Phase): nat {
    match p
    case DoReserve(_) => 1
    case AskKeys(_) => 2
    case AskOwner(v) => if v.keys.Some? then 3 else 6
    case AskReserved(v) => if v.keys.Some? then 4 else 7
    case StrayRelease => 6
    case Rest => 5
    case _ => 0
  }

  function OnTheVote(n: Node, v: View): What {
    if n.phase.Rest? then Beat(n.clock, v) else Serve(NoFault, n.clock, n.clock)
  }

  /** A node in IDLE that sees a tie on a free disk. */
  predicate FreeVoter(n: Node, d: Disk) {
    && d.holder == None && n.key in d.registered && n.state == IDLE && n.clock <= n.cutoff
    && match n.phase
       case Rest => true
       case AskReserved(v) => v.Tie() && v.keys.Some?
       case AskKeys(snap) => snap.view.Tie() && !snap.reserved && snap.holder == 0
       case _ => false
  }

  lemma WithinCutoff(n: Node, d: Disk)
    requires FreeVoter(n, d)
    ensures n.clock <= n.cutoff
  {
  }

  lemma FreeVoteStep(d: Disk, n: Node, v: View)
    requires FreeVoter(n, d) && v.Tie() && v.keys.Some?
    ensures var what := OnTheVote(n, v);
            && Enabled(n, ActOf(d, n, what)) && Served(d, n, what).0 == d
            && var m := Step(n, ActOf(d, n, what));
               m.LastVote() || (FreeVoter(m, d) && StepsToVote(m.phase) < StepsToVote(n.phase))
  {
  }

  /** Node `id` polls 1 in IDLE because it sees a tie and a free disk. */
  lemma {:induction false} HalfVotes(w: World, s: Split, id: NodeId) returns (es: seq<Event>)
    requires s.Fits(w) && id in s.part && FreeVoter(w.nodes[id], w.disk)
    requires |s.Component(id)| * 2 == |s.part|
    ensures Under(w, es, s) && IsHistory(w, es)
    ensures var w' := Exec(w, es);
            && s.Fits(w') && w'.disk == w.disk
            && w'.nodes == w.nodes[id := w'.nodes[id]] && w'.nodes[id].LastVote()
    decreases StepsToVote(w.nodes[id].phase)
  {
    hide Step, Served, ActOf, LateBeat, FreeVoter, StepsToVote, Enabled, InFlight, KeepsTruth;
    var v := Sight(s, id);
    var e := On(id, OnTheVote(w.nodes[id], v));
    FreeVoteStep(w.disk, w.nodes[id], v);
    WithinCutoff(w.nodes[id], w.disk);
    Unmoved(w, e);
    var w1 := Apply(w, e);
    if w1.nodes[id].LastVote() {
      EndOfHistory(w1, s, id);
      UnderNext(w, e, [], s, id);
      es := [e] + [];
    } else {
      var later := HalfVotes(w1, s, id);
      UnderNext(w, e, later, s, id);
      es := [e] + later;
    }
  }

  lemma {:induction false} FitsStays(w: World, s: Split, es: seq<Event>)
    requires s.Fits(w) && IsHistory(w, es) && NoOperator(es)
    ensures s.Fits(Exec(w, es))
    decreases |es|
  {
    hide Step, Served, ActOf;
    if es == [] {
    } else {
      assert es[0] in es;
      Unmoved(w, es[0]);
      FitsStays(Apply(w, es[0]), s, es[1..]);
    }
  }

  lemma IdleIsFreeVoter(w: World, id: NodeId)
    requires Inv(w) && id in w.nodes && InIdle(w.nodes[id]) && w.disk.holder == None
    ensures FreeVoter(w.nodes[id], w.disk)
  {
    assert NodeHolds(w.nodes[id], w.disk);
  }

  lemma RisingAtStart(w: World, id: NodeId)
    requires Initial(w) && id in w.nodes && w.disk.holder == None && w.nodes[id].clock <= w.nodes[id].cutoff
    ensures forall d: Disk | d.holder == None :: Rising(w.nodes[id], d)
  {
  }

  /**
    Two halves can both be quorate at the same time. For every cluster that is split into
    halves and whose disk is free, there is a run from the very start, `before` the split and
    then `es` under it, at whose end a node of each half has polled 1 and is quorate.
   */
  lemma BothHalvesCanVote(w0: World, s: Split, i: NodeId, j: NodeId) returns (before: seq<Event>, es: seq<Event>)
    requires Initial(w0) && w0.disk.holder == None && s.Fits(w0)
    requires i in s.part && j in s.part && s.part[i] != s.part[j]
    requires |s.Component(i)| * 2 == |s.part| == |s.Component(j)| * 2
    requires w0.nodes[i].clock <= w0.nodes[i].cutoff && w0.nodes[j].clock <= w0.nodes[j].cutoff
    ensures IsHistory(w0, before) && NoOperator(before)
    ensures Under(Exec(w0, before), es, s) && IsHistory(Exec(w0, before), es)
    ensures var w := Exec(Exec(w0, before), es); s.Fits(w) && Quorate(w, s, i) && Quorate(w, s, j)
  {
    hide Apply, CanHappen, IsHistory, Exec, Under, InIdle, FreeVoter, Inv, Initial, Rising;
    RisingAtStart(w0, i);
    RisingAtStart(w0, j);
    var all := View(true, |s.part|, |s.part|, Some([]));
    var first := ComesIntoService(w0, i, all);
    var second := ComesIntoService(Exec(w0, first), j, all);
    ExecConcat(w0, first, second);
    before := first + second;
    InvAtStart(w0);
    NodesAreHarmless(w0, before);
    InvExec(w0, before);
    var w := Exec(w0, before);
    FitsStays(w0, s, before);
    IdleIsFreeVoter(w, i);
    IdleIsFreeVoter(w, j);
    var vote1 := HalfVotes(w, s, i);
    var vote2 := HalfVotes(Exec(w, vote1), s, j);
    UnderConcat(w, vote1, vote2, s, i);
    es := vote1 + vote2;
  }

  // ---------- After the disk is won ----------

  /** A heartbeat begun in sight of `v` ends with a vote of 1 once the disk is held by `winner`. */
  predicate WillVote(state: State, v: View, winner: Key) {
    && v.keys.Some?
    && (if state == IDLE then v.Majority() || (v.Tie() && v.Sees(winner))
        else state == RESERVE_DISK && v.Sees(winner))
  }

  /**
    The node is in RECV_VOTE, or a heartbeat from before the split is in flight that had a
    majority, the winner, or a tie on a free disk in sight.
   */
  predicate StillVotes(n: Node, winner: Key) {
    && n.Serving()
    && (|| n.state == RECV_VOTE
        || match n.phase
           case AskReserved(v) => WillVote(n.state, v, winner)
           case AskOwner(v) => WillVote(n.state, v, winner)
           case AskKeys(snap) =>
             if n.state == IDLE
             then snap.view.Majority() || (snap.view.Tie() && (snap.HolderVisible() || !snap.reserved))
             else n.state == RESERVE_DISK && snap.HolderVisible()
           case DoReserve(snap) => snap.HolderVisible()
           case _ => false)
  }

  /** No missed cutoff stops a node in RECV_VOTE. */
  predicate CanVote(n: Node, winner: Key) { StillVotes(n, winner) && (n.state == RECV_VOTE ==> n.clock <= n.cutoff) }

  lemma FreshVoters(n: Node, d: Disk, winner: Key)
    requires NodeHolds(n, d) && Fresh(n, winner)
    ensures StillVotes(n, winner) <==> n.In(RECV_VOTE)
  {
  }

  /** A node outside the winner's component that is not in RECV_VOTE is on the losing side for good. */
  lemma OutsiderIsLosing(w: World, s: Split, id: NodeId)
    requires Won(w, s) && s.Outside(id) && Fresh(w.nodes[id], s.keys[s.winner]) && !w.nodes[id].In(RECV_VOTE)
    ensures Losing(w.nodes[id])
  {
    WinnerHasDisk(w, s);
    assert NodeTruth(w.nodes[id], w.disk) && NodeHolds(w.nodes[id], w.disk);
  }

  lemma OutsiderStaysSilent(w: World, es: seq<Event>, s: Split, id: NodeId)
    requires Won(w, s) && s.Outside(id) && Fresh(w.nodes[id], s.keys[s.winner]) && !w.nodes[id].In(RECV_VOTE)
    requires Under(w, es, s) && IsHistory(w, es)
    ensures id in Exec(w, es).nodes && OnlyPolls(w.nodes[id], Exec(w, es).nodes[id], false)
  {
    hide Won, Fresh, Losing, Under, IsHistory, Exec, ActsIn, Run, IsRun, RunOf;
    WonFits(w, s);
    OutsiderIsLosing(w, s, id);
    OutsiderRunIsLosing(w, es, s, id);
    HistoryIsRun(w, es, id);
    LosingSideStaysSilent(w.nodes[id], ActsIn(w, es, id));
  }

  lemma SilentStepAtSwitch(d: Disk, n: Node, what: What, winner: Key)
    requires NodeHolds(n, d) && NodeTruth(n, d) && Enabled(n, ActOf(d, n, what)) && !StillVotes(n, winner)
    requires d.holder == Some(winner) && winner != n.key && winner != 0
    requires what.Serve? && n.phase.AskKeys?
    ensures var m := Step(n, ActOf(d, n, what)); !StillVotes(m, winner) && OnlyPolls(n, m, false)
  {
  }

  lemma SilentStepElsewhere(d: Disk, n: Node, what: What, winner: Key)
    requires NodeHolds(n, d) && NodeTruth(n, d) && Enabled(n, ActOf(d, n, what)) && !StillVotes(n, winner)
    requires d.holder == Some(winner) && winner != n.key && winner != 0
    requires what.Beat? ==> !what.view.Majority() && !what.view.Sees(winner)
    requires !(what.Serve? && n.phase.AskKeys?)
    ensures var m := Step(n, ActOf(d, n, what)); !StillVotes(m, winner) && OnlyPolls(n, m, false)
  {
    hide Switch;
  }

  lemma SilentUnderEvent(w: World, e: Event, s: Split, id: NodeId)
    requires Won(w, s) && Allowed(w, e, s) && s.Outside(id) && !StillVotes(w.nodes[id], s.keys[s.winner])
    ensures var m := Apply(w, e).nodes[id];
            !StillVotes(m, s.keys[s.winner]) && OnlyPolls(w.nodes[id], m, false)
  {
    hide Step, Served, ActOf, NodeHolds, NodeTruth, StillVotes;
    if e.id == id {
      WinnerHasDisk(w, s);
      OutsiderHolds(w, s, id);
      OutsideHasAtMostHalf(s, id);
      if e.what.Serve? && w.nodes[id].phase.AskKeys? {
        SilentStepAtSwitch(w.disk, w.nodes[id], e.what, s.keys[s.winner]);
      } else {
        SilentStepElsewhere(w.disk, w.nodes[id], e.what, s.keys[s.winner]);
      }
    }
  }

  lemma OutsiderHoldsFresh(w: World, s: Split, id: NodeId)
    requires Won(w, s) && s.Outside(id) && Fresh(w.nodes[id], s.keys[s.winner])
    ensures StillVotes(w.nodes[id], s.keys[s.winner]) <==> w.nodes[id].In(RECV_VOTE)
  {
    hide StillVotes, Fresh, NodeTruth;
    OutsiderHolds(w, s, id);
    FreshVoters(w.nodes[id], w.disk, s.keys[s.winner]);
  }

  /** A silent node stays silent; once its heartbeats belong to the split, as a node of the losing side. */
  lemma {:induction false} SilentForGood(w: World, es: seq<Event>, s: Split, id: NodeId)
    requires Won(w, s) && s.Outside(id) && !StillVotes(w.nodes[id], s.keys[s.winner])
    requires Under(w, es, s) && IsHistory(w, es)
    ensures id in Exec(w, es).nodes && OnlyPolls(w.nodes[id], Exec(w, es).nodes[id], false)
    decreases |es|
  {
    hide Won, Allowed, Apply, StillVotes, Fresh;
    WonFits(w, s);
    if es == [] {
    } else if Fresh(w.nodes[id], s.keys[s.winner]) {
      OutsiderHoldsFresh(w, s, id);
      OutsiderStaysSilent(w, es, s, id);
    } else {
      WonStep(w, es[0], s);
      SilentUnderEvent(w, es[0], s, id);
      SilentForGood(Apply(w, es[0]), es[1..], s, id);
    }
  }

  lemma VoteStep(d: Disk, n: Node, v: View, winner: Key)
    requires NodeHolds(n, d) && NodeTruth(n, d) && CanVote(n, winner)
    requires d.holder == Some(winner) && winner != n.key && winner != 0
    requires v.keys.Some? && !v.Majority() && !v.Sees(winner)
    ensures var what := OnTheVote(n, v);
            && Enabled(n, ActOf(d, n, what))
            && var m := Step(n, ActOf(d, n, what));
               || m.polls == n.polls + [Poll(true, n.clock)]
               || (&& m.polls == n.polls && m.clock == n.clock
                   && CanVote(m, winner) && StepsToVote(m.phase) < StepsToVote(n.phase))
  {
  }

  /** Such a node of the other side can give one more vote of 1. */
  lemma {:induction false} GivesVote(w: World, s: Split, id: NodeId) returns (es: seq<Event>)
    requires Won(w, s) && s.Outside(id) && CanVote(w.nodes[id], s.keys[s.winner])
    ensures Under(w, es, s) && IsHistory(w, es) && s.Fits(Exec(w, es))
    ensures Exec(w, es).nodes[id].polls == w.nodes[id].polls + [Poll(true, w.nodes[id].clock)]
    decreases StepsToVote(w.nodes[id].phase)
  {
    hide Step, Served, ActOf, NodeHolds, NodeTruth, LateBeat, InFlight, CanVote, StepsToVote, TruthInv;
    var v := Sight(s, id);
    var e := On(id, OnTheVote(w.nodes[id], v));
    WinnerHasDisk(w, s);
    OutsiderHolds(w, s, id);
    OutsideHasAtMostHalf(s, id);
    VoteStep(w.disk, w.nodes[id], v, s.keys[s.winner]);
    WonStep(w, e, s);
    var w1 := Apply(w, e);
    if w1.nodes[id].polls != w.nodes[id].polls {
      EndOfHistory(w1, s, id);
      UnderNext(w, e, [], s, id);
      es := [e] + [];
    } else {
      var later := GivesVote(w1, s, id);
      UnderNext(w, e, later, s, id);
      es := [e] + later;
    }
  }

  /** No run of the split contains another vote of 1 by node `id`. */
  ghost predicate StaysSilent(w: World, s: Split, id: NodeId)
    requires s.Fits(w) && id in s.part
  {
    forall es | Under(w, es, s) && IsHistory(w, es) && s.Fits(Exec(w, es)) ::
      OnlyPolls(w.nodes[id], Exec(w, es).nodes[id], false)
  }

  /**
    Once a half has won, a node outside it can vote 1 again if and only if it is in RECV_VOTE, or a
    heartbeat from before the split still leads it to that.
   */
  lemma SilentUnlessStillVoting(w: World, s: Split, id: NodeId)
    requires Won(w, s) && s.Outside(id)
    requires w.nodes[id].In(RECV_VOTE) ==> w.nodes[id].clock <= w.nodes[id].cutoff
    ensures s.Fits(w) && (StaysSilent(w, s, id) <==> !StillVotes(w.nodes[id], s.keys[s.winner]))
  {
    hide Won, Under, IsHistory, Exec;
    WonFits(w, s);
    if StillVotes(w.nodes[id], s.keys[s.winner]) {
      var es := GivesVote(w, s, id);
      var n, m := w.nodes[id], Exec(w, es).nodes[id];
      assert m.polls[|n.polls|].vote;
      assert !OnlyPolls(n, m, false);
    } else {
      hide StillVotes;
      forall es | Under(w, es, s) && IsHistory(w, es) && s.Fits(Exec(w, es))
        ensures OnlyPolls(w.nodes[id], Exec(w, es).nodes[id], false)
      {
        SilentForGood(w, es, s, id);
      }
    }
  }

  /** With no heartbeat from before the split in flight, that is exactly RECV_VOTE. */
  lemma SilentUnlessReceiving(w: World, s: Split, id: NodeId)
    requires Won(w, s) && s.Outside(id) && Fresh(w.nodes[id], s.keys[s.winner])
    requires w.nodes[id].In(RECV_VOTE) ==> w.nodes[id].clock <= w.nodes[id].cutoff
    ensures s.Fits(w) && (StaysSilent(w, s, id) <==> !w.nodes[id].In(RECV_VOTE))
  {
    hide Won, StaysSilent, Fresh, StillVotes;
    SilentUnlessStillVoting(w, s, id);
    OutsiderHoldsFresh(w, s, id);
  }

  /** The other side as a whole: it can vote 1 again if and only if one of its nodes still votes. */
  lemma OtherSideCanVote(w: World, s: Split)
    requires Won(w, s)
    requires forall id | s.Outside(id) && id in w.nodes && w.nodes[id].In(RECV_VOTE) ::
               w.nodes[id].clock <= w.nodes[id].cutoff
    ensures s.Fits(w)
    ensures (exists id :: s.Outside(id) && !StaysSilent(w, s, id))
            <==> (exists id :: s.Outside(id) && StillVotes(w.nodes[id], s.keys[s.winner]))
  {
    hide StaysSilent, StillVotes;
    WonFits(w, s);
    forall id | s.Outside(id)
      ensures StaysSilent(w, s, id) <==> !StillVotes(w.nodes[id], s.keys[s.winner])
    {
      SilentUnlessStillVoting(w, s, id);
    }
  }
}
