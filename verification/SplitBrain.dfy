/**
  A cluster split into fixed components. Once a node of a component with exactly half of the
  nodes is in HAVE_QDISK, every node outside that component stops voting, and only that
  component can stay quorate, whatever commands and replies are lost from then on.
 */
module SplitBrain {
  import opened SharedDisk
  import opened NodeMachine
  import opened NodeRuns
  import opened Cluster

  /** Which component each node is in, each node's key, and the node that has won the disk. */
  datatype Split = Split(part: map<NodeId, nat>, keys: map<NodeId, Key>, winner: NodeId)
  {
    function Component(id: NodeId): set<NodeId>
      requires id in part
    {
      set i | i in part && part[i] == part[id]
    }

    /** The winner's component has exactly half of the nodes. */
    predicate Tied() { winner in part && |Component(winner)| * 2 == |part| }

    predicate Outside(id: NodeId) {
      id in part && winner in part && part[id] != part[winner]
    }

    /** What node `id` can be told while the split lasts: its own component and keys from it. */
    ghost predicate Shows(id: NodeId, v: View)
      requires id in part && keys.Keys == part.Keys
    {
      && v.nodeCount == |part|
      && v.visible == |Component(id)|
      && (v.keys.Some? ==> forall k | k in v.keys.value && k != 0 :: exists i :: i in Component(id) && keys[i] == k)
    }

    ghost predicate Fits(w: World) {
      && part.Keys == keys.Keys == w.nodes.Keys && winner in part
      && (forall i | i in part :: w.nodes[i].key == keys[i])
    }
  }

  /** The split is as it was, and nobody stops the winner. Any command may be lost, and any reply. */
  ghost predicate Allowed(w: World, e: Event, s: Split)
    requires s.Fits(w)
  {
    && e.On? && CanHappen(w, e)
    && (e.what.Beat? ==> s.Shows(e.id, e.what.view))
    && (e.id == s.winner ==>
        !e.what.Stop? && !e.what.Fail? && (e.what.Beat? ==> e.what.c0 <= w.nodes[e.id].cutoff))
  }

  lemma AllowedFacts(w: World, e: Event, s: Split)
    requires s.Fits(w) && Allowed(w, e, s)
    ensures e.On? && CanHappen(w, e)
  {
  }

  // ---------- The winner keeps the disk ----------

  ghost predicate Won(w: World, s: Split) {
    && TruthInv(w) && s.Fits(w) && s.Tied()
    && w.nodes[s.winner].In(HAVE_QDISK)
    && InFlight(w.nodes[s.winner], (v: View) => v.Tie(), (s: Snapshot) => true)
  }

  lemma WonFits(w: World, s: Split)
    requires Won(w, s)
    ensures s.Fits(w) && s.Tied()
  {
  }

  lemma WinnerHasDisk(w: World, s: Split)
    requires Won(w, s)
    ensures w.disk.holder == Some(s.keys[s.winner]) && s.keys[s.winner] != 0
  {
    hide NodeHolds;
    assert NodeHolds(w.nodes[s.winner], w.disk);
    WinnerHolds(w.nodes[s.winner], w.disk);
  }

  lemma WinnerStep(d: Disk, n: Node, what: What)
    requires n.key != 0 && NodeHolds(n, d) && n.In(HAVE_QDISK) && Enabled(n, ActOf(d, n, what))
    requires InFlight(n, (v: View) => v.Tie(), (s: Snapshot) => true)
    requires what.Beat? ==> what.view.Tie() && what.c0 <= n.cutoff
    requires !what.Stop? && !what.Fail?
    ensures var m := Step(n, ActOf(d, n, what));
            m.In(HAVE_QDISK) && InFlight(m, (v: View) => v.Tie(), (s: Snapshot) => true)
  {
  }

  /** An event changes one node at most, and never its key. */
  lemma Unmoved(w: World, e: Event)
    requires CanHappen(w, e) && e.On?
    ensures var w' := Apply(w, e);
            && w'.nodes == w.nodes[e.id := Step(w.nodes[e.id], ActOf(w.disk, w.nodes[e.id], e.what))]
            && (forall i | i in w.nodes :: w'.nodes[i].key == w.nodes[i].key)
  {
    StepKeepsPast(w.nodes[e.id], ActOf(w.disk, w.nodes[e.id], e.what));
  }

  /** While the disk is held by a node in HAVE_QDISK, no lost reply hides who holds it. */
  lemma NodeIsTold(d: Disk, n: Node, what: What)
    requires NodeHolds(n, d) && d.holder.Some? && (d.holder == Some(n.key) ==> n.In(HAVE_QDISK))
    ensures Told(d, n, what)
  {
  }

  lemma WonKeepsTruth(w: World, e: Event, s: Split)
    requires Won(w, s) && Allowed(w, e, s)
    ensures Told(w.disk, w.nodes[e.id], e.what) && KeepsTruth(w, e)
  {
    hide NodeHolds, Told, NodeTruth;
    WinnerHasDisk(w, s);
    assert e.id != s.winner ==> w.nodes[e.id].key != w.nodes[s.winner].key;
    NodeIsTold(w.disk, w.nodes[e.id], e.what);
  }

  lemma WonStep(w: World, e: Event, s: Split)
    requires Won(w, s) && Allowed(w, e, s)
    ensures Won(Apply(w, e), s)
  {
    hide Step, Served, ActOf, NodeHolds, NodeTruth, KeepsTruth;
    WonKeepsTruth(w, e, s);
    TruthStep(w, e);
    Unmoved(w, e);
    if e.id == s.winner {
      WinnerStep(w.disk, w.nodes[e.id], e.what);
    }
  }

  // ---------- Every other component gives up ----------

  lemma {:induction false} SubsetSize<T>(a: set<T>, b: set<T>)
    requires a <= b
    ensures |a| <= |b|
  {
    if a == {} {
    } else {
      var x :| x in a;
      SubsetSize(a - {x}, b - {x});
    }
  }

  lemma OutsideHasAtMostHalf(s: Split, id: NodeId)
    requires s.Tied() && s.Outside(id)
    ensures |s.Component(id)| * 2 <= |s.part|
  {
    var a, b := s.Component(id), s.Component(s.winner);
    assert a !! b && |a + b| == |a| + |b|;
    SubsetSize(a + b, s.part.Keys);
  }

  /** A heartbeat in flight that was begun under the split, after the disk was won by `winner`. */
  ghost predicate Fresh(n: Node, winner: Key) {
    InFlight(n, (v: View) => !v.Majority() && !v.Sees(winner),
             (s: Snapshot) => s.reserved && s.holder == winner)
  }

  ghost predicate Settled(n: Node, winner: Key) {
    && Fresh(n, winner) && !n.LastVote()
    && (n.state == START || n.state == IDLE || n.state == RESIGNED)
  }

  /** How many more completed heartbeats past its deadline a node may need until it is settled. */
  ghost function BeatsNeeded(n: Node, winner: Key): (r: nat)
    ensures r <= 3
  {
    if !Fresh(n, winner) then 3
    else if Settled(n, winner) then 0
    else if n.state == RECV_VOTE then 2
    else 1
  }

  function Less(a: nat, b: nat): nat { if a > b then a - b else 0 }

  /** The event completes a heartbeat of node `n`, whose switch found the deadline passed. */
  predicate LateBeat(d: Disk, n: Node, what: What)
    requires Enabled(n, ActOf(d, n, what))
  {
    what.Serve? && Completes(n, ActOf(d, n, what)) && what.c1 > n.deadline
  }

  lemma OutsiderSwitch(d: Disk, n: Node, what: What, winner: Key)
    requires n.key != 0 && NodeHolds(n, d) && NodeTruth(n, d) && Enabled(n, ActOf(d, n, what))
    requires d.holder == Some(winner) && winner != n.key && winner != 0
    requires Told(d, n, what)
    requires what.Beat? ==> !what.view.Majority() && !what.view.Sees(winner)
    requires what.Serve? && n.phase.AskKeys?
    ensures var m := Step(n, ActOf(d, n, what));
            && BeatsNeeded(m, winner) <= Less(BeatsNeeded(n, winner), if LateBeat(d, n, what) then 1 else 0)
            && (Settled(n, winner) ==> Settled(m, winner) && OnlyPolls(n, m, false))
  {
  }

  lemma OutsiderElsewhere(d: Disk, n: Node, what: What, winner: Key)
    requires n.key != 0 && NodeHolds(n, d) && NodeTruth(n, d) && Enabled(n, ActOf(d, n, what))
    requires d.holder == Some(winner) && winner != n.key && winner != 0
    requires Told(d, n, what)
    requires what.Beat? ==> !what.view.Majority() && !what.view.Sees(winner)
    requires what.Serve? && n.Serving() && !n.phase.AskKeys?
    ensures var m := Step(n, ActOf(d, n, what));
            && BeatsNeeded(m, winner) <= Less(BeatsNeeded(n, winner), if LateBeat(d, n, what) then 1 else 0)
            && (Settled(n, winner) ==> Settled(m, winner) && OnlyPolls(n, m, false))
  {
    hide Switch;
  }

  lemma OutsiderOffline(d: Disk, n: Node, what: What, winner: Key)
    requires Enabled(n, ActOf(d, n, what)) && what.Serve? && !n.Serving()
    ensures var m := Step(n, ActOf(d, n, what));
            && m.beats == n.beats && BeatsNeeded(m, winner) <= BeatsNeeded(n, winner)
            && (Settled(n, winner) ==> Settled(m, winner) && OnlyPolls(n, m, false))
  {
    hide Receive, Served;
    OfflineReply(n, Served(d, n, what).1, what.c1, what.c2);
  }

  lemma OutsiderUnserved(d: Disk, n: Node, what: What, winner: Key)
    requires Enabled(n, ActOf(d, n, what)) && !what.Serve?
    requires what.Beat? ==> !what.view.Majority() && !what.view.Sees(winner)
    ensures var m := Step(n, ActOf(d, n, what));
            && BeatsNeeded(m, winner) <= BeatsNeeded(n, winner)
            && (Settled(n, winner) ==> Settled(m, winner) && OnlyPolls(n, m, false))
  {
    hide Receive;
  }

  lemma OutsiderStep(d: Disk, n: Node, what: What, winner: Key)
    requires n.key != 0 && NodeHolds(n, d) && NodeTruth(n, d) && Enabled(n, ActOf(d, n, what))
    requires d.holder == Some(winner) && winner != n.key && winner != 0
    requires Told(d, n, what)
    requires what.Beat? ==> !what.view.Majority() && !what.view.Sees(winner)
    ensures var m := Step(n, ActOf(d, n, what));
            && BeatsNeeded(m, winner) <= Less(BeatsNeeded(n, winner), if LateBeat(d, n, what) then 1 else 0)
            && (Settled(n, winner) ==> Settled(m, winner) && OnlyPolls(n, m, false))
  {
    hide Step, Served, ActOf, NodeHolds, NodeTruth, BeatsNeeded, Settled;
    if what.Serve? && n.phase.AskKeys? {
      OutsiderSwitch(d, n, what, winner);
    } else if !what.Serve? {
      OutsiderUnserved(d, n, what, winner);
    } else if !n.Serving() {
      OutsiderOffline(d, n, what, winner);
    } else {
      OutsiderElsewhere(d, n, what, winner);
    }
  }

  ghost predicate Under(w: World, es: seq<Event>, s: Split)
    decreases |es|
  {
    s.Fits(w) &&
    (es == [] || (Allowed(w, es[0], s) && Under(Apply(w, es[0]), es[1..], s)))
  }

  /** The late completed heartbeats of node `id` in a run. */
  ghost function LateBeats(w: World, es: seq<Event>, id: NodeId): nat
    requires IsHistory(w, es)
    decreases |es|
  {
    if es == [] then 0
    else
      (if es[0].On? && es[0].id == id && LateBeat(w.disk, w.nodes[id], es[0].what) then 1 else 0)
      + LateBeats(Apply(w, es[0]), es[1..], id)
  }

  lemma OutsiderUnderEvent(w: World, e: Event, s: Split, id: NodeId)
    requires Won(w, s) && Allowed(w, e, s) && s.Outside(id)
    ensures var n, m, k := w.nodes[id], Apply(w, e).nodes[id], s.keys[s.winner];
            && BeatsNeeded(m, k)
               <= Less(BeatsNeeded(n, k), if e.id == id && LateBeat(w.disk, n, e.what) then 1 else 0)
            && (Settled(n, k) ==> Settled(m, k) && OnlyPolls(n, m, false))
  {
    hide Step, Served, ActOf, NodeHolds;
    if e.id == id {
      OutsideHasAtMostHalf(s, id);
      WinnerHasDisk(w, s);
      WonKeepsTruth(w, e, s);
      OutsiderStep(w.disk, w.nodes[id], e.what, s.keys[s.winner]);
    }
  }

  lemma {:induction false} OutsiderUnder(w: World, es: seq<Event>, s: Split, id: NodeId)
    requires Won(w, s) && Under(w, es, s) && s.Outside(id) && IsHistory(w, es)
    ensures var n, w', k := w.nodes[id], Exec(w, es), s.keys[s.winner];
            && Won(w', s)
            && BeatsNeeded(w'.nodes[id], k) <= Less(BeatsNeeded(n, k), LateBeats(w, es, id))
            && (Settled(n, k) ==> Settled(w'.nodes[id], k) && OnlyPolls(n, w'.nodes[id], false))
    decreases |es|
  {
    hide Allowed, Apply, Won, BeatsNeeded, Settled, LateBeat;
    if es == [] {
    } else {
      WonStep(w, es[0], s);
      OutsiderUnderEvent(w, es[0], s, id);
      OutsiderUnder(Apply(w, es[0]), es[1..], s, id);
    }
  }

  lemma DeadlineStays(d: Disk, n: Node, what: What, winner: Key)
    requires n.key != 0 && NodeHolds(n, d) && NodeTruth(n, d) && Enabled(n, ActOf(d, n, what))
    requires d.holder == Some(winner) && winner != n.key && winner != 0
    requires Told(d, n, what)
    requires what.Beat? ==> !what.view.Majority() && !what.view.Sees(winner)
    requires Fresh(n, winner)
    ensures var m := Step(n, ActOf(d, n, what));
            && m.deadline <= n.deadline
            && (n.deadline < n.clock ==>
                m.beats - n.beats == if LateBeat(d, n, what) then 1 else 0)
  {
  }

  lemma DeadlineStaysUnderEvent(w: World, e: Event, s: Split, id: NodeId)
    requires Won(w, s) && Allowed(w, e, s) && s.Outside(id)
    requires Fresh(w.nodes[id], s.keys[s.winner]) && w.nodes[id].deadline < w.nodes[id].clock
    ensures var n, m := w.nodes[id], Apply(w, e).nodes[id];
            && Fresh(m, s.keys[s.winner]) && m.deadline < m.clock
            && m.beats - n.beats == if e.id == id && LateBeat(w.disk, n, e.what) then 1 else 0
  {
    hide Step, Served, ActOf, NodeHolds, NodeTruth, Fresh, LateBeat, Settled;
    OutsiderUnderEvent(w, e, s, id);
    if e.id == id {
      OutsideHasAtMostHalf(s, id);
      WinnerHasDisk(w, s);
      WonKeepsTruth(w, e, s);
      DeadlineStays(w.disk, w.nodes[id], e.what, s.keys[s.winner]);
      StepKeepsPast(w.nodes[id], ActOf(w.disk, w.nodes[id], e.what));
    }
  }

  /**
    The deadline of an outside node does not move any more, so every heartbeat that it completes
    after that time counts.
   */
  lemma {:induction false} BeatsPastDeadlineAreLate(w: World, es: seq<Event>, s: Split, id: NodeId)
    requires Won(w, s) && Under(w, es, s) && s.Outside(id) && IsHistory(w, es)
    requires Fresh(w.nodes[id], s.keys[s.winner]) && w.nodes[id].deadline < w.nodes[id].clock
    ensures s.Fits(Exec(w, es)) && LateBeats(w, es, id) == Exec(w, es).nodes[id].beats - w.nodes[id].beats
    decreases |es|
  {
    hide Won, Apply, Fresh, LateBeat, Allowed;
    WonFits(w, s);
    if es == [] {
    } else {
      AllowedFacts(w, es[0], s);
      DeadlineStaysUnderEvent(w, es[0], s, id);
      WonStep(w, es[0], s);
      BeatsPastDeadlineAreLate(Apply(w, es[0]), es[1..], s, id);
    }
  }

  /** Visible votes and the node's own last poll reach the quorum of N + 1 expected votes. */
  ghost predicate Quorate(w: World, s: Split, id: NodeId)
    requires s.Fits(w) && id in s.part
  {
    |s.Component(id)| + (if w.nodes[id].LastVote() then 1 else 0) >= |s.part| / 2 + 1
  }

  lemma {:induction false} WonUnder(w: World, es: seq<Event>, s: Split)
    requires Won(w, s) && Under(w, es, s) && IsHistory(w, es)
    ensures Won(Exec(w, es), s)
    decreases |es|
  {
    hide Allowed, Apply, Won;
    if es == [] {
    } else {
      WonStep(w, es[0], s);
      WonUnder(Apply(w, es[0]), es[1..], s);
    }
  }

  /** One node outside the winner's component, over the two parts of the run. */
  lemma OutsiderGivesUp(w: World, es: seq<Event>, more: seq<Event>, s: Split, id: NodeId)
    requires Won(w, s) && s.Outside(id)
    requires Under(w, es, s) && IsHistory(w, es)
    requires LateBeats(w, es, id) >= BeatsNeeded(w.nodes[id], s.keys[s.winner])
    requires Under(Exec(w, es), more, s) && IsHistory(Exec(w, es), more)
    ensures var w1 := Exec(w, es); var w2 := Exec(w1, more);
            && s.Fits(w1) && s.Fits(w2)
            && !w1.nodes[id].LastVote() && OnlyPolls(w1.nodes[id], w2.nodes[id], false)
            && !Quorate(w2, s, id)
  {
    hide Step, Served, ActOf, NodeHolds, NodeTruth, Apply, Allowed, Under, LateBeats, Inv;
    OutsiderUnder(w, es, s, id);
    OutsiderUnder(Exec(w, es), more, s, id);
    OutsideHasAtMostHalf(s, id);
  }

  /** The split lasts, and every node outside the winner's component completes the late heartbeats it needs. */
  ghost predicate EnoughLateBeats(w: World, es: seq<Event>, s: Split) {
    && Under(w, es, s) && IsHistory(w, es) && s.Fits(w)
    && forall id | s.Outside(id) :: LateBeats(w, es, id) >= BeatsNeeded(w.nodes[id], s.keys[s.winner])
  }

  /** From `w1` to `w2` nobody outside the winner's component votes 1 or is quorate at the end. */
  ghost predicate OnlyWinnersVote(w1: World, w2: World, s: Split)
    requires s.Fits(w1) && s.Fits(w2)
  {
    && w2.disk.holder == Some(s.keys[s.winner])
    && (forall id | s.Outside(id) :: !w1.nodes[id].LastVote() && OnlyPolls(w1.nodes[id], w2.nodes[id], false))
    && (forall id | id in s.part && Quorate(w2, s, id) :: !s.Outside(id))
  }

  /**
    No lasting split brain. `before` is any history in which the nodes are right about who holds
    the disk, and it leads to a state where the winner rests in HAVE_QDISK. During `es` the split
    lasts and every node outside the winner's component completes the heartbeats past its
    deadline that it needs, which are three at most. From then on, for all of `more`, none of
    them votes 1, and every quorate node is in the winner's component.
   */
  lemma NoLastingSplitBrain(w0: World, before: seq<Event>, es: seq<Event>, more: seq<Event>, s: Split)
    requires Initial(w0) && IsHistory(w0, before) && AllKeepTruth(w0, before)
    requires var w := Exec(w0, before);
             && s.Fits(w) && s.Tied()
             && w.nodes[s.winner].phase.Rest? && w.nodes[s.winner].state == HAVE_QDISK
             && EnoughLateBeats(w, es, s)
             && Under(Exec(w, es), more, s) && IsHistory(Exec(w, es), more)
    ensures var w1 := Exec(Exec(w0, before), es); var w2 := Exec(w1, more);
            s.Fits(w1) && s.Fits(w2) && OnlyWinnersVote(w1, w2, s)
  {
    hide Step, Served, ActOf, NodeHolds, NodeTruth, Apply, Allowed, Under, LateBeats, Quorate;
    TruthfulHistory(w0, before);
    var w := Exec(w0, before);
    var w1 := Exec(w, es);
    var w2 := Exec(w1, more);
    WonUnder(w, es, s);
    WonUnder(w1, more, s);
    WinnerHolds(w2.nodes[s.winner], w2.disk);
    forall id | s.Outside(id)
      ensures !w1.nodes[id].LastVote() && OnlyPolls(w1.nodes[id], w2.nodes[id], false) && !Quorate(w2, s, id)
    {
      OutsiderGivesUp(w, es, more, s, id);
    }
  }

  // ---------- The winner's component keeps its votes ----------

  /** An event of the split in which a node on the winner's side stays in service and knows the winner's key. */
  ghost predicate Steady(w: World, e: Event, s: Split)
    requires s.Fits(w)
  {
    && Allowed(w, e, s)
    && (!s.Outside(e.id) ==>
        && StaysInService(w.nodes[e.id], ActOf(w.disk, w.nodes[e.id], e.what))
        && (e.what.Beat? && e.what.view.keys.Some? ==> e.what.view.Sees(s.keys[s.winner])))
  }

  ghost predicate SteadyUnder(w: World, es: seq<Event>, s: Split)
    decreases |es|
  {
    s.Fits(w) &&
    (es == [] || (Steady(w, es[0], s) && SteadyUnder(Apply(w, es[0]), es[1..], s)))
  }

  /** The winner itself, or a node of its component that sees the tie and the holder. */
  ghost predicate Voter(n: Node, winner: Key) {
    if n.key == winner then n.In(HAVE_QDISK) && InFlight(n, (v: View) => v.Tie(), (s: Snapshot) => true)
    else Winning(n) && InFlight(n, (v: View) => v.keys.Some? ==> v.Sees(winner), (s: Snapshot) => true)
  }

  lemma VoterStep(d: Disk, n: Node, what: What, winner: Key)
    requires Voter(n, winner) && d.holder == Some(winner) && winner != 0 && NodeHolds(n, d)
    requires Enabled(n, ActOf(d, n, what)) && StaysInService(n, ActOf(d, n, what))
    requires Told(d, n, what)
    requires what.Beat? ==> what.view.Tie() && (what.view.keys.Some? ==> what.view.Sees(winner))
    ensures var m := Step(n, ActOf(d, n, what)); Voter(m, winner) && PollsOneEachBeat(n, m)
  {
  }

  lemma VoterUnderEvent(w: World, e: Event, s: Split, id: NodeId)
    requires Won(w, s) && Steady(w, e, s) && id in s.part && !s.Outside(id)
    requires Voter(w.nodes[id], s.keys[s.winner])
    ensures Voter(Apply(w, e).nodes[id], s.keys[s.winner])
    ensures PollsOneEachBeat(w.nodes[id], Apply(w, e).nodes[id])
  {
    hide Step, Served, ActOf, NodeHolds, Voter;
    if e.id == id {
      WinnerHasDisk(w, s);
      WonKeepsTruth(w, e, s);
      assert s.Component(id) == s.Component(s.winner);
      VoterStep(w.disk, w.nodes[id], e.what, s.keys[s.winner]);
    }
  }

  lemma {:induction false} VoterUnder(w: World, es: seq<Event>, s: Split, id: NodeId)
    requires Won(w, s) && SteadyUnder(w, es, s) && id in s.part && !s.Outside(id) && IsHistory(w, es)
    requires Voter(w.nodes[id], s.keys[s.winner])
    ensures var w' := Exec(w, es);
            s.Fits(w') && Voter(w'.nodes[id], s.keys[s.winner]) && PollsOneEachBeat(w.nodes[id], w'.nodes[id])
    decreases |es|
  {
    hide Allowed, Apply, Won, Voter;
    if es == [] {
    } else {
      WonStep(w, es[0], s);
      VoterUnderEvent(w, es[0], s, id);
      VoterUnder(Apply(w, es[0]), es[1..], s, id);
    }
  }

  /**
    The winning half stays quorate. While the split lasts, the winner and every node of its
    component that has come to IDLE, RESERVE_DISK or RECV_VOTE vote 1 at each completed
    heartbeat, so each is quorate from its first one on.
   */
  lemma WinningHalfStaysQuorate(w: World, es: seq<Event>, s: Split, id: NodeId)
    requires Won(w, s) && SteadyUnder(w, es, s) && IsHistory(w, es) && id in s.part && !s.Outside(id)
    requires var n := w.nodes[id];
             id == s.winner ||
             (n.phase.Rest? && (n.state == IDLE || n.state == RESERVE_DISK || n.state == RECV_VOTE))
    ensures var w' := Exec(w, es);
            && s.Fits(w')
            && PollsOneEachBeat(w.nodes[id], w'.nodes[id])
            && (w'.nodes[id].beats > w.nodes[id].beats ==> Quorate(w', s, id))
  {
    hide NodeHolds, NodeTruth, SteadyUnder, IsHistory, Exec;
    VoterUnder(w, es, s, id);
    assert s.Component(id) == s.Component(s.winner);
  }
}
