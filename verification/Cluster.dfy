/**
  N daemons and one disk. Each event is one command of one node, so every interleaving of
  commands, with any faults and with crashes, shutdowns and restarts in between, is a run.
 */
module Cluster {
  import opened SharedDisk
  import opened NodeMachine

  datatype World = World(disk: Disk, nodes: map<NodeId, Node>)

  datatype What =
    | Beat(c0: nat, view: View)
    | Serve(fault: Fault, c1: nat, c2: nat)
    | Start(nodeKeys: Option<seq<Key>>)
    | Stop
    | Fail

  /** What a node does, or what an operator does with the command-line tool, key by key. */
  datatype Event =
    | On(id: NodeId, what: What)
    | Operator(command: Command, key: Key)
    | OperatorPreempt(key: Key, victim: Key)

  /** The disk serves the pending command of `n`, or leaves the disk alone if there is none. */
  function Served(d: Disk, n: Node, what: What): (Disk, Reply) {
    if what.Serve? && n.Waiting() then Perform(d, Pending(n.phase), n.key, what.fault) else (d, Failed)
  }

  /** What the event means for the node alone. */
  function ActOf(d: Disk, n: Node, what: What): Act {
    match what
    case Beat(c0, view) => Tick(c0, view)
    case Serve(_, c1, c2) => Got(Served(d, n, what).1, c1, c2)
    case Start(nodeKeys) => Boot(nodeKeys)
    case Stop => Shutdown
    case Fail => Crash
  }

  predicate CanHappen(w: World, e: Event) {
    e.On? ==> e.id in w.nodes && Enabled(w.nodes[e.id], ActOf(w.disk, w.nodes[e.id], e.what))
  }

  function Apply(w: World, e: Event): World
    requires CanHappen(w, e)
  {
    match e
    case On(id, what) =>
      var n := w.nodes[id];
      World(Served(w.disk, n, what).0, w.nodes[id := Step(n, ActOf(w.disk, n, what))])
    case Operator(command, key) => w.(disk := Effect(w.disk, command, key))
    case OperatorPreempt(key, victim) => w.(disk := Preempted(w.disk, key, victim))
  }

  predicate IsHistory(w: World, es: seq<Event>)
    decreases |es|
  {
    es == [] || (CanHappen(w, es[0]) && IsHistory(Apply(w, es[0]), es[1..]))
  }

  function Exec(w: World, es: seq<Event>): World
    requires IsHistory(w, es)
    decreases |es|
  {
    if es == [] then w else Exec(Apply(w, es[0]), es[1..])
  }

  /** What happens to node `id` in a history, seen from the node. */
  ghost function ActsIn(w: World, es: seq<Event>, id: NodeId): seq<Act>
    requires IsHistory(w, es) && id in w.nodes
    decreases |es|
  {
    if es == [] then []
    else
      (if es[0].On? && es[0].id == id then [ActOf(w.disk, w.nodes[id], es[0].what)] else [])
      + ActsIn(Apply(w, es[0]), es[1..], id)
  }

  /** Each node of a history goes through a run of its own, so what holds of all runs holds of it. */
  lemma {:induction false} HistoryIsRun(w: World, es: seq<Event>, id: NodeId)
    requires IsHistory(w, es) && id in w.nodes
    ensures id in Exec(w, es).nodes
    ensures IsRun(w.nodes[id], ActsIn(w, es, id))
    ensures Run(w.nodes[id], ActsIn(w, es, id)) == Exec(w, es).nodes[id]
    decreases |es|
  {
    hide ActOf, Step, Served;
    if es == [] {
    } else {
      var w1 := Apply(w, es[0]);
      var later := ActsIn(w1, es[1..], id);
      HistoryIsRun(w1, es[1..], id);
      if es[0].On? && es[0].id == id {
        var a := ActOf(w.disk, w.nodes[id], es[0].what);
        assert ([a] + later)[1..] == later;
      } else {
        assert [] + later == later;
      }
    }
  }

  predicate NoOperator(es: seq<Event>) { forall e | e in es :: e.On? }

  lemma ExecNext(w: World, e: Event, es: seq<Event>)
    requires CanHappen(w, e) && IsHistory(Apply(w, e), es)
    ensures IsHistory(w, [e] + es) && Exec(w, [e] + es) == Exec(Apply(w, e), es)
  {
    assert ([e] + es)[1..] == es;
  }

  lemma {:induction false} ExecConcat(w: World, es: seq<Event>, fs: seq<Event>)
    requires IsHistory(w, es) && IsHistory(Exec(w, es), fs)
    ensures IsHistory(w, es + fs) && Exec(w, es + fs) == Exec(Exec(w, es), fs)
    decreases |es|
  {
    hide Apply, CanHappen;
    if es == [] {
      assert es + fs == fs;
    } else {
      assert (es + fs)[1..] == es[1..] + fs;
      ExecConcat(Apply(w, es[0]), es[1..], fs);
    }
  }

  lemma {:induction false} NodesStay(w: World, es: seq<Event>)
    requires IsHistory(w, es)
    ensures Exec(w, es).nodes.Keys == w.nodes.Keys
    decreases |es|
  {
    if es == [] {
    } else {
      NodesStay(Apply(w, es[0]), es[1..]);
    }
  }

  // ---------- Invariants ----------

  ghost predicate DistinctKeys(nodes: map<NodeId, Node>) {
    && (forall i | i in nodes :: nodes[i].key != 0)
    && (forall i, j | i in nodes && j in nodes && i != j :: nodes[i].key != nodes[j].key)
  }

  /** A cluster before any daemon has been started. Earlier runs and other programs may have left keys on the disk. */
  ghost predicate Initial(w: World) {
    && DistinctKeys(w.nodes)
    && (forall i | i in w.nodes :: w.nodes[i].phase == Down(NotStarted) && w.nodes[i].state == START)
    && w.disk.holder != Some(0)
  }

  /** Exits that no node takes unless an operator command removes its registration or its reservation. */
  predicate Unexpected(why: Reason) {
    why == KeyZero || why == KeyGone || why == LostReservation
  }

  /** What a snapshot in flight still guarantees, whatever the other nodes have done since. */
  predicate SnapshotHolds(n: Node, s: Snapshot) {
    && (s.reserved <==> s.holder != 0)
    && (n.state == HAVE_QDISK ==> s.holder == n.key)
  }

  predicate PhaseHolds(n: Node, d: Disk) {
    match n.phase
    case AskKeys(s) => SnapshotHolds(n, s)
    case DoReserve(s) => n.state == RESERVE_DISK && SnapshotHolds(n, s)
    case DoRelease => n.state == RELEASE_QDISK
    case Recheck => n.state == RELEASE_QDISK
    case StrayRelease => n.state != HAVE_QDISK && n.state != RELEASE_QDISK && n.state != RESERVE_DISK
    case StopRelease(why) => !Unexpected(why)
    case StopUnregister(why) => !Unexpected(why)
    case Down(why) => !Unexpected(why) && n.state == START
    case Rest => true
    case AskReserved(_) => true
    case AskOwner(_) => true
    case BootShare => n.state == START && n.key in d.registered
    case _ => n.state == START
  }

  predicate NodeHolds(n: Node, d: Disk) {
    && PhaseHolds(n, d)
    && (n.Serving() ==> n.key in d.registered)
    && (n.In(HAVE_QDISK) ==> d.holder == Some(n.key))
  }

  ghost predicate Inv(w: World) {
    && DistinctKeys(w.nodes)
    && (forall i | i in w.nodes :: NodeHolds(w.nodes[i], w.disk))
    && w.disk.holder != Some(0)
  }

  /** The reply to a command in flight, in the three parts of a daemon's life. */
  lemma OwnSwitch(d: Disk, n: Node, what: What)
    requires n.key != 0 && NodeHolds(n, d) && Enabled(n, ActOf(d, n, what)) && what.Serve? && n.phase.AskKeys?
    ensures NodeHolds(Step(n, ActOf(d, n, what)), Served(d, n, what).0)
  {
  }

  lemma OwnServing(d: Disk, n: Node, what: What)
    requires n.key != 0 && NodeHolds(n, d) && Enabled(n, ActOf(d, n, what)) && d.holder != Some(0)
    requires what.Serve? && n.Serving() && !n.phase.AskKeys?
    ensures NodeHolds(Step(n, ActOf(d, n, what)), Served(d, n, what).0)
  {
    hide Switch;
  }

  lemma OwnOffline(d: Disk, n: Node, what: What)
    requires n.key != 0 && NodeHolds(n, d) && Enabled(n, ActOf(d, n, what)) && d.holder != Some(0)
    requires what.Serve? && !n.Serving()
    ensures NodeHolds(Step(n, ActOf(d, n, what)), Served(d, n, what).0)
  {
    hide Switch, AfterReserve, Finish;
  }

  lemma OwnOther(d: Disk, n: Node, what: What)
    requires NodeHolds(n, d) && Enabled(n, ActOf(d, n, what)) && !what.Serve?
    ensures NodeHolds(Step(n, ActOf(d, n, what)), Served(d, n, what).0)
  {
    hide Receive;
  }

  lemma OwnStep(d: Disk, n: Node, what: What)
    requires n.key != 0 && NodeHolds(n, d) && Enabled(n, ActOf(d, n, what)) && d.holder != Some(0)
    ensures NodeHolds(Step(n, ActOf(d, n, what)), Served(d, n, what).0)
  {
    hide Step, Served, ActOf, NodeHolds;
    if !what.Serve? {
      OwnOther(d, n, what);
    } else if n.phase.AskKeys? {
      OwnSwitch(d, n, what);
    } else if n.Serving() {
      OwnServing(d, n, what);
    } else {
      OwnOffline(d, n, what);
    }
  }

  lemma OtherStep(d: Disk, n: Node, what: What, m: Node)
    requires NodeHolds(m, d) && m.key != n.key
    ensures NodeHolds(m, Served(d, n, what).0)
  {
  }

  lemma ServedHolder(d: Disk, n: Node, what: What)
    ensures var h := Served(d, n, what).0.holder; h == None || h == d.holder || h == Some(n.key)
  {
  }

  lemma NodeKeepsInv(w: World, e: Event)
    requires Inv(w) && CanHappen(w, e) && e.On?
    ensures Inv(Apply(w, e))
  {
    hide Step, Served, ActOf, NodeHolds;
    var n, w' := w.nodes[e.id], Apply(w, e);
    OwnStep(w.disk, n, e.what);
    StepKeepsPast(n, ActOf(w.disk, n, e.what));
    ServedHolder(w.disk, n, e.what);
    forall i | i in w'.nodes && i != e.id
      ensures NodeHolds(w'.nodes[i], w'.disk)
    {
      OtherStep(w.disk, n, e.what, w.nodes[i]);
    }
    assert forall i | i in w'.nodes :: w'.nodes[i].key == w.nodes[i].key;
  }

  /** At most one node is in HAVE_QDISK, and it holds the disk. */
  ghost predicate Exclusive(w: World) {
    && (forall i | i in w.nodes && w.nodes[i].In(HAVE_QDISK) :: w.disk.holder == Some(w.nodes[i].key))
    && (forall i, j | i in w.nodes && j in w.nodes && w.nodes[i].In(HAVE_QDISK) && w.nodes[j].In(HAVE_QDISK) :: i == j)
  }

  /** No node has stopped over a lost reservation, a lost registration or a holder of key 0. */
  ghost predicate NoUnexpectedExit(w: World) {
    forall i | i in w.nodes && w.nodes[i].phase.Down? :: !Unexpected(w.nodes[i].phase.why)
  }

  lemma InvAtStart(w: World)
    requires Initial(w)
    ensures Inv(w)
  {
  }

  lemma InvExcludes(w: World)
    requires Inv(w)
    ensures Exclusive(w) && NoUnexpectedExit(w)
  {
    forall i | i in w.nodes
      ensures w.nodes[i].In(HAVE_QDISK) ==> w.disk.holder == Some(w.nodes[i].key)
    {
      assert NodeHolds(w.nodes[i], w.disk);
    }
  }

  // ---------- What an operator may do ----------

  /** Node `n` relies on its registration. */
  predicate Relies(n: Node) { n.Serving() || n.phase.BootShare? }

  ghost predicate NobodyRelies(w: World, k: Key) {
    forall i | i in w.nodes && w.nodes[i].key == k :: !Relies(w.nodes[i])
  }

  /**
    What a maintainer can look up before a command: nobody in service loses its registration,
    and the reservation is not released under a node in HAVE_QDISK.
   */
  ghost predicate Harmless(w: World, e: Event) {
    match e
    case On(_, _) => true
    case Operator(Release, k) =>
      w.disk.holder == Some(k) ==> forall i | i in w.nodes && w.nodes[i].key == k :: !w.nodes[i].In(HAVE_QDISK)
    case Operator(Unregister, k) => NobodyRelies(w, k)
    case Operator(_, _) => true
    case OperatorPreempt(k, victim) =>
      MayPreempt(w.disk, k, victim) && !(w.disk.holder == Some(k) == Some(victim)) ==> NobodyRelies(w, victim)
  }

  lemma OperatorKeepsInv(w: World, e: Event)
    requires Inv(w) && !e.On?
    ensures Inv(Apply(w, e)) <==> Harmless(w, e)
  {
    var w' := Apply(w, e);
    if Harmless(w, e) {
      forall i | i in w'.nodes
        ensures NodeHolds(w'.nodes[i], w'.disk)
      {
        assert NodeHolds(w.nodes[i], w.disk);
      }
    } else {
      var i :| i in w.nodes && !NodeHolds(w'.nodes[i], w'.disk);
    }
  }

  ghost predicate AllHarmless(w: World, es: seq<Event>)
    requires IsHistory(w, es)
    decreases |es|
  {
    es == [] || (Harmless(w, es[0]) && AllHarmless(Apply(w, es[0]), es[1..]))
  }

  lemma InvStep(w: World, e: Event)
    requires Inv(w) && CanHappen(w, e) && Harmless(w, e)
    ensures Inv(Apply(w, e))
  {
    if e.On? {
      NodeKeepsInv(w, e);
    } else {
      OperatorKeepsInv(w, e);
    }
  }

  lemma {:induction false} InvExec(w: World, es: seq<Event>)
    requires Inv(w) && IsHistory(w, es) && AllHarmless(w, es)
    ensures Inv(Exec(w, es))
    decreases |es|
  {
    hide Inv, Harmless;
    if es == [] {
    } else {
      InvStep(w, es[0]);
      InvExec(Apply(w, es[0]), es[1..]);
    }
  }

  /** A history without operators is harmless. */
  lemma {:induction false} NodesAreHarmless(w: World, es: seq<Event>)
    requires IsHistory(w, es) && NoOperator(es)
    ensures AllHarmless(w, es)
    decreases |es|
  {
    if es == [] {
    } else {
      assert es[0] in es;
      NodesAreHarmless(Apply(w, es[0]), es[1..]);
    }
  }

  /**
    Mutual exclusion: in every run, under any interleaving, any fault on any command, any
    crashes, shutdowns and restarts, and any operator commands that are harmless when they happen.
   */
  lemma MutualExclusion(w: World, es: seq<Event>)
    requires Initial(w) && IsHistory(w, es) && AllHarmless(w, es)
    ensures Exclusive(Exec(w, es)) && NoUnexpectedExit(Exec(w, es))
  {
    hide *;
    InvAtStart(w);
    InvExec(w, es);
    InvExcludes(Exec(w, es));
  }

  // ---------- What a harmful operator command leads to ----------

  /**
    The key of `n` has been removed from the disk, which does not hold it, and `n` has not got
    beyond finding that out.
   */
  predicate Doomed(n: Node, d: Disk) {
    && n.key !in d.registered && d.holder != Some(n.key) && d.holder != Some(0)
    && n.clock <= n.cutoff
    && match n.phase
       case StopRelease(why) => why == KeyGone
       case StopUnregister(why) => why == KeyGone
       case Down(why) => why == KeyGone
       case _ => Relies(n)
  }

  function StepsToEnd(p: Phase, d: Disk): nat {
    match p
    case Down(_) => 0
    case StopUnregister(_) => 1
    case StopRelease(_) => 2
    case AskKeys(_) => 3
    case AskOwner(v) => if v.keys.Some? && d.holder.Some? then 4 else 7
    case AskReserved(v) => if v.keys.Some? then 5 else 8
    case Rest => 6
    case DoRelease => 8
    case _ => 7
  }

  /** The next event in the life of a doomed node, if nothing goes wrong. */
  function NextOf(n: Node, view: View): What {
    if n.phase.Rest? then Beat(n.clock, view) else Serve(NoFault, n.clock, n.clock)
  }

  lemma DoomedStep(d: Disk, n: Node, view: View)
    requires Doomed(n, d) && !n.phase.Down? && view.keys.Some?
    ensures var what := NextOf(n, view);
            && Enabled(n, ActOf(d, n, what))
            && StepsToEnd(Step(n, ActOf(d, n, what)).phase, Served(d, n, what).0) < StepsToEnd(n.phase, d)
    ensures var what := NextOf(n, view); var m := Step(n, ActOf(d, n, what));
            if m.phase.Down? then m.phase.why == KeyGone else Doomed(m, Served(d, n, what).0)
  {
  }

  /** A doomed node ends because its key is gone. */
  lemma {:induction false} DoomedEnds(w: World, id: NodeId, view: View) returns (es: seq<Event>)
    requires id in w.nodes && Doomed(w.nodes[id], w.disk) && view.keys.Some? && !w.nodes[id].phase.Down?
    ensures IsHistory(w, es) && NoOperator(es)
    ensures id in Exec(w, es).nodes && Exec(w, es).nodes[id].phase == Down(KeyGone)
    decreases StepsToEnd(w.nodes[id].phase, w.disk)
  {
    hide Step, Served, ActOf, Doomed, Enabled, StepsToEnd, NextOf;
    var e := On(id, NextOf(w.nodes[id], view));
    DoomedStep(w.disk, w.nodes[id], view);
    var w1 := Apply(w, e);
    var later := [];
    if !w1.nodes[id].phase.Down? {
      later := DoomedEnds(w1, id, view);
    }
    ExecNext(w, e, later);
    es := [e] + later;
  }

  /** No node in service has passed its cutoff. */
  ghost predicate OnTime(w: World) {
    forall i | i in w.nodes && Relies(w.nodes[i]) :: w.nodes[i].clock <= w.nodes[i].cutoff
  }

  lemma NothingHappens(w: World)
    ensures IsHistory(w, []) && Exec(w, []) == w
  {
  }

  /** A harmful command breaks exclusion at once, or its victim ends because its key is gone. */
  lemma HarmShows(w: World, e: Event) returns (es: seq<Event>)
    requires Inv(w) && OnTime(w) && !Harmless(w, e)
    ensures IsHistory(Apply(w, e), es) && NoOperator(es)
    ensures !(Exclusive(Exec(Apply(w, e), es)) && NoUnexpectedExit(Exec(Apply(w, e), es)))
  {
    hide Exec, Step;
    var w' := Apply(w, e);
    if e.Operator? && e.command == Release {
      es := [];
      var i :| i in w.nodes && w.nodes[i].key == e.key && w.nodes[i].In(HAVE_QDISK);
      assert Exec(w', es) == w' by {
        hide *;
        NothingHappens(w');
      }
      assert w'.nodes[i].In(HAVE_QDISK) && w'.disk.holder == None;
    } else {
      var victim := if e.Operator? then e.key else e.victim;
      var i :| i in w.nodes && w.nodes[i].key == victim && Relies(w.nodes[i]);
      assert Doomed(w'.nodes[i], w'.disk);
      es := DoomedEnds(w', i, View(true, 1, 1, Some([])));
      assert Exec(w', es).nodes[i].phase.why == KeyGone;
    }
  }

  ghost predicate SafeFrom(w: World) {
    forall es | IsHistory(w, es) && NoOperator(es) :: Exclusive(Exec(w, es)) && NoUnexpectedExit(Exec(w, es))
  }

  /** An operator command is harmless if and only if no run after it breaks what MutualExclusion promises. */
  lemma HarmlessIsExact(w: World, e: Event)
    requires Inv(w) && OnTime(w) && !e.On?
    ensures Harmless(w, e) <==> SafeFrom(Apply(w, e))
  {
    hide Exclusive, NoUnexpectedExit, Inv, Apply, IsHistory, Exec, Harmless;
    var w' := Apply(w, e);
    if Harmless(w, e) {
      OperatorKeepsInv(w, e);
      forall es | IsHistory(w', es) && NoOperator(es)
        ensures Exclusive(Exec(w', es)) && NoUnexpectedExit(Exec(w', es))
      {
        NodesAreHarmless(w', es);
        InvExec(w', es);
        InvExcludes(Exec(w', es));
      }
    } else {
      var es := HarmShows(w, e);
      assert IsHistory(w', es) && NoOperator(es);
    }
  }

  /** A heartbeat in HAVE_QDISK that finds the disk free ends in abort(). */
  lemma LostBeat(w: World, id: NodeId, view: View) returns (es: seq<Event>)
    requires id in w.nodes && view.keys.Some? && w.disk.holder == None
    requires var n := w.nodes[id];
             n.phase.Rest? && n.state == HAVE_QDISK && n.clock <= n.cutoff && n.key in w.disk.registered
    ensures IsHistory(w, es) && NoOperator(es)
    ensures id in Exec(w, es).nodes && Exec(w, es).nodes[id].phase == Down(LostReservation)
  {
    var t := w.nodes[id].clock;
    var beat, serve := On(id, Beat(t, view)), On(id, Serve(NoFault, t, t));
    var w1 := Apply(w, beat);
    var w2 := Apply(w1, serve);
    ExecNext(w2, serve, []);
    ExecNext(w1, serve, [serve]);
    ExecNext(w, beat, [serve, serve]);
    assert [serve] + [] == [serve] && [serve] + [serve] == [serve, serve];
    es := [beat] + [serve, serve];
  }

  /**
    An abort under a resting node in HAVE_QDISK is harmful, whichever registered key issues it: the
    node's next heartbeat ends in abort() if the key is its own, and with a missing registration if not.
   */
  lemma OperatorAbortLosesReservation(w: World, id: NodeId, k: Key, view: View) returns (es: seq<Event>)
    requires Inv(w) && id in w.nodes && k in w.disk.registered && k != 0
    requires var n := w.nodes[id]; n.phase.Rest? && n.state == HAVE_QDISK && n.clock <= n.cutoff
    requires view.keys.Some?
    ensures var n := w.nodes[id];
            var all := [OperatorPreempt(k, n.key), Operator(Release, k)] + es;
            && NoOperator(es) && IsHistory(w, all) && id in Exec(w, all).nodes
            && Exec(w, all).nodes[id].phase == Down(if k == n.key then LostReservation else KeyGone)
  {
    var n := w.nodes[id];
    var preempt, release := OperatorPreempt(k, n.key), Operator(Release, k);
    var w1 := Apply(w, preempt);
    var w2 := Apply(w1, release);
    if k == n.key {
      es := LostBeat(w2, id, view);
    } else {
      es := DoomedEnds(w2, id, view);
    }
    ExecNext(w1, release, es);
    ExecNext(w, preempt, [release] + es);
    assert [preempt] + ([release] + es) == [preempt, release] + es;
  }

  // ---------- A free disk ----------

  lemma WinnerHolds(n: Node, d: Disk)
    requires n.In(HAVE_QDISK) && NodeHolds(n, d)
    ensures d.holder == Some(n.key)
  {
  }

  ghost predicate FreeTie(w: World, id: NodeId, c0: nat, view: View) {
    && Inv(w) && id in w.nodes && w.disk.holder == None && view.Tie() && view.keys.Some?
    && w.nodes[id].phase.Rest? && w.nodes[id].clock <= c0 <= w.nodes[id].cutoff
  }

  lemma FreeTieInIdle(w: World, id: NodeId, c0: nat, view: View)
    requires FreeTie(w, id, c0, view) && w.nodes[id].state == IDLE
    ensures var beat, serve := On(id, Beat(c0, view)), On(id, Serve(NoFault, c0, c0));
            var es := [beat, serve, serve];
            && IsHistory(w, es)
            && FreeTie(Exec(w, es), id, c0, view) && Exec(w, es).nodes[id].state == RESERVE_DISK
            && Exec(w, es).nodes == w.nodes[id := Exec(w, es).nodes[id]]
            && Exec(w, es).nodes[id].polls == w.nodes[id].polls + [Poll(true, c0)]
  {
    var beat, serve := On(id, Beat(c0, view)), On(id, Serve(NoFault, c0, c0));
    var w1 := Apply(w, beat);
    var w2 := Apply(w1, serve);
    ExecNext(w2, serve, []);
    ExecNext(w1, serve, [serve]);
    ExecNext(w, beat, [serve, serve]);
    assert [serve] + [] == [serve] && [serve] + [serve] == [serve, serve];
    assert [beat] + [serve, serve] == [beat, serve, serve];
    NodesAreHarmless(w, [beat, serve, serve]);
    InvExec(w, [beat, serve, serve]);
  }

  lemma FreeTieInReserve(w: World, id: NodeId, c0: nat, view: View)
    requires FreeTie(w, id, c0, view) && w.nodes[id].state == RESERVE_DISK
    ensures var beat, serve := On(id, Beat(c0, view)), On(id, Serve(NoFault, c0, c0));
            var es := [beat, serve, serve, serve];
            && IsHistory(w, es)
            && id in Exec(w, es).nodes && Exec(w, es).nodes[id].In(HAVE_QDISK)
            && Exec(w, es).disk.holder == Some(w.nodes[id].key)
            && Exec(w, es).nodes[id].polls == w.nodes[id].polls + [Poll(true, c0)]
  {
    var beat, serve := On(id, Beat(c0, view)), On(id, Serve(NoFault, c0, c0));
    var w1 := Apply(w, beat);
    var w2 := Apply(w1, serve);
    var w3 := Apply(w2, serve);
    ExecNext(w3, serve, []);
    ExecNext(w2, serve, [serve]);
    ExecNext(w1, serve, [serve, serve]);
    ExecNext(w, beat, [serve, serve, serve]);
    assert [serve] + [] == [serve] && [serve] + [serve] == [serve, serve];
    assert [serve] + [serve, serve] == [serve, serve, serve];
    assert [beat] + [serve, serve, serve] == [beat, serve, serve, serve];
  }

  /**
    A tie on a free disk is broken: two heartbeats of an IDLE node that sees it, not
    interrupted and without faults, give the node the reservation and two votes of 1.
   */
  lemma FreeDiskIsTaken(w: World, id: NodeId, c0: nat, view: View)
    requires FreeTie(w, id, c0, view) && w.nodes[id].state == IDLE
    ensures var beat, serve := On(id, Beat(c0, view)), On(id, Serve(NoFault, c0, c0));
            var es := [beat, serve, serve] + [beat, serve, serve, serve];
            && IsHistory(w, es)
            && var w' := Exec(w, es);
               && id in w'.nodes && w'.nodes[id].In(HAVE_QDISK) && w'.disk.holder == Some(w'.nodes[id].key)
               && w'.nodes[id].polls == w.nodes[id].polls + [Poll(true, c0), Poll(true, c0)]
  {
    hide CanHappen, Apply, IsHistory, Exec, NodeHolds;
    var beat, serve := On(id, Beat(c0, view)), On(id, Serve(NoFault, c0, c0));
    FreeTieInIdle(w, id, c0, view);
    var w3 := Exec(w, [beat, serve, serve]);
    FreeTieInReserve(w3, id, c0, view);
    ExecConcat(w, [beat, serve, serve], [beat, serve, serve, serve]);
    NodesAreHarmless(w3, [beat, serve, serve, serve]);
    InvExec(w3, [beat, serve, serve, serve]);
    WinnerHolds(Exec(w3, [beat, serve, serve, serve]).nodes[id], Exec(w3, [beat, serve, serve, serve]).disk);
  }

  // ---------- What the daemon is told ----------

  /** The command in flight, if it takes effect now, changes who holds the disk. */
  predicate ChangesHolder(d: Disk, n: Node) {
    || (n.phase.DoReserve? && MayReserve(d, n.key))
    || (n.phase.DoRelease? && d.holder == Some(n.key))
  }

  /** The reply is not lost behind such a command. */
  predicate Told(d: Disk, n: Node, what: What) {
    what.Serve? && what.fault == LostAfter ==> !ChangesHolder(d, n)
  }

  /** A serving node past START holds the disk exactly in HAVE_QDISK and RELEASE_QDISK. */
  predicate HoldsAsStated(n: Node, d: Disk) {
    n.Serving() && n.state != START ==>
      (d.holder == Some(n.key) <==> n.state == HAVE_QDISK || n.state == RELEASE_QDISK)
  }

  ghost predicate AllHold(w: World) { forall i | i in w.nodes :: HoldsAsStated(w.nodes[i], w.disk) }

  /** Node `n` is past START, or about to be, and takes it that its state says who holds the disk. */
  predicate Established(n: Node) { n.Serving() && (n.state != START || n.phase.AskKeys?) }

  predicate NodeTruth(n: Node, d: Disk) {
    && HoldsAsStated(n, d)
    && (n.state == START && n.phase.AskKeys? ==> d.holder != Some(n.key))
  }

  ghost predicate TruthInv(w: World) {
    Inv(w) && forall i | i in w.nodes :: NodeTruth(w.nodes[i], w.disk)
  }

  lemma OwnTruthAtSwitch(d: Disk, n: Node, what: What)
    requires n.key != 0 && NodeHolds(n, d) && NodeTruth(n, d) && Enabled(n, ActOf(d, n, what))
    requires what.Serve? && n.phase.AskKeys?
    ensures NodeTruth(Step(n, ActOf(d, n, what)), Served(d, n, what).0)
  {
  }

  lemma OwnTruthElsewhere(d: Disk, n: Node, what: What)
    requires n.key != 0 && NodeHolds(n, d) && NodeTruth(n, d) && Enabled(n, ActOf(d, n, what))
    requires !(what.Serve? && n.phase.AskKeys?)
    ensures NodeTruth(Step(n, ActOf(d, n, what)), Served(d, n, what).0) <==> Told(d, n, what)
    ensures HoldsAsStated(Step(n, ActOf(d, n, what)), Served(d, n, what).0) <==> Told(d, n, what)
  {
    hide Switch;
  }

  /** A lost reply hides the holder exactly behind a reserve or a release that takes effect. */
  lemma OwnTruth(d: Disk, n: Node, what: What)
    requires n.key != 0 && NodeHolds(n, d) && NodeTruth(n, d) && Enabled(n, ActOf(d, n, what))
    ensures NodeTruth(Step(n, ActOf(d, n, what)), Served(d, n, what).0) <==> Told(d, n, what)
    ensures HoldsAsStated(Step(n, ActOf(d, n, what)), Served(d, n, what).0) <==> Told(d, n, what)
  {
    hide Step, Served, ActOf, NodeHolds;
    if what.Serve? && n.phase.AskKeys? {
      OwnTruthAtSwitch(d, n, what);
    } else {
      OwnTruthElsewhere(d, n, what);
    }
  }

  lemma OtherTruth(d: Disk, n: Node, what: What, m: Node)
    requires NodeTruth(m, d) && m.key != n.key && NodeHolds(m, d)
    ensures NodeTruth(m, Served(d, n, what).0)
  {
  }

  ghost predicate NobodyEstablished(w: World, k: Key) {
    forall i | i in w.nodes && w.nodes[i].key == k :: !Established(w.nodes[i])
  }

  /** An operator command that is harmless and moves no reservation to or from an established node. */
  ghost predicate Undisturbed(w: World, e: Event) {
    && Harmless(w, e)
    && match e
       case On(_, _) => true
       case Operator(Reserve, k) =>
         w.disk.holder == None && MayReserve(w.disk, k) ==> NobodyEstablished(w, k)
       case Operator(Release, k) => w.disk.holder == Some(k) ==> NobodyEstablished(w, k)
       case Operator(_, _) => true
       case OperatorPreempt(k, victim) =>
         MayPreempt(w.disk, k, victim) && w.disk.holder == Some(victim) != Some(k) ==> NobodyEstablished(w, k)
  }

  /** Replies and operators leave every node right about whether it holds the disk. */
  ghost predicate KeepsTruth(w: World, e: Event)
    requires CanHappen(w, e)
  {
    if e.On? then Told(w.disk, w.nodes[e.id], e.what) else Undisturbed(w, e)
  }

  lemma OperatorKeepsTruth(w: World, e: Event)
    requires TruthInv(w) && !e.On?
    ensures TruthInv(Apply(w, e)) <==> Undisturbed(w, e)
  {
    hide Inv, NodeHolds;
    var w' := Apply(w, e);
    OperatorKeepsInv(w, e);
    if Undisturbed(w, e) {
      forall i | i in w'.nodes
        ensures NodeTruth(w'.nodes[i], w'.disk)
      {
        assert NodeTruth(w.nodes[i], w.disk);
      }
    } else if Harmless(w, e) {
      var i :| i in w.nodes && w.nodes[i].key == e.key && Established(w.nodes[i]);
      assert NodeTruth(w.nodes[i], w.disk);
      assert !NodeTruth(w'.nodes[i], w'.disk);
    }
  }

  lemma NodeKeepsTruth(w: World, e: Event)
    requires TruthInv(w) && CanHappen(w, e) && e.On?
    ensures TruthInv(Apply(w, e)) <==> KeepsTruth(w, e)
    ensures AllHold(Apply(w, e)) <==> KeepsTruth(w, e)
  {
    hide Step, Served, ActOf, NodeHolds, HoldsAsStated, Told;
    NodeKeepsInv(w, e);
    var n, w' := w.nodes[e.id], Apply(w, e);
    OwnTruth(w.disk, n, e.what);
    forall i | i in w'.nodes && i != e.id
      ensures NodeTruth(w'.nodes[i], w'.disk)
    {
      OtherTruth(w.disk, n, e.what, w.nodes[i]);
    }
    assert NodeTruth(w'.nodes[e.id], w'.disk) <==> KeepsTruth(w, e);
    assert HoldsAsStated(w'.nodes[e.id], w'.disk) <==> KeepsTruth(w, e);
  }

  lemma TruthStep(w: World, e: Event)
    requires TruthInv(w) && CanHappen(w, e)
    ensures TruthInv(Apply(w, e)) <==> KeepsTruth(w, e)
  {
    if e.On? {
      NodeKeepsTruth(w, e);
    } else {
      OperatorKeepsTruth(w, e);
    }
  }

  ghost predicate AllKeepTruth(w: World, es: seq<Event>)
    requires IsHistory(w, es)
    decreases |es|
  {
    es == [] || (KeepsTruth(w, es[0]) && AllKeepTruth(Apply(w, es[0]), es[1..]))
  }

  /** `AllHold` in every state that the history goes through. */
  ghost predicate AllHoldAlong(w: World, es: seq<Event>)
    requires IsHistory(w, es)
    decreases |es|
  {
    AllHold(w) && (es == [] || AllHoldAlong(Apply(w, es[0]), es[1..]))
  }

  lemma {:induction false} TruthExec(w: World, es: seq<Event>)
    requires TruthInv(w) && IsHistory(w, es) && AllKeepTruth(w, es)
    ensures TruthInv(Exec(w, es)) && AllHoldAlong(w, es)
    decreases |es|
  {
    hide Inv, HoldsAsStated, Apply, KeepsTruth, CanHappen;
    if es == [] {
    } else {
      TruthStep(w, es[0]);
      TruthExec(Apply(w, es[0]), es[1..]);
    }
  }

  lemma TruthAtStart(w: World)
    requires Initial(w)
    ensures TruthInv(w)
  {
  }

  lemma TruthfulHistory(w: World, es: seq<Event>)
    requires Initial(w) && IsHistory(w, es) && AllKeepTruth(w, es)
    ensures TruthInv(Exec(w, es))
  {
    hide *;
    TruthAtStart(w);
    TruthExec(w, es);
  }

  lemma AllHoldAtFirst(w: World, es: seq<Event>)
    requires IsHistory(w, es) && AllHoldAlong(w, es)
    ensures AllHold(w)
  {
  }

  lemma {:induction false} HolderMatchesStateFrom(w: World, es: seq<Event>)
    requires TruthInv(w) && IsHistory(w, es) && NoOperator(es)
    ensures AllHoldAlong(w, es) <==> AllKeepTruth(w, es)
    decreases |es|
  {
    hide Inv, HoldsAsStated, Apply, KeepsTruth, CanHappen;
    if es == [] {
    } else {
      assert es[0] in es;
      NodeKeepsTruth(w, es[0]);
      if KeepsTruth(w, es[0]) {
        HolderMatchesStateFrom(Apply(w, es[0]), es[1..]);
      } else if AllHoldAlong(w, es) {
        AllHoldAtFirst(Apply(w, es[0]), es[1..]);
      }
    }
  }

  /**
    Holder and state correspond in every state of a run if and only if no reply is lost
    behind a reserve or a release that takes effect. Operator commands that disturb nobody
    may happen as well.
   */
  lemma HolderMatchesState(w: World, es: seq<Event>)
    requires Initial(w) && IsHistory(w, es)
    ensures AllKeepTruth(w, es) ==> AllHoldAlong(w, es)
    ensures NoOperator(es) ==> (AllHoldAlong(w, es) <==> AllKeepTruth(w, es))
  {
    hide *;
    TruthAtStart(w);
    if AllKeepTruth(w, es) {
      TruthExec(w, es);
    }
    if NoOperator(es) {
      HolderMatchesStateFrom(w, es);
    }
  }

  /** Such a lost reply: a reserve after its deadline leaves a node that holds the disk without knowing it. */
  lemma LostReplyHidesReservation(d: Disk, n: Node, c1: nat, c2: nat)
    requires n.phase.DoReserve? && NodeHolds(n, d) && d.holder == None && n.key != 0
    requires !n.phase.snap.HolderVisible() && n.deadline < c1 <= c2 && n.clock <= c1
    ensures var what := Serve(LostAfter, c1, c2);
            && !Told(d, n, what)
            && !HoldsAsStated(Step(n, ActOf(d, n, what)), Served(d, n, what).0)
            && NodeHolds(Step(n, ActOf(d, n, what)), Served(d, n, what).0)
  {
  }
}
