/**
  A split always can settle: from every state in which a tied component has won the disk there
  is a run in which every node outside that component completes the late heartbeats it needs.
 */
module SplitSettles {
  import opened SharedDisk
  import opened NodeMachine
  import opened NodeRuns
  import opened Cluster
  import opened SplitBrain

  /** A heartbeat under way whose switch finds the deadline passed if it happens at `t`. */
  predicate LateAt(n: Node, t: nat) {
    && n.deadline < t && n.clock <= t
    && match n.phase
       case AskReserved(v) => v.keys.Some?
       case AskOwner(v) => v.keys.Some?
       case AskKeys(s) => s.view.keys.Some?
       case DoReserve(_) => true
       case _ => false
  }

  predicate AtRest(n: Node) { n.phase.Rest? && n.clock <= n.cutoff }

  /** The disk serves one command of the heartbeat without a fault. */
  lemma ServeStep(d: Disk, n: Node, winner: Key, t: nat)
    requires NodeHolds(n, d) && NodeTruth(n, d) && LateAt(n, t)
    requires d.holder == Some(winner) && winner != n.key && winner != 0
    ensures var what := Serve(NoFault, t, t);
            && Enabled(n, ActOf(d, n, what))
            && var m := Step(n, ActOf(d, n, what));
               && CommandsLeft(m.phase) < CommandsLeft(n.phase)
               && (LateBeat(d, n, what) <==> m.phase.Rest?)
               && (if m.phase.Rest? then AtRest(m) else LateAt(m, t))
  {
  }

  lemma UnderNext(w: World, e: Event, es: seq<Event>, s: Split, id: NodeId)
    requires s.Fits(w) && Allowed(w, e, s) && Under(Apply(w, e), es, s) && IsHistory(Apply(w, e), es)
    ensures Under(w, [e] + es, s) && IsHistory(w, [e] + es) && Exec(w, [e] + es) == Exec(Apply(w, e), es)
    ensures LateBeats(w, [e] + es, id)
            == (if e.id == id && LateBeat(w.disk, w.nodes[id], e.what) then 1 else 0) + LateBeats(Apply(w, e), es, id)
  {
    assert ([e] + es)[1..] == es;
  }

  lemma {:induction false} UnderConcat(w: World, es: seq<Event>, fs: seq<Event>, s: Split, id: NodeId)
    requires Under(w, es, s) && IsHistory(w, es) && Under(Exec(w, es), fs, s) && IsHistory(Exec(w, es), fs)
    ensures Under(w, es + fs, s) && IsHistory(w, es + fs) && Exec(w, es + fs) == Exec(Exec(w, es), fs)
    ensures LateBeats(w, es + fs, id) == LateBeats(w, es, id) + LateBeats(Exec(w, es), fs, id)
    decreases |es|
  {
    hide Apply, Allowed, LateBeat;
    if es == [] {
      assert es + fs == fs;
    } else {
      assert (es + fs)[1..] == es[1..] + fs;
      UnderConcat(Apply(w, es[0]), es[1..], fs, s, id);
    }
  }

  /** A run of the split in which only node `id` moves and completes `k` late heartbeats. */
  ghost predicate Only(w: World, es: seq<Event>, s: Split, id: NodeId, k: nat) {
    && Under(w, es, s) && IsHistory(w, es)
    && LateBeats(w, es, id) == k
    && s.Fits(Exec(w, es)) && id in s.part
    && Exec(w, es).nodes == w.nodes[id := Exec(w, es).nodes[id]]
    && AtRest(Exec(w, es).nodes[id])
  }

  lemma EndOfHistory(w: World, s: Split, id: NodeId)
    requires s.Fits(w)
    ensures Under(w, [], s) && IsHistory(w, []) && Exec(w, []) == w && LateBeats(w, [], id) == 0
  {
  }

  lemma OutsiderHolds(w: World, s: Split, id: NodeId)
    requires Won(w, s) && s.Outside(id)
    ensures NodeHolds(w.nodes[id], w.disk) && NodeTruth(w.nodes[id], w.disk)
    ensures w.nodes[id].key == s.keys[id] != s.keys[s.winner] && w.nodes[id].key != 0
  {
    hide NodeHolds, NodeTruth;
    assert w.nodes[id].key != w.nodes[s.winner].key;
  }

  /** A heartbeat under way can run to its end. */
  lemma {:induction false} BeatCanComplete(w: World, s: Split, id: NodeId, t: nat) returns (es: seq<Event>)
    requires Won(w, s) && s.Outside(id) && LateAt(w.nodes[id], t)
    ensures Only(w, es, s, id, 1)
    decreases CommandsLeft(w.nodes[id].phase)
  {
    hide Step, Served, ActOf, NodeHolds, NodeTruth, LateBeat, LateAt, AtRest, InFlight, CommandsLeft, TruthInv;
    var e := On(id, Serve(NoFault, t, t));
    WinnerHasDisk(w, s);
    OutsiderHolds(w, s, id);
    ServeStep(w.disk, w.nodes[id], s.keys[s.winner], t);
    WonStep(w, e, s);
    var w1 := Apply(w, e);
    if w1.nodes[id].phase.Rest? {
      UnderNext(w, e, [], s, id);
      es := [e] + [];
    } else {
      var later := BeatCanComplete(w1, s, id, t);
      UnderNext(w, e, later, s, id);
      es := [e] + later;
    }
  }

  /** A node at rest can complete a heartbeat after its deadline. */
  lemma LateBeatIsPossible(w: World, s: Split, id: NodeId, v: View) returns (es: seq<Event>)
    requires Won(w, s) && s.Outside(id) && s.Shows(id, v) && v.keys.Some? && AtRest(w.nodes[id])
    ensures Only(w, es, s, id, 1)
  {
    hide LateBeats, Under, IsHistory, Exec, NodeHolds, NodeTruth, TruthInv, Receive;
    var n := w.nodes[id];
    var e := On(id, Beat(n.clock, v));
    WonStep(w, e, s);
    var later := BeatCanComplete(Apply(w, e), s, id, n.clock + n.deadline + 1);
    UnderNext(w, e, later, s, id);
    es := [e] + later;
  }

  lemma OnlyConcat(w: World, es: seq<Event>, fs: seq<Event>, s: Split, id: NodeId, k: nat, l: nat)
    requires Only(w, es, s, id, k) && Only(Exec(w, es), fs, s, id, l)
    ensures Only(w, es + fs, s, id, k + l)
  {
    hide Under, IsHistory, LateBeats, Exec, AtRest;
    UnderConcat(w, es, fs, s, id);
  }

  lemma {:induction false} LateBeatsArePossible(w: World, s: Split, id: NodeId, v: View, k: nat)
    returns (es: seq<Event>)
    requires Won(w, s) && s.Outside(id) && s.Shows(id, v) && v.keys.Some? && AtRest(w.nodes[id])
    ensures Only(w, es, s, id, k)
    decreases k
  {
    hide Won, Under, IsHistory, LateBeats, Exec, AtRest, Split.Shows;
    if k == 0 {
      es := [];
      WonFits(w, s);
      EndOfHistory(w, s, id);
      assert w.nodes == w.nodes[id := w.nodes[id]];
    } else {
      var first := LateBeatIsPossible(w, s, id, v);
      WonUnder(w, first, s);
      var later := LateBeatsArePossible(Exec(w, first), s, id, v, k - 1);
      OnlyConcat(w, first, later, s, id, 1, k - 1);
      es := first + later;
    }
  }

  // ---------- From anywhere to rest ----------

  /** The clock is a 64-bit number, and the node has not missed its cutoff, or is stopping. */
  predicate InTime(n: Node) {
    n.clock <= UINT64_MAX && (n.phase.StopRelease? || n.phase.StopUnregister? || n.clock <= n.cutoff)
  }

  function StepsToRest(p: Phase): nat {
    match p
    case BootShare => 1
    case BootRegister => 2
    case BootJoin => 3
    case BootRelease => 4
    case BootOwner => 5
    case BootReserved => 6
    case BootValidate(nodeKeys) => if nodeKeys == [] then 7 else 10
    case Down(_) => 8
    case BootUnregister => 9
    case StopUnregister(_) => 9
    case StopRelease(_) => 10
    case _ => CommandsLeft(p)
  }

  /** The next event on the way: a start, in sight of no other daemon, or a command without fault. */
  function OnTheWay(n: Node): What {
    if n.phase.Down? then Start(Some([])) else Serve(NoFault, n.clock, n.clock)
  }

  lemma RestStep(d: Disk, n: Node, winner: Key)
    requires NodeHolds(n, d) && NodeTruth(n, d) && InTime(n) && !n.phase.Rest?
    requires d.holder == Some(winner) && winner != n.key && winner != 0 && n.key != 0
    ensures var what := OnTheWay(n);
            && Enabled(n, ActOf(d, n, what))
            && var m := Step(n, ActOf(d, n, what)); InTime(m) && StepsToRest(m.phase) < StepsToRest(n.phase)
  {
  }

  /** Wherever an outside node is in its life, it can come to rest in service. */
  lemma {:induction false} ComesToRest(w: World, s: Split, id: NodeId) returns (es: seq<Event>, k: nat)
    requires Won(w, s) && s.Outside(id) && InTime(w.nodes[id])
    ensures Only(w, es, s, id, k)
    decreases StepsToRest(w.nodes[id].phase)
  {
    hide Step, Served, ActOf, NodeHolds, NodeTruth, LateBeat, InFlight, StepsToRest, TruthInv;
    if w.nodes[id].phase.Rest? {
      es, k := [], 0;
      EndOfHistory(w, s, id);
      assert w.nodes == w.nodes[id := w.nodes[id]];
    } else {
      hide InTime, AtRest;
      var e := On(id, OnTheWay(w.nodes[id]));
      WinnerHasDisk(w, s);
      OutsiderHolds(w, s, id);
      RestStep(w.disk, w.nodes[id], s.keys[s.winner]);
      WonStep(w, e, s);
      var later, l := ComesToRest(Apply(w, e), s, id);
      UnderNext(w, e, later, s, id);
      es := [e] + later;
      k := LateBeats(w, es, id);
    }
  }

  /** Node `id` can come to rest and has a view that the split can show it. */
  ghost predicate CanBeat(w: World, s: Split, views: map<NodeId, View>, id: NodeId)
    requires s.Fits(w) && id in s.part
  {
    id in views && s.Shows(id, views[id]) && views[id].keys.Some? && InTime(w.nodes[id])
  }

  ghost predicate OthersCanBeat(w: World, s: Split, views: map<NodeId, View>) {
    s.Fits(w) && forall id | s.Outside(id) :: CanBeat(w, s, views, id)
  }

  ghost predicate NobodyOutsideVotes(w: World, s: Split) {
    s.Fits(w) && forall id | s.Outside(id) :: !w.nodes[id].LastVote() && !Quorate(w, s, id)
  }

  lemma NodeCanSettle(w: World, s: Split, id: NodeId, v: View) returns (es: seq<Event>)
    requires Won(w, s) && s.Outside(id) && s.Shows(id, v) && v.keys.Some? && InTime(w.nodes[id])
    ensures Under(w, es, s) && IsHistory(w, es) && s.Fits(Exec(w, es))
    ensures LateBeats(w, es, id) >= 3 && Exec(w, es).nodes == w.nodes[id := Exec(w, es).nodes[id]]
  {
    hide Won, Under, IsHistory, LateBeats, Exec, AtRest, InTime, Split.Shows, Split.Outside;
    var first, k := ComesToRest(w, s, id);
    WonUnder(w, first, s);
    var later := LateBeatsArePossible(Exec(w, first), s, id, v, 3);
    OnlyConcat(w, first, later, s, id, k, 3);
    es := first + later;
  }

  lemma {:induction false} NodesCanSettle(w: World, s: Split, views: map<NodeId, View>, ids: set<NodeId>)
    returns (es: seq<Event>)
    requires Won(w, s) && s.Fits(w)
    requires forall id | id in ids :: s.Outside(id) && CanBeat(w, s, views, id)
    ensures Under(w, es, s) && IsHistory(w, es)
    ensures forall id | id in ids :: LateBeats(w, es, id) >= 3
    decreases |ids|
  {
    hide Won, Under, IsHistory, LateBeats, Exec, AtRest, InTime, Split.Shows, Split.Outside;
    if ids == {} {
      es := [];
      EndOfHistory(w, s, s.winner);
    } else {
      var id :| id in ids;
      var first := NodeCanSettle(w, s, id, views[id]);
      var w1 := Exec(w, first);
      WonUnder(w, first, s);
      var later := NodesCanSettle(w1, s, views, ids - {id});
      es := first + later;
      UnderConcat(w, first, later, s, id);
      forall other | other in ids
        ensures LateBeats(w, es, other) >= 3
      {
        UnderConcat(w, first, later, s, other);
      }
    }
  }

  /**
    Whatever the outside nodes have done before, and wherever they are in their lives, a run
    exists in which each completes the late heartbeats it needs, so that none of them has a
    vote or is quorate at its end.
   */
  lemma SplitCanSettle(w: World, s: Split, views: map<NodeId, View>) returns (es: seq<Event>)
    requires Won(w, s) && OthersCanBeat(w, s, views)
    ensures EnoughLateBeats(w, es, s) && NobodyOutsideVotes(Exec(w, es), s)
  {
    hide Won, Under, IsHistory, Exec, LateBeats, Quorate, BeatsNeeded, CanBeat;
    var ids := set id | id in s.part && s.Outside(id);
    es := NodesCanSettle(w, s, views, ids);
    WonUnder(w, es, s);
    WonFits(w, s);
    WonFits(Exec(w, es), s);
    EndOfHistory(Exec(w, es), s, s.winner);
    forall id | s.Outside(id)
      ensures LateBeats(w, es, id) >= BeatsNeeded(w.nodes[id], s.keys[s.winner])
      ensures !Exec(w, es).nodes[id].LastVote() && !Quorate(Exec(w, es), s, id)
    {
      OutsiderGivesUp(w, es, [], s, id);
    }
  }
}
