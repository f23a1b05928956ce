/** While a tie lasts, the reservation can be taken but not lost. */
module WriteOnce {
  import opened SharedDisk
  import opened NodeMachine
  import opened NodeRuns
  import opened Cluster

  ghost predicate SeesTie(n: Node) {
    InFlight(n, (v: View) => v.Tie(), (s: Snapshot) => true)
  }

  /** No node is in RELEASE_QDISK, and a node that holds the disk is past START and serving. */
  ghost predicate NodeStable(n: Node, d: Disk) {
    && SeesTie(n)
    && !n.In(RELEASE_QDISK)
    && (d.holder == Some(n.key) ==> n.Serving() && n.state != START)
  }

  ghost predicate Stable(w: World) {
    TruthInv(w) && forall i | i in w.nodes :: NodeStable(w.nodes[i], w.disk)
  }

  /** Every view is a tie, no reply hides the holder, and the holder is neither stopped nor late. */
  ghost predicate TieEvent(w: World, e: Event) {
    && e.On? && CanHappen(w, e) && KeepsTruth(w, e)
    && (e.what.Beat? ==> e.what.view.Tie())
    && (w.disk.holder == Some(w.nodes[e.id].key) ==>
        !e.what.Stop? && !e.what.Fail? && (e.what.Beat? ==> e.what.c0 <= w.nodes[e.id].cutoff))
  }

  /** What an own step has to start from. */
  ghost predicate Ready(d: Disk, n: Node, what: What) {
    && n.key != 0 && NodeHolds(n, d) && NodeTruth(n, d) && NodeStable(n, d)
    && Enabled(n, ActOf(d, n, what)) && Told(d, n, what)
    && (what.Beat? ==> what.view.Tie())
    && (d.holder == Some(n.key) ==> !what.Stop? && !what.Fail? && (what.Beat? ==> what.c0 <= n.cutoff))
  }

  lemma OwnStableAtSwitch(d: Disk, n: Node, what: What)
    requires Ready(d, n, what) && what.Serve? && n.phase.AskKeys?
    ensures NodeStable(Step(n, ActOf(d, n, what)), Served(d, n, what).0)
    ensures d.holder.Some? ==> Served(d, n, what).0.holder == d.holder
  {
  }

  lemma OwnStableInService(d: Disk, n: Node, what: What)
    requires Ready(d, n, what) && what.Serve? && n.Serving() && !n.phase.AskKeys?
    ensures NodeStable(Step(n, ActOf(d, n, what)), Served(d, n, what).0)
    ensures d.holder.Some? ==> Served(d, n, what).0.holder == d.holder
  {
    hide Switch;
  }

  lemma OwnStableOffline(d: Disk, n: Node, what: What)
    requires Ready(d, n, what) && !(what.Serve? && n.Serving())
    ensures NodeStable(Step(n, ActOf(d, n, what)), Served(d, n, what).0)
    ensures d.holder.Some? ==> Served(d, n, what).0.holder == d.holder
  {
    hide Switch, AfterReserve;
  }

  lemma OwnStable(d: Disk, n: Node, what: What)
    requires Ready(d, n, what)
    ensures NodeStable(Step(n, ActOf(d, n, what)), Served(d, n, what).0)
    ensures d.holder.Some? ==> Served(d, n, what).0.holder == d.holder
  {
    hide Ready, NodeStable, Step, Served, ActOf;
    if !(what.Serve? && n.Serving()) {
      OwnStableOffline(d, n, what);
    } else if n.phase.AskKeys? {
      OwnStableAtSwitch(d, n, what);
    } else {
      OwnStableInService(d, n, what);
    }
  }

  lemma OtherStable(d: Disk, n: Node, what: What, m: Node)
    requires NodeStable(m, d) && m.key != n.key
    ensures NodeStable(m, Served(d, n, what).0)
  {
  }

  lemma StableStep(w: World, e: Event)
    requires Stable(w) && TieEvent(w, e)
    ensures Stable(Apply(w, e))
    ensures w.disk.holder.Some? ==> Apply(w, e).disk.holder == w.disk.holder
  {
    hide Step, Served, ActOf, NodeHolds, NodeTruth, NodeStable;
    TruthStep(w, e);
    var n, w' := w.nodes[e.id], Apply(w, e);
    OwnStable(w.disk, n, e.what);
    forall i | i in w'.nodes && i != e.id
      ensures NodeStable(w'.nodes[i], w'.disk)
    {
      OtherStable(w.disk, n, e.what, w.nodes[i]);
    }
  }

  ghost predicate TieRun(w: World, es: seq<Event>)
    decreases |es|
  {
    es == [] || (TieEvent(w, es[0]) && TieRun(Apply(w, es[0]), es[1..]))
  }

  lemma {:induction false} StableRun(w: World, es: seq<Event>)
    requires Stable(w) && TieRun(w, es)
    ensures IsHistory(w, es) && Stable(Exec(w, es))
    ensures w.disk.holder.Some? ==> Exec(w, es).disk.holder == w.disk.holder
    decreases |es|
  {
    hide Apply, Stable;
    if es == [] {
    } else {
      StableStep(w, es[0]);
      StableRun(Apply(w, es[0]), es[1..]);
    }
  }

  /**
    The reservation is write-once in a stable tie. `before` is any history whose replies and
    operators keep the nodes right about the holder. After it every heartbeat in flight sees
    the tie, no node is in RELEASE_QDISK, and whoever holds the disk is serving and past START.
    If the disk is held at some later point of the tie, it has the same holder at every point
    after that.
   */
  lemma ReservationIsWriteOnce(w0: World, before: seq<Event>, es: seq<Event>, more: seq<Event>)
    requires Initial(w0) && IsHistory(w0, before) && AllKeepTruth(w0, before)
    requires var w := Exec(w0, before);
             && (forall i | i in w.nodes :: NodeStable(w.nodes[i], w.disk))
             && TieRun(w, es) && IsHistory(w, es)
             && TieRun(Exec(w, es), more) && IsHistory(Exec(w, es), more)
    ensures var w1 := Exec(Exec(w0, before), es);
            w1.disk.holder.Some? ==>
              && Exec(w1, more).disk.holder == w1.disk.holder
              && (forall i | i in w1.nodes && w1.disk.holder == Some(w1.nodes[i].key) :: w1.nodes[i].In(HAVE_QDISK))
  {
    hide Step, Served, ActOf, TieEvent, Apply;
    TruthfulHistory(w0, before);
    var w := Exec(w0, before);
    StableRun(w, es);
    StableRun(Exec(w, es), more);
  }
}
