/**
  What starting and stopping a daemon comes to: which replies let it come into service, which
  commands it issues, and what it leaves on the disk.
 */
module StartStop {
  import opened SharedDisk
  import opened NodeMachine
  import opened QdiskDaemon
  import opened Cluster
  import opened Heartbeats

  // ---------- Starting ----------

  /** Every node in sight has its key on the disk. */
  ghost predicate AllRegistered(nodeKeys: seq<Key>, r: Reply) {
    r.Registered? && forall k | k in nodeKeys :: k in r.keys
  }

  ghost predicate FailedStart(n: Node, o: Outcome, issued: seq<Command>, why: Reason) {
    o.node.phase == Down(why) && o.issued == issued && o.node.polls == n.polls + [Poll(false, n.clock)]
  }

  /** Joining votequorum, registering with the disk and sharing the key, in this order. */
  ghost predicate Joins(n: Node, o: Outcome, issued: seq<Command>, left: seq<Reply>) {
    var join, register, share := Next(left), Next(Later(left)), Next(Later(Later(left)));
    if join != Flag(true) then FailedStart(n, o, issued + [Join], BootFailed)
    else if register != Flag(true) then FailedStart(n, o, issued + [Join, Register], BootFailed)
    else if share != Flag(true) then FailedStart(n, o, issued + [Join, Register, Share, Unregister], BootFailed)
    else o.node == n.(phase := Rest) && o.issued == issued + [Join, Register, Share]
  }

  lemma ShareDialogue(n: Node, left: seq<Reply>, c1: nat, c2: nat)
    ensures var o := Drive(n.(phase := BootShare), left, c1, c2);
            if Next(left) == Flag(true) then o.node == n.(phase := Rest) && o.issued == [Share]
            else FailedStart(n, o, [Share, Unregister], BootFailed)
  {
    hide Drive;
    var k, u := n.(phase := BootShare), n.(phase := BootUnregister);
    DriveNext(k, left, c1, c2);
    if Next(left) == Flag(true) {
      NothingSent([], n.(phase := Rest), Later(left), c1, c2);
    } else {
      DriveNext(u, Later(left), c1, c2);
      NothingSent([], Receive(u, Next(Later(left)), c1, c2), Later(Later(left)), c1, c2);
      assert [Share] + ([Unregister] + []) == [Share, Unregister];
    }
  }

  lemma JoinDialogue(n: Node, left: seq<Reply>, c1: nat, c2: nat)
    ensures Joins(n, Drive(n.(phase := BootJoin), left, c1, c2), [], left)
  {
    hide Drive;
    var k0, k1, k2 := n.(phase := BootJoin), n.(phase := BootRegister), n.(phase := BootShare);
    DriveNext(k0, left, c1, c2);
    if Next(left) != Flag(true) {
      NothingSent([], Receive(k0, Next(left), c1, c2), Later(left), c1, c2);
      return;
    }
    DriveNext(k1, Later(left), c1, c2);
    if Next(Later(left)) != Flag(true) {
      NothingSent([], Receive(k1, Next(Later(left)), c1, c2), Later(Later(left)), c1, c2);
      return;
    }
    ShareDialogue(n, Later(Later(left)), c1, c2);
    assert forall x: seq<Command> {:trigger [Register] + x} :: [Join] + ([Register] + x) == [Join, Register] + x;
  }

  lemma JoinsAfter(n: Node, o: Outcome, o': Outcome, issued: seq<Command>, left: seq<Reply>)
    requires Joins(n, o, [], left) && o'.node == o.node && o'.issued == issued + o.issued
    ensures Joins(n, o', issued, left)
  {
    assert forall x: seq<Command> {:trigger [] + x} :: [] + x == x;
  }

  /** What becomes of a reservation left by an earlier run, and of a holder of key 0. */
  ghost predicate LooksAtReservation(n: Node, o: Outcome, issued: seq<Command>, left: seq<Reply>) {
    var reserved, owner := Next(left), Next(Later(left));
    var asked := issued + [IsReserved];
    if reserved != Flag(true) then Joins(n, o, asked, Later(left))
    else if owner == Holder(n.key) then
      var all := asked + [ReadOwner, Release];
      if n.key == 0 then FailedStart(n, o, all, KeyZero) else Joins(n, o, all, Later(Later(Later(left))))
    else if owner == Holder(0) then FailedStart(n, o, asked + [ReadOwner], KeyZero)
    else Joins(n, o, asked + [ReadOwner], Later(Later(left)))
  }

  lemma ReservationDialogue(n: Node, left: seq<Reply>, c1: nat, c2: nat)
    ensures LooksAtReservation(n, Drive(n.(phase := BootReserved), left, c1, c2), [], left)
  {
    hide Drive, Joins;
    var k0, k1 := n.(phase := BootReserved), n.(phase := BootOwner);
    var k2, j := n.(phase := BootRelease), n.(phase := BootJoin);
    var o := Drive(k0, left, c1, c2);
    var left1 := Later(left);
    var left2 := Later(left1);
    var left3 := Later(left2);
    assert [] + [IsReserved] == [IsReserved];
    DriveNext(k0, left, c1, c2);
    if Next(left) != Flag(true) {
      JoinDialogue(n, left1, c1, c2);
      JoinsAfter(n, Drive(j, left1, c1, c2), o, [IsReserved], left1);
      return;
    }
    DriveNext(k1, left1, c1, c2);
    assert forall x: seq<Command> {:trigger [ReadOwner] + x} ::
        [IsReserved] + ([ReadOwner] + x) == [IsReserved, ReadOwner] + x;
    assert [IsReserved] + [ReadOwner] == [IsReserved, ReadOwner];
    if Next(left1) == Holder(n.key) {
      DriveNext(k2, left2, c1, c2);
      assert forall x: seq<Command> {:trigger [Release] + x} ::
          [IsReserved, ReadOwner] + ([Release] + x) == [IsReserved] + [ReadOwner, Release] + x;
      if n.key == 0 {
        NothingSent([], Receive(k2, Next(left2), c1, c2), left3, c1, c2);
      } else {
        JoinDialogue(n, left3, c1, c2);
        JoinsAfter(n, Drive(j, left3, c1, c2), o, [IsReserved] + [ReadOwner, Release], left3);
      }
    } else if Next(left1) == Holder(0) {
      NothingSent([], Receive(k1, Next(left1), c1, c2), left2, c1, c2);
    } else {
      JoinDialogue(n, left2, c1, c2);
      JoinsAfter(n, Drive(j, left2, c1, c2), o, [IsReserved, ReadOwner], left2);
    }
  }

  lemma LooksAfter(n: Node, o: Outcome, o': Outcome, issued: seq<Command>, left: seq<Reply>)
    requires LooksAtReservation(n, o, [], left) && o'.node == o.node && o'.issued == issued + o.issued
    ensures LooksAtReservation(n, o', issued, left)
  {
    assert forall x: seq<Command> {:trigger [IsReserved] + x} ::
        issued + ([IsReserved] + x) == issued + [IsReserved] + x;
    assert [] + [IsReserved] == [IsReserved];
  }

  /** One call of algorithm_init, for every list of node keys and every sequence of replies. */
  lemma StartDialogue(n: Node, nodeKeys: Option<seq<Key>>, replies: seq<Reply>, c1: nat, c2: nat)
    ensures var o := Drive(BeginBoot(n, nodeKeys), replies, c1, c2);
            if nodeKeys.None? then FailedStart(n, o, [], BootFailed)
            else if !AllRegistered(nodeKeys.value, Next(replies)) then FailedStart(n, o, [ReadKeys], BootFailed)
            else LooksAtReservation(n, o, [ReadKeys], Later(replies))
  {
    hide Drive, LooksAtReservation;
    var k := BeginBoot(n, nodeKeys);
    var o := Drive(k, replies, c1, c2);
    if nodeKeys.None? {
      NothingSent([], k, replies, c1, c2);
      return;
    }
    var m := Receive(k, Next(replies), c1, c2);
    DriveNext(k, replies, c1, c2);
    if AllRegistered(nodeKeys.value, Next(replies)) {
      ReservationDialogue(n, Later(replies), c1, c2);
      LooksAfter(n, Drive(m, Later(replies), c1, c2), o, [ReadKeys], Later(replies));
    } else {
      NothingSent([], m, Later(replies), c1, c2);
      assert [ReadKeys] + [] == [ReadKeys];
    }
  }

  /** A daemon comes into service only if every node in sight is registered; else it reads the keys and leaves. */
  lemma StartNeedsRegisteredNodes(n: Node, nodeKeys: seq<Key>, replies: seq<Reply>, c1: nat, c2: nat)
    ensures var o := Drive(BeginBoot(n, Some(nodeKeys)), replies, c1, c2);
            && (o.node.phase.Rest? ==> AllRegistered(nodeKeys, Next(replies)))
            && (!AllRegistered(nodeKeys, Next(replies)) ==>
                o.issued == [ReadKeys] && o.node.phase == Down(BootFailed) && !o.node.LastVote())
  {
    StartDialogue(n, Some(nodeKeys), replies, c1, c2);
  }

  /** In the cluster a start goes on from a truthful reading if and only if every node in sight is registered. */
  lemma ValidationReadsTheDisk(d: Disk, n: Node, c1: nat, c2: nat)
    requires n.phase.BootValidate? && n.clock <= c1 <= c2
    ensures var m := Step(n, ActOf(d, n, Serve(NoFault, c1, c2)));
            && (m.phase == BootReserved <==> forall k | k in n.phase.nodeKeys :: k in d.registered)
            && (m.phase != BootReserved ==> m.phase == Down(BootFailed) && !m.LastVote())
  {
  }

  // ---------- Stopping ----------

  lemma EndResetsAtSwitch(n: Node, a: Act)
    requires Enabled(n, a) && Step(n, a).phase.Down? && a.Got? && n.phase.AskKeys?
    ensures Step(n, a).state == START && Step(n, a).deadline == 0 && Step(n, a).cutoff == 0xFFFF_FFFF_FFFF_FFFF
  {
    hide AfterReserve;
  }

  /** A process that has ended begins again with the initial values of its static variables. */
  lemma EndResets(n: Node, a: Act)
    requires Enabled(n, a) && Step(n, a).phase.Down?
    ensures Step(n, a).state == START && Step(n, a).deadline == 0 && Step(n, a).cutoff == 0xFFFF_FFFF_FFFF_FFFF
  {
    if a.Got? && n.phase.AskKeys? {
      EndResetsAtSwitch(n, a);
    } else {
      hide Switch;
    }
  }

  /** The disk without a trace of key `k`, and with everything else as it was. */
  ghost predicate Cleared(d: Disk, d': Disk, k: Key) {
    && (forall x :: x in d'.registered <==> x in d.registered && x != k)
    && d'.holder == (if d.holder == Some(k) then None else d.holder)
  }

  /** A stop that meets no fault takes the node's registration and reservation off the disk. */
  lemma StopLeavesTheDisk(w: World, id: NodeId) returns (es: seq<Event>)
    requires id in w.nodes && (w.nodes[id].phase.StopRelease? || w.nodes[id].phase.StopUnregister?)
    ensures IsHistory(w, es) && NoOperator(es)
    ensures var n, w' := w.nodes[id], Exec(w, es);
            && id in w'.nodes && w'.nodes == w.nodes[id := w'.nodes[id]] && w'.nodes[id].phase == Down(n.phase.why)
            && w'.nodes[id].polls == n.polls + [Poll(false, n.clock)]
            && Cleared(w.disk, w'.disk, n.key)
  {
    var n := w.nodes[id];
    var e := On(id, Serve(NoFault, n.clock, n.clock));
    var w1 := Apply(w, e);
    if n.phase.StopUnregister? {
      ExecNext(w, e, []);
      es := [e] + [];
    } else {
      ExecNext(w1, e, []);
      ExecNext(w, e, [e]);
      assert [e] + [] == [e];
      es := [e] + [e];
    }
  }
}
