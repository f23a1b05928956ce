/**
  What the daemon knows about the other nodes: the list that votequorum's callbacks build,
  and the keys looked up in it at every heartbeat.
 */
module NodeCache {
  import opened SharedDisk
  import opened Scanf
  import opened NodeMachine

  /** The node id of the dummy node that votequorum adds for the quorum device. */
  const QDEVICE_NODEID: NodeId := 0

  datatype RingId = RingId(node: NodeId, seqNo: nat)

  datatype Member = Member(nodeid: NodeId, state: nat)

  datatype NodeInfo = NodeInfo(nodeid: NodeId, state: nat, diskKey: Key)

  /** votequorum's reply when asked for a node's extra info. */
  datatype ExtraInfo = Unavailable | Text(text: string)

  // ---------- The key as shared text ----------

  /** The text by which a node tells the others its key. */
  function ShareText(k: Key): string { "Qdsk " + KeyText(k) }

  /** "Qdsk %016lx". */
  function ScanShared(text: string): Option<Key> {
    var t := Literal(text, "Qdsk");
    if t.None? then None
    else
      var scanned := ScanNumber(SkipSpace(t.value), 16, 16);
      if scanned.None? then None else Some(scanned.value.value)
  }

  lemma KeyTextStartsWithDigit(k: Key)
    ensures !IsSpace(KeyText(k)[0])
  {
    assert Digit(KeyText(k)[0], 16).Some?;
  }

  lemma ShareTextScans(k: Key)
    ensures ScanShared(ShareText(k)) == Some(k)
  {
    hide ScanNumber, Digit;
    var s := ShareText(k);
    assert s[..4] == "Qdsk" && s[4..] == " " + KeyText(k);
    assert (" " + KeyText(k))[1..] == KeyText(k);
    KeyTextStartsWithDigit(k);
    assert SkipSpace(s[4..]) == KeyText(k);
    KeyTextScans(k, "");
    assert KeyText(k) + "" == KeyText(k);
  }

  /** The key in an announcement; no key if there is no text or no number in it. */
  function AnnouncedKey(text: string): Key {
    if ScanShared(text).Some? then ScanShared(text).value else 0
  }

  // ---------- The list, and the map it stands for ----------

  function IndexOf(list: seq<NodeInfo>, id: NodeId): (i: nat)
    ensures i <= |list|
    ensures i < |list| ==> list[i].nodeid == id
    ensures forall j | 0 <= j < i :: list[j].nodeid != id
  {
    if list == [] || list[0].nodeid == id then 0 else 1 + IndexOf(list[1..], id)
  }

  function Lookup(list: seq<NodeInfo>, id: NodeId): Option<Key> {
    var i := IndexOf(list, id);
    if i < |list| then Some(list[i].diskKey) else None
  }

  function KeyOrZero(list: seq<NodeInfo>, id: NodeId): Key {
    if Lookup(list, id).Some? then Lookup(list, id).value else 0
  }

  /** The members listed before the quorum device, where the callback stops reading. */
  function RealMembers(members: seq<Member>): (r: seq<Member>)
    ensures r <= members && forall m | m in r :: m.nodeid != QDEVICE_NODEID
  {
    if members == [] || members[0].nodeid == QDEVICE_NODEID then []
    else [members[0]] + RealMembers(members[1..])
  }

  function Entry(list: seq<NodeInfo>, m: Member): NodeInfo {
    NodeInfo(m.nodeid, m.state, KeyOrZero(list, m.nodeid))
  }

  /** The list after a membership callback. */
  function Renewed(list: seq<NodeInfo>, members: seq<Member>): (r: seq<NodeInfo>)
    ensures var genuine := RealMembers(members);
            |r| == |genuine| && forall i | 0 <= i < |r| :: r[i] == Entry(list, genuine[i])
  {
    var genuine := RealMembers(members);
    seq(|genuine|, i requires 0 <= i < |genuine| => Entry(list, genuine[i]))
  }

  /** The list after an extra-info callback. */
  function Announced(list: seq<NodeInfo>, id: NodeId, k: Key): seq<NodeInfo> {
    var i := IndexOf(list, id);
    if i < |list| then list[i := list[i].(diskKey := k)] else list + [NodeInfo(id, 0, k)]
  }

  ghost predicate Refines(list: seq<NodeInfo>, m: map<NodeId, Key>) {
    && (forall i, j | 0 <= i < j < |list| :: list[i].nodeid != list[j].nodeid)
    && (forall id: NodeId :: Lookup(list, id) == if id in m then Some(m[id]) else None)
  }

  datatype Callback = Membership(members: seq<Member>) | Announcement(id: NodeId, text: string)

  function ListAfter(list: seq<NodeInfo>, c: Callback): seq<NodeInfo> {
    match c
    case Membership(members) => Renewed(list, members)
    case Announcement(id, text) => Announced(list, id, AnnouncedKey(text))
  }

  /** The reference: surviving nodes keep their keys, new ones have none, departed ones are gone. */
  function MapAfter(m: map<NodeId, Key>, c: Callback): map<NodeId, Key> {
    match c
    case Membership(members) =>
      var ids := set p | p in RealMembers(members) :: p.nodeid;
      map id | id in ids :: if id in m then m[id] else 0
    case Announcement(id, text) => m[id := AnnouncedKey(text)]
  }

  ghost predicate DistinctIds(c: Callback) {
    c.Membership? ==>
      var genuine := RealMembers(c.members);
      forall i, j | 0 <= i < j < |genuine| :: genuine[i].nodeid != genuine[j].nodeid
  }

  lemma LookupAt(list: seq<NodeInfo>, i: nat)
    requires i < |list|
    requires forall i, j | 0 <= i < j < |list| :: list[i].nodeid != list[j].nodeid
    ensures IndexOf(list, list[i].nodeid) == i
  {
  }

  lemma LookupMissing(list: seq<NodeInfo>, id: NodeId)
    requires forall i | 0 <= i < |list| :: list[i].nodeid != id
    ensures Lookup(list, id) == None
  {
  }

  lemma RenewedRefines(list: seq<NodeInfo>, m: map<NodeId, Key>, members: seq<Member>)
    requires Refines(list, m) && DistinctIds(Membership(members))
    ensures Refines(Renewed(list, members), MapAfter(m, Membership(members)))
  {
    var genuine, after, m' := RealMembers(members), Renewed(list, members), MapAfter(m, Membership(members));
    hide RealMembers, Renewed, IndexOf;
    forall id: NodeId
      ensures Lookup(after, id) == if id in m' then Some(m'[id]) else None
    {
      if id in m' {
        var i :| 0 <= i < |genuine| && genuine[i].nodeid == id;
        assert after[i] == Entry(list, genuine[i]);
        LookupAt(after, i);
        assert genuine[i] in genuine && m'[id] == KeyOrZero(list, id);
      } else {
        forall i | 0 <= i < |after|
          ensures after[i].nodeid != id
        {
          assert genuine[i] in genuine;
        }
        LookupMissing(after, id);
      }
    }
  }

  lemma AnnouncedRefines(list: seq<NodeInfo>, m: map<NodeId, Key>, id: NodeId, k: Key)
    requires Refines(list, m)
    ensures Refines(Announced(list, id, k), m[id := k])
  {
    var after := Announced(list, id, k);
    forall other: NodeId
      ensures Lookup(after, other) == if other in m[id := k] then Some(m[id := k][other]) else None
    {
      var i := IndexOf(list, other);
      if i < |list| || other == id {
        assert after[i].nodeid == other;
        LookupAt(after, i);
      }
    }
  }

  function ListAfterAll(list: seq<NodeInfo>, cs: seq<Callback>): seq<NodeInfo>
    decreases |cs|
  {
    if cs == [] then list else ListAfterAll(ListAfter(list, cs[0]), cs[1..])
  }

  function MapAfterAll(m: map<NodeId, Key>, cs: seq<Callback>): map<NodeId, Key>
    decreases |cs|
  {
    if cs == [] then m else MapAfterAll(MapAfter(m, cs[0]), cs[1..])
  }

  /** Over any interleaving of callbacks the list has unique ids and stands for the reference map. */
  lemma {:induction false} CallbacksRefineMap(list: seq<NodeInfo>, m: map<NodeId, Key>, cs: seq<Callback>)
    requires Refines(list, m) && forall c | c in cs :: DistinctIds(c)
    ensures Refines(ListAfterAll(list, cs), MapAfterAll(m, cs))
    decreases |cs|
  {
    if cs == [] {
    } else {
      match cs[0] {
        case Membership(members) => RenewedRefines(list, m, members);
        case Announcement(id, text) => AnnouncedRefines(list, m, id, AnnouncedKey(text));
      }
      CallbacksRefineMap(ListAfter(list, cs[0]), MapAfter(m, cs[0]), cs[1..]);
    }
  }

  lemma {:induction false} RealMembersAre(members: seq<Member>, n: nat)
    requires n <= |members| && forall i | 0 <= i < n :: members[i].nodeid != QDEVICE_NODEID
    requires n < |members| ==> members[n].nodeid == QDEVICE_NODEID
    ensures RealMembers(members) == members[..n]
    decreases |members|
  {
    if n == 0 {
    } else {
      RealMembersAre(members[1..], n - 1);
      assert members[..n] == [members[0]] + members[1..][..n - 1];
    }
  }

  /** A renewed list has the members in front of the quorum device, in order, with their states. */
  lemma RenewedKeepsMembers(list: seq<NodeInfo>, members: seq<Member>, n: nat)
    requires n <= |members| && forall i | 0 <= i < n :: members[i].nodeid != QDEVICE_NODEID
    requires n < |members| ==> members[n].nodeid == QDEVICE_NODEID
    ensures |Renewed(list, members)| == n
    ensures forall i | 0 <= i < n ::
              var r := Renewed(list, members)[i]; r.nodeid == members[i].nodeid && r.state == members[i].state
  {
    RealMembersAre(members, n);
  }

  /** An announcement changes one key, or adds one entry at the end. */
  lemma AnnouncedKeepsOthers(list: seq<NodeInfo>, id: NodeId, k: Key)
    ensures var r := Announced(list, id, k);
            && (if Lookup(list, id).Some? then |r| == |list| else r == list + [NodeInfo(id, 0, k)])
            && (forall i | 0 <= i < |list| :: r[i].nodeid == list[i].nodeid && r[i].state == list[i].state)
            && (forall i | 0 <= i < |list| && list[i].nodeid != id :: r[i] == list[i])
  {
  }

  /** Text without the eye catcher announces no key. */
  lemma OtherTextAnnouncesNothing(text: string)
    requires !("Qdsk" <= text)
    ensures ScanShared(text) == None && AnnouncedKey(text) == 0
  {
  }

  /** The shared text is the eye catcher, a blank, and 16 digits. */
  lemma ShareTextIs(k: Key)
    ensures |ShareText(k)| == 21 && "Qdsk " <= ShareText(k)
    ensures forall i | 5 <= i < 21 :: '0' <= ShareText(k)[i] <= '9' || 'a' <= ShareText(k)[i] <= 'f'
  {
    HexTextIsLowerCase(k, 16);
    assert forall i | 5 <= i < 21 :: ShareText(k)[i] == KeyText(k)[i - 5];
  }

  /** A key shared by one node is the key that every node reading the announcement looks up. */
  lemma SharedKeyIsLookedUp(list: seq<NodeInfo>, m: map<NodeId, Key>, id: NodeId, k: Key)
    requires Refines(list, m)
    ensures Lookup(ListAfter(list, Announcement(id, ShareText(k))), id) == Some(k)
  {
    ShareTextScans(k);
    AnnouncedRefines(list, m, id, k);
  }

  // ---------- The keys of the nodes in sight ----------

  /** The key of a node: from the list, or else from its extra info. None is an error. */
  function NodeKey(list: seq<NodeInfo>, extra: NodeId -> ExtraInfo, id: NodeId): Option<Key> {
    if Lookup(list, id).Some? then Lookup(list, id)
    else if extra(id).Unavailable? then None
    else Some(AnnouncedKey(extra(id).text))
  }

  /** A node that is not in the list yet has the key that it shared; one in the list has the listed key. */
  lemma NodeKeyIsShared(list: seq<NodeInfo>, extra: NodeId -> ExtraInfo, id: NodeId, k: Key)
    ensures Lookup(list, id) == Some(k) ==> NodeKey(list, extra, id) == Some(k)
    ensures Lookup(list, id) == None && extra(id) == Text(ShareText(k)) ==> NodeKey(list, extra, id) == Some(k)
    ensures Lookup(list, id) == None && extra(id).Unavailable? ==> NodeKey(list, extra, id) == None
  {
    ShareTextScans(k);
  }

  /** The nonzero keys of the visible nodes, in order. None if a key cannot be fetched. */
  function KeysInSight(list: seq<NodeInfo>, extra: NodeId -> ExtraInfo, visible: seq<NodeId>): (r: Option<seq<Key>>)
    ensures r.Some? ==> |r.value| <= |visible|
  {
    if visible == [] then Some([])
    else
      var before := KeysInSight(list, extra, visible[..|visible| - 1]);
      var k := NodeKey(list, extra, visible[|visible| - 1]);
      if before.None? || k.None? then None
      else Some(if k.value == 0 then before.value else before.value + [k.value])
  }

  lemma {:induction false} KeysInSightAre(list: seq<NodeInfo>, extra: NodeId -> ExtraInfo, visible: seq<NodeId>)
    ensures var ks := KeysInSight(list, extra, visible);
            && (ks.None? <==> exists i | 0 <= i < |visible| :: NodeKey(list, extra, visible[i]).None?)
            && (ks.Some? ==> forall k: Key ::
                  k in ks.value <==>
                    k != 0 && exists i | 0 <= i < |visible| :: NodeKey(list, extra, visible[i]) == Some(k))
    decreases |visible|
  {
    hide NodeKey;
    if visible == [] {
    } else {
      var last, init := visible[|visible| - 1], visible[..|visible| - 1];
      KeysInSightAre(list, extra, init);
      assert visible == init + [last];
      var k := NodeKey(list, extra, last);
      assert exists i | 0 <= i < |visible| :: NodeKey(list, extra, visible[i]) == k by {
        assert visible[|visible| - 1] == last;
      }
      assert forall i | 0 <= i < |init| :: init[i] == visible[i];
    }
  }

  lemma NoKeysInSight(list: seq<NodeInfo>, extra: NodeId -> ExtraInfo, visible: seq<NodeId>)
    requires visible == []
    ensures KeysInSight(list, extra, visible) == Some([])
  {
  }

  /** The keys come in the order of the nodes, each node's own once. */
  lemma {:induction false} KeysInOrder(list: seq<NodeInfo>, extra: NodeId -> ExtraInfo, a: seq<NodeId>, b: seq<NodeId>)
    ensures var ka, kb := KeysInSight(list, extra, a), KeysInSight(list, extra, b);
            KeysInSight(list, extra, a + b) == if ka.None? || kb.None? then None else Some(ka.value + kb.value)
    decreases |b|
  {
    hide NodeKey;
    if b == [] {
      assert a + b == a;
      var ka := KeysInSight(list, extra, a);
      assert ka.Some? ==> ka.value + [] == ka.value;
    } else {
      var init, last := b[..|b| - 1], b[|b| - 1];
      assert (a + b)[..|a + b| - 1] == a + init && (a + b)[|a + b| - 1] == last;
      KeysInOrder(list, extra, a, init);
      var ka, ki, k := KeysInSight(list, extra, a), KeysInSight(list, extra, init), NodeKey(list, extra, last);
      if ka.Some? && ki.Some? && k.Some? {
        assert ka.value + ki.value + [k.value] == ka.value + (ki.value + [k.value]);
      }
    }
  }

  lemma KeyOfOne(list: seq<NodeInfo>, extra: NodeId -> ExtraInfo, id: NodeId)
    ensures KeysInSight(list, extra, [id])
            == match NodeKey(list, extra, id) case None => None case Some(k) => Some(if k == 0 then [] else [k])
  {
    hide NodeKey;
    NoKeysInSight(list, extra, [id][..0]);
    assert forall k: Key :: [] + [k] == [k];
  }

  /**
    At the state switch: the disk counts as reserved exactly when its holder key is not 0,
    and the holder counts as visible exactly when some visible node has that key.
   */
  lemma HolderVisibility(list: seq<NodeInfo>, extra: NodeId -> ExtraInfo, visible: seq<NodeId>,
                         n: Node, reply: Reply, c1: nat, c2: nat)
    requires n.phase.AskReserved? || n.phase.AskOwner?
    requires n.phase.view.keys == KeysInSight(list, extra, visible)
    ensures var m := Receive(n, reply, c1, c2);
            m.phase.AskKeys? ==>
              && (m.phase.snap.reserved <==> m.phase.snap.holder != 0)
              && (m.phase.snap.HolderVisible() <==>
                  && m.phase.snap.reserved
                  && exists i | 0 <= i < |visible| :: NodeKey(list, extra, visible[i]) == Some(m.phase.snap.holder))
  {
    KeysInSightAre(list, extra, visible);
  }

  lemma KeysInSightNext(list: seq<NodeInfo>, extra: NodeId -> ExtraInfo, visible: seq<NodeId>, i: nat)
    requires i < |visible| && KeysInSight(list, extra, visible[..i]).Some?
    ensures var k := NodeKey(list, extra, visible[i]);
            && (k.Some? ==>
                KeysInSight(list, extra, visible[..i + 1])
                == Some(KeysInSight(list, extra, visible[..i]).value + if k.value == 0 then [] else [k.value]))
            && (k.None? ==> KeysInSight(list, extra, visible).None?)
  {
    assert visible[..i + 1][..i] == visible[..i];
    var before := KeysInSight(list, extra, visible[..i]).value;
    assert before + [] == before;
    if NodeKey(list, extra, visible[i]).None? {
      KeysInSightAre(list, extra, visible);
    }
  }

  /** The node is not in the list, and its extra info holds no number. */
  predicate Malformed(list: seq<NodeInfo>, extra: NodeId -> ExtraInfo, id: NodeId) {
    Lookup(list, id).None? && extra(id).Text? && ScanShared(extra(id).text).None?
  }

  /** The node before the `i`th has no key, so that a 0 stands where the next key goes. */
  predicate AfterKeyless(list: seq<NodeInfo>, extra: NodeId -> ExtraInfo, visible: seq<NodeId>, i: nat)
    requires i <= |visible|
  {
    i > 0 && NodeKey(list, extra, visible[i - 1]) == Some(0)
  }

  /**
    Malformed text leaves the memory in place where its key should go. That memory is 0 for the
    first `n` nodes; `memory` is what the new buffer holds before it is written.
   */
  ghost predicate Clean(list: seq<NodeInfo>, extra: NodeId -> ExtraInfo, visible: seq<NodeId>, memory: seq<Key>, n: nat)
    requires n <= |visible| == |memory|
  {
    forall i | 0 <= i < n && Malformed(list, extra, visible[i]) && !AfterKeyless(list, extra, visible, i) ::
      var ks := KeysInSight(list, extra, visible[..i]);
      ks.Some? ==> memory[|ks.value|] == 0
  }

  /** The result does not depend on old memory if and only if malformed text comes only after a keyless node. */
  lemma CleanWhateverTheMemory(list: seq<NodeInfo>, extra: NodeId -> ExtraInfo, visible: seq<NodeId>)
    requires KeysInSight(list, extra, visible).Some?
    ensures (forall memory: seq<Key> | |memory| == |visible| :: Clean(list, extra, visible, memory, |visible|))
            <==>
            forall i | 0 <= i < |visible| && Malformed(list, extra, visible[i]) ::
              AfterKeyless(list, extra, visible, i)
  {
    hide Malformed, AfterKeyless, KeysInSight;
    var ones: seq<Key> := seq(|visible|, _ => 1);
    assert |ones| == |visible|;
    if Clean(list, extra, visible, ones, |visible|) {
      forall i | 0 <= i < |visible| && Malformed(list, extra, visible[i])
        ensures AfterKeyless(list, extra, visible, i)
      {
        KeysInSightAre(list, extra, visible);
        KeysInSightAre(list, extra, visible[..i]);
        assert forall j | 0 <= j < i :: visible[..i][j] == visible[j];
        assert KeysInSight(list, extra, visible[..i]).Some?;
      }
    }
  }

  lemma NoneToClean(list: seq<NodeInfo>, extra: NodeId -> ExtraInfo, visible: seq<NodeId>, memory: seq<Key>)
    requires |visible| == |memory|
    ensures Clean(list, extra, visible, memory, 0)
  {
  }

  lemma CleanNext(list: seq<NodeInfo>, extra: NodeId -> ExtraInfo, visible: seq<NodeId>, memory: seq<Key>, i: nat)
    requires i < |visible| == |memory| && KeysInSight(list, extra, visible[..i]).Some?
    ensures Clean(list, extra, visible, memory, i + 1) <==>
              && Clean(list, extra, visible, memory, i)
              && (Malformed(list, extra, visible[i]) && !AfterKeyless(list, extra, visible, i) ==>
                  memory[|KeysInSight(list, extra, visible[..i]).value|] == 0)
  {
    hide Malformed, AfterKeyless, KeysInSight;
  }

  // ---------- The callbacks and queries themselves ----------

  class Cache {
    var nodeList: seq<NodeInfo>
    var visible: array<NodeId>
    var visibleEntries: nat
    var ringId: RingId
    var quorate: bool
    var qdiskKey: Key
    var shared: seq<string>

    /** The visible nodes stand at the front of a buffer that only grows. */
    ghost predicate Valid()
      reads this
    {
      visibleEntries <= visible.Length
    }

    ghost function VisibleNodes(): (list: seq<NodeId>)
      requires Valid()
      reads this, visible
      ensures |list| == visibleEntries
    {
      visible[..visibleEntries]
    }

    constructor ()
      ensures Valid() && VisibleNodes() == [] && fresh(visible) && ringId == RingId(0, 0)
      ensures nodeList == [] && !quorate && qdiskKey == 0 && shared == []
    {
      nodeList, quorate, qdiskKey, shared := [], false, 0, [];
      visible, visibleEntries, ringId := new NodeId[0], 0, RingId(0, 0);
    }

    /** A callback that leaves the visible nodes alone. */
    twostate predicate SeesTheSame()
      reads this
    {
      visible == old(visible) && visibleEntries == old(visibleEntries) && ringId == old(ringId)
    }

    /** The inner loop of quorum_notification_fn: the key we know for a node, if any. */
    method PreviousKey(nodeid: NodeId) returns (diskKey: Key)
      ensures diskKey == KeyOrZero(nodeList, nodeid)
    {
      var j := 0;
      while j < |nodeList|
        invariant j <= |nodeList|
        invariant forall k | 0 <= k < j :: nodeList[k].nodeid != nodeid
      {
        if nodeid == nodeList[j].nodeid {
          assert IndexOf(nodeList, nodeid) == j;
          return nodeList[j].diskKey;
        }
        j := j + 1;
      }
      LookupMissing(nodeList, nodeid);
      return 0;
    }

    /** quorum_notification_fn. */
    method QuorumNotification(quorate: bool, members: seq<Member>)
      modifies this
      ensures nodeList == Renewed(old(nodeList), members)
      ensures this.quorate == quorate
      ensures shared == old(shared) + if qdiskKey != 0 then [ShareText(qdiskKey)] else []
      ensures SeesTheSame() && qdiskKey == old(qdiskKey)
    {
      hide RealMembers, Renewed, KeyOrZero;
      var newNodeList: seq<NodeInfo> := [];
      var i := 0;
      while i < |members|
        invariant i <= |members| && |newNodeList| == i
        invariant forall k | 0 <= k < i ::
                    members[k].nodeid != QDEVICE_NODEID && newNodeList[k] == Entry(nodeList, members[k])
        invariant nodeList == old(nodeList) && qdiskKey == old(qdiskKey)
        invariant shared == old(shared) && SeesTheSame()
      {
        if members[i].nodeid == QDEVICE_NODEID {
          break;
        }
        var diskKey := PreviousKey(members[i].nodeid);
        newNodeList := newNodeList + [NodeInfo(members[i].nodeid, members[i].state, diskKey)];
        i := i + 1;
      }
      RealMembersAre(members, i);
      nodeList := newNodeList;
      this.quorate := quorate;
      if qdiskKey != 0 {
        shared := shared + [ShareText(qdiskKey)];
      }
    }

    /** nodelist_notification_fn: the list goes into the buffer, which grows if it is too small. */
    method NodelistNotification(ringId: RingId, list: seq<NodeId>)
      requires Valid()
      modifies this, visible
      ensures Valid() && VisibleNodes() == list && this.ringId == ringId
      ensures visible == old(visible) || fresh(visible)
      ensures visible.Length == if old(visible.Length) < |list| then |list| else old(visible.Length)
      ensures nodeList == old(nodeList) && quorate == old(quorate) && qdiskKey == old(qdiskKey) && shared == old(shared)
    {
      if visible.Length < |list| {
        visible := new NodeId[|list|];
      }
      var buffer := visible;
      var i := 0;
      while i < |list|
        invariant i <= |list| <= buffer.Length && buffer[..i] == list[..i]
        modifies buffer
      {
        buffer[i] := list[i];
        i := i + 1;
      }
      visibleEntries, this.ringId := |list|, ringId;
    }

    /** qdevice_extra_info_notify. */
    method ExtraInfoNotify(nodeid: NodeId, extraInfo: string)
      modifies this
      ensures nodeList == Announced(old(nodeList), nodeid, AnnouncedKey(extraInfo))
      ensures SeesTheSame() && quorate == old(quorate)
      ensures qdiskKey == old(qdiskKey) && shared == old(shared)
    {
      var diskKey: Key := 0;
      if extraInfo != "" {
        var scanned := ScanShared(extraInfo);
        if scanned.Some? {
          diskKey := scanned.value;
        }
      }
      var i := 0;
      while i < |nodeList|
        invariant i <= |nodeList| && nodeList == old(nodeList)
        invariant forall j | 0 <= j < i :: nodeList[j].nodeid != nodeid
        invariant shared == old(shared)
      {
        if nodeid == nodeList[i].nodeid {
          assert IndexOf(nodeList, nodeid) == i;
          nodeList := nodeList[i := nodeList[i].(diskKey := diskKey)];
          return;
        }
        i := i + 1;
      }
      nodeList := nodeList + [NodeInfo(nodeid, 0, diskKey)];
    }

    /** vquorum_get_node_key. A text without a number leaves `prior` in place. */
    method GetNodeKey(nodeid: NodeId, prior: Key, extra: NodeId -> ExtraInfo) returns (ok: bool, key: Key)
      ensures ok <==> NodeKey(nodeList, extra, nodeid).Some?
      ensures ok ==> if Malformed(nodeList, extra, nodeid) then key == prior
                     else NodeKey(nodeList, extra, nodeid) == Some(key)
      ensures Malformed(nodeList, extra, nodeid) ==> NodeKey(nodeList, extra, nodeid) == Some(0)
    {
      var i := 0;
      while i < |nodeList|
        invariant i <= |nodeList|
        invariant forall j | 0 <= j < i :: nodeList[j].nodeid != nodeid
      {
        if nodeList[i].nodeid == nodeid {
          assert IndexOf(nodeList, nodeid) == i;
          return true, nodeList[i].diskKey;
        }
        i := i + 1;
      }
      var info := extra(nodeid);
      if info.Unavailable? {
        return false, prior;
      }
      var scanned := ScanShared(info.text);
      return true, if scanned.Some? then scanned.value else prior;
    }

    /**
      vquorum_get_node_key_list: keys are fetched into a new buffer, and zeros are overwritten. The
      keys are those in sight if and only if malformed text finds only zeros in the buffer; if
      not, numbers that are nobody's key come on top.
     */
    method GetNodeKeyList(extra: NodeId -> ExtraInfo, memory: seq<Key>) returns (keys: Option<seq<Key>>)
      requires Valid() && |memory| == visibleEntries
      ensures keys.None? <==> KeysInSight(nodeList, extra, VisibleNodes()).None?
      ensures keys.Some? ==>
                && (keys == KeysInSight(nodeList, extra, VisibleNodes())
                    <==> Clean(nodeList, extra, VisibleNodes(), memory, visibleEntries))
                && forall k | k in KeysInSight(nodeList, extra, VisibleNodes()).value :: k in keys.value
    {
      hide KeysInSight, Lookup, Malformed, Clean;
      var seen := visible[..visibleEntries];
      var res := new Key[|seen|](i requires 0 <= i < |memory| => memory[i]);
      var i, j := 0, 0;
      NoKeysInSight(nodeList, extra, seen[..0]);
      NoneToClean(nodeList, extra, seen, memory);
      while i < |seen|
        invariant j <= i <= |seen| && seen == VisibleNodes()
        invariant KeysInSight(nodeList, extra, seen[..i]).Some?
        invariant forall k | k in KeysInSight(nodeList, extra, seen[..i]).value :: k in res[..j]
        invariant forall k | j < k < |seen| :: res[k] == memory[k]
        invariant if Clean(nodeList, extra, seen, memory, i)
                  then
                    && KeysInSight(nodeList, extra, seen[..i]).value == res[..j]
                    && (j < |seen| ==> res[j] == if AfterKeyless(nodeList, extra, seen, i) then 0 else memory[j])
                  else j > |KeysInSight(nodeList, extra, seen[..i]).value|
      {
        KeysInSightNext(nodeList, extra, seen, i);
        CleanNext(nodeList, extra, seen, memory, i);
        ghost var before := res[..j];
        var ok, key := GetNodeKey(seen[i], res[j], extra);
        if !ok {
          return None;
        }
        res[j] := key;
        assert res[..j] == before && res[..j + 1] == before + [key];
        if res[j] != 0 {
          j := j + 1;
        }
        i := i + 1;
      }
      assert seen[..i] == seen;
      return Some(res[..j]);
    }
  }
}
