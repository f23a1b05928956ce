/**
  The daemon of one node as a machine that advances one disk command at a time.
  A heartbeat starts with `Begin` and then receives the reply to each command it issues,
  so that the steps of other nodes can fall between any two of its commands.
 */
module NodeMachine {
  import opened SharedDisk

  /** The initial value of the missed-heartbeat cutoff. */
  const UINT64_MAX: nat := 0xFFFF_FFFF_FFFF_FFFF

  type NodeId = nat

  datatype State = START | IDLE | RESERVE_DISK | RECV_VOTE | HAVE_QDISK | RELEASE_QDISK | RESIGNED

  /** What votequorum and cmap report; `keys` is None when the node keys cannot be fetched. */
  datatype View = View(quorate: bool, visible: nat, nodeCount: nat, keys: Option<seq<Key>>)
  {
    predicate Tie() { visible * 2 == nodeCount }
    predicate Minority() { visible * 2 < nodeCount }
    predicate Majority() { visible * 2 > nodeCount }
    predicate Sees(k: Key) { k != 0 && keys.Some? && k in keys.value }
  }

  /** What a heartbeat knows when it reaches the state switch. */
  datatype Snapshot = Snapshot(view: View, reserved: bool, holder: Key)
  {
    predicate HolderVisible() { view.Sees(holder) }
  }

  datatype Reason =
    | NotStarted | BootFailed | Crashed | Stopped | MissedHeartbeats | KeyZero | KeyGone | LostReservation

  /** Where a daemon stands; each phase but `Rest` and `Down` has one call in flight. */
  datatype Phase =
    | Rest
    | AskReserved(view: View)
    | AskOwner(view: View)
    | StrayRelease
    | AskKeys(snap: Snapshot)
    | DoReserve(snap: Snapshot)
    | DoRelease
    | Recheck
    | StopRelease(why: Reason)
    | StopUnregister(why: Reason)
    | Down(why: Reason)
    | BootValidate(nodeKeys: seq<Key>)
    | BootReserved
    | BootOwner
    | BootRelease
    | BootJoin
    | BootRegister
    | BootShare
    | BootUnregister

  /** A vote given to votequorum. Withdrawing the device counts as a vote of 0. */
  datatype Poll = Poll(vote: bool, at: nat)

  /**
    `deadline` is `timeout_time`, `cutoff` is `good_heartbeat_timeout`. The last three
    fields record the past: the latest clock reading, the votes given, and the number of
    heartbeats that ran to their end.
   */
  datatype Node = Node(
    key: Key, timeout: nat,
    state: State, deadline: nat, cutoff: nat, phase: Phase,
    clock: nat, polls: seq<Poll>, beats: nat)
  {
    predicate Serving() {
      phase.Rest? || phase.AskReserved? || phase.AskOwner? || phase.StrayRelease? ||
      phase.AskKeys? || phase.DoReserve? || phase.DoRelease? || phase.Recheck?
    }

    predicate Waiting() { !phase.Rest? && !phase.Down? }

    predicate In(s: State) { Serving() && state == s }

    predicate LastVote() { polls != [] && polls[|polls| - 1].vote }
  }

  /** The command in flight. */
  function Pending(p: Phase): Command
    requires !p.Rest? && !p.Down?
  {
    match p
    case AskReserved(_) => IsReserved
    case AskOwner(_) => ReadOwner
    case AskKeys(_) => ReadKeys
    case DoReserve(_) => Reserve
    case Recheck => IsReserved
    case StopUnregister(_) => Unregister
    case BootValidate(_) => ReadKeys
    case BootReserved => IsReserved
    case BootOwner => ReadOwner
    case BootJoin => Join
    case BootRegister => Register
    case BootShare => Share
    case BootUnregister => Unregister
    case _ => Release
  }

  /** The end of a heartbeat: poll unless skipped, then move the cutoff. */
  function Finish(n: Node, state: State, deadline: nat, vote: Option<bool>, c2: nat): Node {
    n.(state := state, deadline := deadline,
       polls := if vote.Some? then n.polls + [Poll(vote.value, c2)] else n.polls,
       cutoff := c2 + n.timeout, clock := c2, beats := n.beats + 1, phase := Rest)
  }

  /** The process is gone; a later start finds the static variables at their initial values. */
  function Halt(n: Node, why: Reason): Node {
    n.(phase := Down(why), state := START, deadline := 0, cutoff := UINT64_MAX)
  }

  /** The vote device is withdrawn, and the process ends. */
  function Withdraw(n: Node, why: Reason): Node {
    Halt(n.(polls := n.polls + [Poll(false, n.clock)]), why)
  }

  /** A heartbeat that is given up: no poll, and the cutoff stays. */
  function Skip(n: Node): Node { n.(phase := Rest) }

  function Begin(n: Node, c0: nat, view: View): Node {
    if n.cutoff < c0 then n.(clock := c0, phase := StopRelease(MissedHeartbeats))
    else n.(clock := c0, phase := AskReserved(view))
  }

  /** A start needs the keys of the nodes in sight before its first command. */
  function BeginBoot(n: Node, nodeKeys: Option<seq<Key>>): Node {
    if nodeKeys.None? then Withdraw(n, BootFailed) else n.(phase := BootValidate(nodeKeys.value))
  }

  function FetchNodeKeys(n: Node, snap: Snapshot): Node {
    if snap.view.keys.None? then Skip(n) else n.(phase := AskKeys(snap))
  }

  function Switch(n: Node, snap: Snapshot, c1: nat, c2: nat): Node {
    var v := snap.view;
    match n.state
    case START => Finish(n, if v.quorate then IDLE else START, n.deadline, Some(false), c2)
    case IDLE =>
      if v.Tie() then
        if snap.HolderVisible() then Finish(n, RECV_VOTE, c1 + n.timeout, Some(true), c2)
        else if !snap.reserved then Finish(n, RESERVE_DISK, c1 + n.timeout, Some(true), c2)
        else if c1 > n.deadline then Finish(n, RESIGNED, n.deadline, Some(false), c2)
        else Finish(n, IDLE, n.deadline, None, c2)
      else if v.Minority() then Finish(n, RESIGNED, n.deadline, Some(false), c2)
      else Finish(n, IDLE, c1 + n.timeout, Some(true), c2)
    case RESERVE_DISK => n.(phase := DoReserve(snap))
    case RECV_VOTE =>
      if snap.HolderVisible() && v.Tie() then Finish(n, RECV_VOTE, c1 + n.timeout, Some(true), c2)
      else Finish(n, if c1 > n.deadline then IDLE else RECV_VOTE, n.deadline, Some(true), c2)
    case HAVE_QDISK =>
      if !snap.reserved || snap.holder != n.key then Halt(n, LostReservation)
      else Finish(n, if v.Tie() then HAVE_QDISK else RELEASE_QDISK, n.deadline, Some(true), c2)
    case RELEASE_QDISK => n.(phase := DoRelease)
    case RESIGNED => Finish(n, if v.quorate then IDLE else RESIGNED, n.deadline, Some(false), c2)
  }

  function AfterReserve(n: Node, snap: Snapshot, ok: bool, c1: nat, c2: nat): Node {
    if ok then Finish(n, HAVE_QDISK, n.deadline, Some(true), c2)
    else if snap.HolderVisible() then Finish(n, RECV_VOTE, n.deadline, Some(true), c2)
    else if snap.reserved then Finish(n, RESIGNED, n.deadline, Some(false), c2)
    else if c1 > n.deadline then Finish(n, RESIGNED, n.deadline, Some(false), c2)
    else Finish(n, RESERVE_DISK, n.deadline, None, c2)
  }

  /**
    The daemon takes the reply to its pending command and issues the next one. `c1` and
    `c2` are the clock readings of the switch and of the end of the heartbeat.
   */
  function Receive(n: Node, reply: Reply, c1: nat, c2: nat): Node
    requires n.Waiting()
  {
    match n.phase
    case AskReserved(v) =>
      if reply == Flag(true) then n.(phase := AskOwner(v))
      else if reply == Flag(false) then FetchNodeKeys(n, Snapshot(v, false, 0))
      else Skip(n)
    case AskOwner(v) =>
      if !reply.Holder? then Skip(n)
      else if reply.key == 0 then n.(phase := StopRelease(KeyZero))
      else if n.state != HAVE_QDISK && n.state != RELEASE_QDISK && n.state != RESERVE_DISK && reply.key == n.key
      then n.(phase := StrayRelease)
      else FetchNodeKeys(n, Snapshot(v, true, reply.key))
    case StrayRelease => Skip(n)
    case AskKeys(snap) =>
      if !reply.Registered? then Skip(n)
      else if n.key !in reply.keys then n.(phase := StopRelease(KeyGone))
      else Switch(n, snap, c1, c2)
    case DoReserve(snap) => AfterReserve(n, snap, reply == Flag(true), c1, c2)
    case DoRelease =>
      if reply == Flag(true) then Finish(n, IDLE, n.deadline, Some(true), c2) else n.(phase := Recheck)
    case Recheck =>
      Finish(n, if reply == Flag(false) then IDLE else n.state, n.deadline, Some(true), c2)
    case StopRelease(why) => n.(phase := StopUnregister(why))
    case StopUnregister(why) => Withdraw(n, why)
    case BootValidate(nodeKeys) =>
      if reply.Registered? && forall k | k in nodeKeys :: k in reply.keys then n.(phase := BootReserved)
      else Withdraw(n, BootFailed)
    case BootReserved => n.(phase := if reply == Flag(true) then BootOwner else BootJoin)
    case BootOwner =>
      if reply == Holder(n.key) then n.(phase := BootRelease)
      else if reply == Holder(0) then Withdraw(n, KeyZero)
      else n.(phase := BootJoin)
    case BootRelease => if n.key == 0 then Withdraw(n, KeyZero) else n.(phase := BootJoin)
    case BootJoin => if reply == Flag(true) then n.(phase := BootRegister) else Withdraw(n, BootFailed)
    case BootRegister => if reply == Flag(true) then n.(phase := BootShare) else Withdraw(n, BootFailed)
    case BootShare => if reply == Flag(true) then n.(phase := Rest) else n.(phase := BootUnregister)
    case BootUnregister => Withdraw(n, BootFailed)
  }

  /** Everything that can happen to one node. */
  datatype Act =
    | Tick(c0: nat, view: View)
    | Got(reply: Reply, c1: nat, c2: nat)
    | Boot(nodeKeys: Option<seq<Key>>)
    | Shutdown
    | Crash

  /** Acts that can happen in `n`'s phase, with clock readings that do not run backwards. */
  predicate Enabled(n: Node, a: Act) {
    match a
    case Tick(c0, _) => n.phase.Rest? && n.clock <= c0
    case Got(_, c1, c2) => n.Waiting() && n.clock <= c1 <= c2
    case Boot(_) => n.phase.Down?
    case Shutdown => n.phase.Rest?
    case Crash => !n.phase.Down?
  }

  function Step(n: Node, a: Act): Node
    requires Enabled(n, a)
  {
    match a
    case Tick(c0, view) => Begin(n, c0, view)
    case Got(reply, c1, c2) => Receive(n, reply, c1, c2)
    case Boot(nodeKeys) => BeginBoot(n, nodeKeys)
    case Shutdown => n.(phase := StopRelease(Stopped))
    case Crash => Halt(n, Crashed)
  }

  /** A heartbeat of `n` runs to its end in act `a`. */
  predicate Completes(n: Node, a: Act)
    requires Enabled(n, a)
  {
    Step(n, a).beats > n.beats
  }

  predicate IsRun(n: Node, acts: seq<Act>)
    decreases |acts|
  {
    acts == [] || (Enabled(n, acts[0]) && IsRun(Step(n, acts[0]), acts[1..]))
  }

  function Run(n: Node, acts: seq<Act>): Node
    requires IsRun(n, acts)
    decreases |acts|
  {
    if acts == [] then n else Run(Step(n, acts[0]), acts[1..])
  }

  /** How many more commands a daemon can issue before it rests or is down. */
  function CommandsLeft(p: Phase): nat {
    match p
    case Rest => 0
    case Down(_) => 0
    case StopUnregister(_) => 1
    case StopRelease(_) => 2
    case Recheck => 1
    case DoRelease => 2
    case DoReserve(_) => 1
    case AskKeys(_) => 3
    case StrayRelease => 1
    case AskOwner(_) => 4
    case AskReserved(_) => 5
    case BootUnregister => 1
    case BootShare => 2
    case BootRegister => 3
    case BootJoin => 4
    case BootRelease => 5
    case BootOwner => 6
    case BootReserved => 7
    case BootValidate(_) => 8
  }

  /** A reply outside service ends no heartbeat, and brings no vote but the withdrawal. */
  lemma OfflineReply(n: Node, reply: Reply, c1: nat, c2: nat)
    requires n.Waiting() && !n.Serving()
    ensures var m := Receive(n, reply, c1, c2);
            && m.beats == n.beats && (m.state == n.state || m.state == START)
            && (m.Serving() ==> m.phase.Rest?)
            && (m.polls == n.polls || m.polls == n.polls + [Poll(false, n.clock)])
  {
    hide Switch, AfterReserve, Finish;
  }

  predicate KeepsPast(n: Node, m: Node) {
    && m.key == n.key && m.timeout == n.timeout && n.clock <= m.clock
    && n.polls <= m.polls && n.beats <= m.beats <= n.beats + 1
  }

  lemma SwitchKeepsPast(n: Node, snap: Snapshot, c1: nat, c2: nat)
    requires n.clock <= c1 <= c2
    ensures KeepsPast(n, Switch(n, snap, c1, c2))
  {
  }

  lemma ReserveKeepsPast(n: Node, snap: Snapshot, ok: bool, c1: nat, c2: nat)
    requires n.clock <= c1 <= c2
    ensures KeepsPast(n, AfterReserve(n, snap, ok, c1, c2))
  {
  }

  /** The clock only moves forward, and the record of votes only grows. */
  lemma StepKeepsPast(n: Node, a: Act)
    requires Enabled(n, a)
    ensures KeepsPast(n, Step(n, a))
  {
    hide Switch, AfterReserve;
    if a.Got? && n.phase.AskKeys? {
      SwitchKeepsPast(n, n.phase.snap, a.c1, a.c2);
    } else if a.Got? && n.phase.DoReserve? {
      ReserveKeepsPast(n, n.phase.snap, a.reply == Flag(true), a.c1, a.c2);
    }
  }
}
