/**
  The shared disk as its reservation commands show it: the registered keys and at
  most one holder. The rules are those of persistent reservations in SPC-3 (section 5.6)
  and the NVMe specification (section 8.8), for the "registrants only" reservation types
  that the daemon asks for.
 */
module SharedDisk {

  datatype Option<+T> = None | Some(value: T)

  /** A reservation key is a 64-bit number; 0 is the value that means "no key". */
  type Key = k: nat | k < 0x1_0000_0000_0000_0000

  datatype Disk = Disk(registered: seq<Key>, holder: Option<Key>)

  /** A command may fail before the disk sees it, or after the disk has acted on it. */
  datatype Fault = NoFault | LostBefore | LostAfter

  /** What a caller gets back; `Failed` covers every error status. */
  datatype Reply =
    | Failed
    | Flag(flag: bool)
    | Holder(key: Key)
    | Registered(keys: seq<Key>)

  /** `Join` and `Share` are the two votequorum calls of start-up; the disk never sees them. */
  datatype Command =
    | IsReserved | ReadOwner | ReadKeys | Reserve | Release | Register | Unregister
    | Join | Share

  function With(keys: seq<Key>, k: Key): (r: seq<Key>)
    ensures forall x :: x in r <==> x in keys || x == k
  {
    if k in keys then keys else keys + [k]
  }

  function Without(keys: seq<Key>, k: Key): (r: seq<Key>)
    ensures forall x :: x in r <==> x in keys && x != k
  {
    if keys == [] then [] else (if keys[0] == k then [] else [keys[0]]) + Without(keys[1..], k)
  }

  predicate MayReserve(d: Disk, k: Key) {
    k != 0 && k in d.registered && (d.holder == None || d.holder == Some(k))
  }

  /** The disk after it has acted on command `c` issued with key `k`. */
  function Effect(d: Disk, c: Command, k: Key): Disk {
    match c
    case Reserve => if MayReserve(d, k) then d.(holder := Some(k)) else d
    case Release => if d.holder == Some(k) then d.(holder := None) else d
    case Register => d.(registered := With(d.registered, k))
    case Unregister =>
      Disk(Without(d.registered, k), if d.holder == Some(k) then None else d.holder)
    case _ => d
  }

  /** The disk's own answer to command `c` issued with key `k`. */
  function Answer(d: Disk, c: Command, k: Key): Reply {
    match c
    case IsReserved => Flag(d.holder.Some?)
    case ReadOwner => if d.holder.Some? then Holder(d.holder.value) else Failed
    case ReadKeys => Registered(d.registered)
    case Reserve => Flag(MayReserve(d, k))
    case Release => Flag(k in d.registered)
    case Register => Flag(true)
    case Unregister => Flag(k in d.registered)
    case Join => Flag(true)
    case Share => Flag(true)
  }

  /** One command as seen from outside, under fault `f`. */
  function Perform(d: Disk, c: Command, k: Key, f: Fault): (Disk, Reply) {
    match f
    case NoFault => (Effect(d, c, k), Answer(d, c, k))
    case LostBefore => (d, Failed)
    case LostAfter => (Effect(d, c, k), Failed)
  }

  /** A preempt is a conflict unless both keys are registered. */
  predicate MayPreempt(d: Disk, k: Key, victim: Key) {
    k != 0 && k in d.registered && victim in d.registered
  }

  /**
    Preempt and abort, issued with key `k`. The victim loses its registration, and if it was the
    holder, `k` is the holder now. A holder that preempts itself stays registered.
   */
  function Preempted(d: Disk, k: Key, victim: Key): Disk {
    if !MayPreempt(d, k, victim) || d.holder == Some(k) == Some(victim) then d
    else Disk(Without(d.registered, victim), if d.holder == Some(victim) then Some(k) else d.holder)
  }

  // ---------- What the standards promise ----------

  /** A reserve is accepted exactly when it leaves a registered key holding the disk, and else changes nothing. */
  lemma ReserveTakesOrLeaves(d: Disk, k: Key)
    requires k != 0
    ensures Answer(d, Reserve, k) == Flag(true) <==> k in d.registered && Effect(d, Reserve, k).holder == Some(k)
    ensures Answer(d, Reserve, k) == Flag(true) <==> k in d.registered && (d.holder.Some? ==> d.holder == Some(k))
    ensures Answer(d, Reserve, k) != Flag(true) ==> Effect(d, Reserve, k) == d
  {
  }

  /** No command of key `k` but a preempt touches another key's registration or reservation. */
  lemma OthersStay(d: Disk, c: Command, k: Key, f: Fault)
    ensures var d' := Perform(d, c, k, f).0;
            && (forall x | x != k :: x in d'.registered <==> x in d.registered)
            && (d.holder.Some? && d.holder != Some(k) ==> d'.holder == d.holder)
            && (d'.holder == d.holder || d.holder == Some(k) || (c == Reserve && d'.holder == Some(k)))
  {
  }

  /** Registering, releasing and unregistering do what they say; a reply that is no failure is the disk's own. */
  lemma CommandsTakeEffect(d: Disk, k: Key)
    ensures k in Effect(d, Register, k).registered && Effect(d, Register, k).holder == d.holder
    ensures Effect(d, Release, k).holder != Some(k) && Effect(d, Release, k).registered == d.registered
    ensures k !in Effect(d, Unregister, k).registered && Effect(d, Unregister, k).holder != Some(k)
    ensures k in d.registered ==> Answer(d, Release, k) == Flag(true) == Answer(d, Unregister, k)
    ensures forall c | c == IsReserved || c == ReadOwner || c == ReadKeys || c == Join || c == Share ::
              Effect(d, c, k) == d
  {
  }

  /** A preempt of another registered key removes that key, and passes its reservation on. */
  lemma PreemptPassesOn(d: Disk, k: Key, victim: Key)
    requires k != 0 && k != victim && k in d.registered && victim in d.registered
    ensures var d' := Preempted(d, k, victim);
            && (forall x :: x in d'.registered <==> x in d.registered && x != victim)
            && d'.holder == (if d.holder == Some(victim) then Some(k) else d.holder)
  {
  }
}
