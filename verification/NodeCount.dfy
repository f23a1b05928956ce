/** The number of configured nodes, counted from cmap's keys in their sorted order. */
module NodeCount {
  import opened SharedDisk
  import opened Scanf

  const PREFIX := "nodelist.node."

  /** The initial value of the last position, `(uint32_t)-1`. */
  const NO_POSITION: nat := 0xFFFF_FFFF

  /** "nodelist.node.%u.%s" converts both of its fields. */
  function ScanPosition(key: string): Option<nat> {
    var digits := Literal(key, PREFIX);
    if digits.None? then None
    else
      var scanned := ScanNumber(digits.value, 10, |digits.value|);
      if scanned.None? then None
      else
        var rest := Literal(scanned.value.rest, ".");
        if rest.None? || SkipSpace(rest.value) == "" then None
        else Some(scanned.value.value % TWO32)
  }

  /** The positions of the keys that convert, in order. */
  function Positions(keys: seq<string>): seq<nat> {
    if keys == [] then []
    else
      var p := ScanPosition(keys[|keys| - 1]);
      Positions(keys[..|keys| - 1]) + if p.Some? then [p.value] else []
  }

  function LastOf(ps: seq<nat>, last: nat): nat { if ps == [] then last else ps[|ps| - 1] }

  /** How often a position differs from the one before it; `last` stands before the first. */
  function Changes(ps: seq<nat>, last: nat): nat {
    if ps == [] then 0
    else
      var before := ps[..|ps| - 1];
      Changes(before, last) + if LastOf(before, last) != ps[|ps| - 1] then 1 else 0
  }

  // ---------- Sorted keys ----------

  /** strcmp order. */
  predicate Before(a: string, b: string) {
    if a == "" then true
    else if b == "" then false
    else if a[0] != b[0] then a[0] < b[0]
    else Before(a[1..], b[1..])
  }

  ghost predicate Sorted(keys: seq<string>) {
    forall i, j | 0 <= i < j < |keys| :: Before(keys[i], keys[j])
  }

  /** What lies between two strings with a common prefix has that prefix. */
  lemma {:induction false} BetweenHasPrefix(prefix: string, a: string, b: string, c: string)
    requires prefix <= a && prefix <= c && Before(a, b) && Before(b, c)
    ensures prefix <= b
    decreases |prefix|
  {
    if prefix == "" {
    } else {
      assert a[0] == c[0] == prefix[0] && b != "" && b[0] == a[0];
      BetweenHasPrefix(prefix[1..], a[1..], b[1..], c[1..]);
      assert b == [b[0]] + b[1..];
    }
  }

  // ---------- Canonical positions ----------

  function Decimal(p: nat): (s: string)
    ensures s != "" && AllDigits(s, 10)
  {
    Numeral(p, 10)
  }

  /** How every key of node position `p` begins. */
  function Stem(p: nat): string { PREFIX + Decimal(p) + "." }

  /** What "%u" makes of a number: 64 bits at most, of which 32 are kept. */
  function Kept(p: nat): nat { (if p < TWO64 then p else TWO64 - 1) % TWO32 }

  /** Only keys below the prefix convert. */
  lemma OnlyNodeKeysConvert(key: string)
    ensures ScanPosition(key).Some? ==> PREFIX <= key && ScanPosition(key).value < TWO32
  {
  }

  lemma KnownStems()
    ensures Stem(0) == "nodelist.node.0." && Stem(1) == "nodelist.node.1." && Stem(12) == "nodelist.node.12."
    ensures !(PREFIX <= "nodelist.local_node_pos")
  {
    assert "nodelist.local_node_pos"[9] == 'l' && PREFIX[9] == 'n';
    assert Decimal(0) == "0" && Decimal(1) == "1" && Decimal(12) == "12" by {
      assert Numeral(1, 10) == "1";
    }
    assert PREFIX + "0" + "." == "nodelist.node.0.";
    assert PREFIX + "1" + "." == "nodelist.node.1.";
    assert PREFIX + "12" + "." == "nodelist.node.12.";
  }

  lemma DecimalScans(p: nat, name: string, width: nat)
    requires |Decimal(p)| <= width
    ensures ScanNumber(Decimal(p) + ("." + name), 10, width)
            == Some(Scanned(if p < TWO64 then p else TWO64 - 1, "." + name))
  {
    NumeralValue(p, 10);
    ScanDigits(Decimal(p), "." + name, 10, width);
  }

  /** A key with the stem of `p` converts to `p`, cut to 32 bits, if a name follows the stem. */
  lemma StemScans(key: string, p: nat)
    requires Stem(p) <= key
    ensures ScanPosition(key) == if SkipSpace(key[|Stem(p)|..]) == "" then None else Some(Kept(p))
  {
    hide ScanNumber, Value, AllDigits, Digit;
    var name := key[|Stem(p)|..];
    var rest := "." + name;
    assert key == PREFIX + (Decimal(p) + rest) by {
      assert key == Stem(p) + name;
    }
    assert key[|PREFIX|..] == Decimal(p) + rest;
    DecimalScans(p, name, |Decimal(p) + rest|);
    assert rest[1..] == name;
  }

  /** Keys as cmap has them. */
  lemma KnownKeys()
    ensures ScanPosition("nodelist.node.0.nodeid") == Some(0)
    ensures ScanPosition("nodelist.node.12.ring0_addr") == Some(12)
    ensures ScanPosition("nodelist.node.1.") == None && ScanPosition("nodelist.local_node_pos") == None
  {
    hide ScanPosition, Stem, Decimal;
    KnownStems();
    StemScans("nodelist.node.0.nodeid", 0);
    StemScans("nodelist.node.12.ring0_addr", 12);
    StemScans("nodelist.node.1.", 1);
    OnlyNodeKeysConvert("nodelist.local_node_pos");
  }

  /** Every key that converts names its position without sign, white space or leading zeros. */
  ghost predicate Canonical(keys: seq<string>) {
    forall i | 0 <= i < |keys| && ScanPosition(keys[i]).Some? :: Stem(ScanPosition(keys[i]).value) <= keys[i]
  }

  ghost predicate Contiguous(ps: seq<nat>) {
    forall i, j, k | 0 <= i < j < k < |ps| && ps[i] == ps[k] :: ps[j] == ps[i]
  }

  /** Some key converts to position `p`. */
  ghost predicate Occurs(keys: seq<string>, p: nat) {
    exists i :: 0 <= i < |keys| && ScanPosition(keys[i]) == Some(p)
  }

  /** The node positions that the keys name. */
  ghost function NodePositions(keys: seq<string>): (ps: set<nat>)
    ensures forall p: nat :: p in ps <==> Occurs(keys, p)
  {
    set i | 0 <= i < |keys| && ScanPosition(keys[i]).Some? :: ScanPosition(keys[i]).value
  }

  /** Every position of a key that converts is counted, and no other. */
  lemma {:induction false} PositionsAreThose(keys: seq<string>, p: nat)
    ensures p in Positions(keys) <==> Occurs(keys, p)
    decreases |keys|
  {
    hide ScanPosition;
    if keys == [] {
    } else {
      var init, last := keys[..|keys| - 1], keys[|keys| - 1];
      PositionsAreThose(init, p);
      assert forall i | 0 <= i < |init| :: init[i] == keys[i];
      if ScanPosition(last) == Some(p) {
        assert keys[|keys| - 1] == last;
      }
      if Occurs(keys, p) {
        var i :| 0 <= i < |keys| && ScanPosition(keys[i]) == Some(p);
        assert i < |init| ==> ScanPosition(init[i]) == Some(p);
      }
    }
  }

  lemma {:induction false} NoPositions(keys: seq<string>)
    requires forall j | 0 <= j < |keys| :: ScanPosition(keys[j]).None?
    ensures Positions(keys) == []
    decreases |keys|
  {
    hide ScanPosition;
    if keys == [] {
    } else {
      NoPositions(keys[..|keys| - 1]);
    }
  }

  /** The first position is that of the first key that converts. */
  lemma {:induction false} FirstPosition(keys: seq<string>, i: nat)
    requires i < |keys| && ScanPosition(keys[i]).Some? && forall j | 0 <= j < i :: ScanPosition(keys[j]).None?
    ensures Positions(keys) != [] && Positions(keys)[0] == ScanPosition(keys[i]).value
    decreases |keys|
  {
    hide ScanPosition;
    var init := keys[..|keys| - 1];
    if i == |keys| - 1 {
      NoPositions(init);
    } else {
      assert forall j | 0 <= j < |init| :: init[j] == keys[j];
      FirstPosition(init, i);
    }
  }

  /** Where each position comes from. */
  lemma {:induction false} Sources(keys: seq<string>) returns (at: seq<nat>)
    ensures |at| == |Positions(keys)|
    ensures forall i | 0 <= i < |at| :: at[i] < |keys| && ScanPosition(keys[at[i]]) == Some(Positions(keys)[i])
    ensures forall i, j | 0 <= i < j < |at| :: at[i] < at[j]
    decreases |keys|
  {
    hide ScanPosition;
    if keys == [] {
      at := [];
    } else {
      var init := keys[..|keys| - 1];
      at := Sources(init);
      assert forall i | 0 <= i < |init| :: init[i] == keys[i];
      if ScanPosition(keys[|keys| - 1]).Some? {
        at := at + [|keys| - 1];
      }
    }
  }

  /** In sorted order the keys of one position stand together. */
  lemma SortedIsContiguous(keys: seq<string>)
    requires Sorted(keys) && Canonical(keys)
    ensures Contiguous(Positions(keys))
  {
    hide ScanPosition, Before, Stem;
    var ps := Positions(keys);
    var at := Sources(keys);
    forall i, j, k | 0 <= i < j < k < |ps| && ps[i] == ps[k]
      ensures ps[j] == ps[i]
    {
      var a, b, c := keys[at[i]], keys[at[j]], keys[at[k]];
      BetweenHasPrefix(Stem(ps[i]), a, b, c);
      OnlyNodeKeysConvert(a);
      StemScans(b, ps[i]);
    }
  }

  ghost function Distinct(ps: seq<nat>): set<nat> { set p | p in ps }

  /** A new last element that differs from the one before it is new altogether. */
  lemma ChangeIsNew(ps: seq<nat>, p: nat)
    requires Contiguous(ps + [p]) && ps != []
    ensures p in ps <==> ps[|ps| - 1] == p
  {
    if p in ps {
      var i :| 0 <= i < |ps| && ps[i] == p;
      var all := ps + [p];
      assert all[i] == all[|ps|] == p && all[|ps| - 1] == ps[|ps| - 1];
    }
  }

  lemma ChangesNext(ps: seq<nat>, p: nat, last: nat)
    ensures Changes(ps + [p], last) == Changes(ps, last) + if LastOf(ps, last) != p then 1 else 0
  {
    assert (ps + [p])[..|ps|] == ps;
  }

  lemma DistinctNext(ps: seq<nat>, p: nat)
    ensures |Distinct(ps + [p])| == |Distinct(ps)| + if p in ps then 0 else 1
  {
    assert Distinct(ps + [p]) == Distinct(ps) + {p};
    assert p in ps ==> Distinct(ps) + {p} == Distinct(ps);
  }

  lemma ContiguousBefore(ps: seq<nat>, p: nat)
    requires Contiguous(ps + [p])
    ensures Contiguous(ps)
  {
    forall i, j, k | 0 <= i < j < k < |ps| && ps[i] == ps[k]
      ensures ps[j] == ps[i]
    {
      var all := ps + [p];
      assert all[i] == ps[i] && all[j] == ps[j] && all[k] == ps[k];
    }
  }

  lemma NothingCounted(last: nat)
    ensures Changes([], last) == 0 && |Distinct([])| == 0
  {
    assert Distinct([]) == {};
  }

  lemma {:induction false} ChangesCountDistinct(ps: seq<nat>, last: nat)
    requires Contiguous(ps)
    ensures Changes(ps, last) + (if ps != [] && ps[0] == last then 1 else 0) == |Distinct(ps)|
    decreases |ps|
  {
    if ps == [] {
      assert Distinct(ps) == {};
    } else {
      hide Changes, Distinct, Contiguous;
      var p, before := ps[|ps| - 1], ps[..|ps| - 1];
      assert ps == before + [p];
      ContiguousBefore(before, p);
      ChangesCountDistinct(before, last);
      ChangesNext(before, p, last);
      DistinctNext(before, p);
      if before != [] {
        ChangeIsNew(before, p);
      } else {
        NothingCounted(last);
      }
    }
  }

  /**
    For sorted keys with canonical positions the count is the number of distinct positions,
    except that a first position of 2^32 - 1 is missed; so it is exact if and only if the
    first position is another one.
   */
  lemma NodeCountIsDistinctPositions(keys: seq<string>)
    requires Sorted(keys) && Canonical(keys)
    ensures var ps := Positions(keys);
            Changes(ps, NO_POSITION) == |Distinct(ps)| <==> (ps == [] || ps[0] != NO_POSITION)
    ensures var ps := Positions(keys);
            ps != [] && ps[0] == NO_POSITION ==> Changes(ps, NO_POSITION) == |Distinct(ps)| - 1
  {
    SortedIsContiguous(keys);
    ChangesCountDistinct(Positions(keys), NO_POSITION);
  }

  /** The first key that converts has the position that the loop starts with. */
  ghost predicate StartsHidden(keys: seq<string>) {
    exists i :: 0 <= i < |keys| && ScanPosition(keys[i]) == Some(0xFFFF_FFFF)
                && forall j | 0 <= j < i :: ScanPosition(keys[j]).None?
  }

  lemma {:induction false} NothingConverts(keys: seq<string>, n: nat)
    requires n <= |keys|
    requires forall i: nat | i < |keys| && ScanPosition(keys[i]).Some? ::
               exists j: nat :: j < i && ScanPosition(keys[j]).Some?
    ensures forall i | 0 <= i < n :: ScanPosition(keys[i]).None?
    decreases n
  {
    hide ScanPosition;
    if n == 0 {
    } else {
      NothingConverts(keys, n - 1);
    }
  }

  /** The changes count each node position once, but for a hidden start. */
  lemma CountedPositions(keys: seq<string>)
    requires Sorted(keys) && Canonical(keys)
    ensures Changes(Positions(keys), NO_POSITION) == |NodePositions(keys)| - if StartsHidden(keys) then 1 else 0
  {
    hide ScanPosition, Canonical, Sorted, Changes;
    var found, ps := Positions(keys), NodePositions(keys);
    forall p: nat
      ensures p in ps <==> p in found
    {
      PositionsAreThose(keys, p);
    }
    assert ps == Distinct(found);
    NodeCountIsDistinctPositions(keys);
    if i: nat :| i < |keys| && ScanPosition(keys[i]).Some? && forall j | 0 <= j < i :: ScanPosition(keys[j]).None? {
      FirstPosition(keys, i);
      if StartsHidden(keys) {
        var h :| 0 <= h < |keys| && ScanPosition(keys[h]) == Some(0xFFFF_FFFF)
                 && forall j | 0 <= j < h :: ScanPosition(keys[j]).None?;
        assert h == i by {
          assert !(h < i) && !(i < h);
        }
      }
    } else {
      NothingConverts(keys, |keys|);
      NoPositions(keys);
    }
  }

  /** update_node_count, for the keys in the order in which cmap iterates over them. */
  method UpdateNodeCount(keys: seq<string>) returns (nodeCount: nat)
    ensures nodeCount == Changes(Positions(keys), NO_POSITION)
    ensures Sorted(keys) && Canonical(keys) ==>
              nodeCount == |NodePositions(keys)| - if StartsHidden(keys) then 1 else 0
  {
    hide ScanPosition;
    nodeCount := 0;
    var lastNodePos := NO_POSITION;
    var i := 0;
    while i < |keys|
      invariant i <= |keys|
      invariant nodeCount == Changes(Positions(keys[..i]), NO_POSITION)
      invariant lastNodePos == LastOf(Positions(keys[..i]), NO_POSITION)
    {
      var res := ScanPosition(keys[i]);
      assert keys[..i + 1][..i] == keys[..i];
      i := i + 1;
      ghost var ps := Positions(keys[..i - 1]);
      if res.None? {
        assert ps + [] == ps;
        continue;
      }
      assert (ps + [res.value])[..|ps|] == ps;
      var nodePos := res.value;
      if lastNodePos == nodePos {
        continue;
      }
      lastNodePos := nodePos;
      nodeCount := nodeCount + 1;
    }
    assert keys[..i] == keys;
    if Sorted(keys) && Canonical(keys) {
      CountedPositions(keys);
    }
  }
}
