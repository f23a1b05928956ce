/** The registration key: a hash of the host name, written to a key file and read back. */
module ReserveKey {
  import opened SharedDisk
  import opened Scanf

  type Bytes = seq<bv8>

  // ---------- The hash, and the inverse of each of its steps ----------

  function AddByte(x: bv32, c: bv8): bv32 { x + (c as bv32) }

  function Times1025(x: bv32): bv32 { x + (x << 10) }

  function Times9(x: bv32): bv32 { x + (x << 3) }

  function Times32769(x: bv32): bv32 { x + (x << 15) }

  function Fold6(x: bv32): bv32 { x ^ (x >> 6) }

  function Fold11(x: bv32): bv32 { x ^ (x >> 11) }

  function Round(hash: bv32, c: bv8): bv32 { Fold6(Times1025(AddByte(hash, c))) }

  function Rounds(hash: bv32, bytes: Bytes): bv32
    decreases |bytes|
  {
    if bytes == [] then hash else Rounds(Round(hash, bytes[0]), bytes[1..])
  }

  function FinalMix(hash: bv32): bv32 { Times32769(Fold11(Times9(hash))) }

  function Hash(bytes: Bytes, init: bv32): bv32 { FinalMix(Rounds(init, bytes)) }

  function SubByte(y: bv32, c: bv8): bv32 { y - (c as bv32) }

  // 1025, 9 and 32769 are odd; these are their inverses modulo 2^32.

  function UnTimes1025(y: bv32): bv32 { y * 0xc00f_fc01 }

  function UnTimes9(y: bv32): bv32 { y * 0x38e3_8e39 }

  function UnTimes32769(y: bv32): bv32 { y * 0x3fff_8001 }

  function UnFold6(y: bv32): bv32 { y ^ (y >> 6) ^ (y >> 12) ^ (y >> 18) ^ (y >> 24) ^ (y >> 30) }

  function UnFold11(y: bv32): bv32 { y ^ (y >> 11) ^ (y >> 22) }

  // Bit-vector facts are proved one at a time and used without their definitions.

  lemma Times1025Is(x: bv32)
    ensures Times1025(x) == x + (x << 10)
  {
  }

  lemma Times9Is(x: bv32)
    ensures Times9(x) == x + (x << 3)
  {
  }

  lemma Times32769Is(x: bv32)
    ensures Times32769(x) == x + (x << 15)
  {
  }

  lemma Shift10(x: bv32)
    ensures x + (x << 10) == x * 1025
  {
  }

  lemma Shift3(x: bv32)
    ensures x + (x << 3) == x * 9
  {
  }

  lemma Shift15(x: bv32)
    ensures x + (x << 15) == x * 32769
  {
  }

  lemma Times1025IsProduct(x: bv32)
    ensures Times1025(x) == x * 1025
  {
    hide *;
    Times1025Is(x);
    Shift10(x);
  }

  lemma Times9IsProduct(x: bv32)
    ensures Times9(x) == x * 9
  {
    hide *;
    Times9Is(x);
    Shift3(x);
  }

  lemma Times32769IsProduct(x: bv32)
    ensures Times32769(x) == x * 32769
  {
    hide *;
    Times32769Is(x);
    Shift15(x);
  }

  lemma ProductsUndone(x: bv32)
    ensures UnTimes1025(x * 1025) == x && UnTimes9(x * 9) == x && UnTimes32769(x * 32769) == x
  {
  }

  lemma TimesUndone(x: bv32)
    ensures UnTimes1025(Times1025(x)) == x && UnTimes9(Times9(x)) == x && UnTimes32769(Times32769(x)) == x
  {
    hide *;
    Times1025IsProduct(x);
    Times9IsProduct(x);
    Times32769IsProduct(x);
    ProductsUndone(x);
  }

  lemma Fold6Is(x: bv32)
    ensures Fold6(x) == x ^ (x >> 6)
  {
  }

  lemma Fold11Is(x: bv32)
    ensures Fold11(x) == x ^ (x >> 11)
  {
  }

  lemma XorShiftsUndone(x: bv32)
    ensures UnFold6(x ^ (x >> 6)) == x && UnFold11(x ^ (x >> 11)) == x
  {
  }

  lemma FoldsUndone(x: bv32)
    ensures UnFold6(Fold6(x)) == x && UnFold11(Fold11(x)) == x
  {
    hide *;
    Fold6Is(x);
    Fold11Is(x);
    XorShiftsUndone(x);
  }

  lemma AddByteUndone(x: bv32, c: bv8)
    ensures SubByte(AddByte(x, c), c) == x
  {
  }

  lemma AddByteTellsBytes(x: bv32, c: bv8, d: bv8)
    requires AddByte(x, c) == AddByte(x, d)
    ensures c == d
  {
  }

  /** A round can be undone for each byte, so it is a bijection on the hash state. */
  lemma RoundUndone(hash: bv32, c: bv8)
    ensures SubByte(UnTimes1025(UnFold6(Round(hash, c))), c) == hash
    ensures UnTimes1025(UnFold6(Round(hash, c))) == AddByte(hash, c)
  {
    hide AddByte, Times1025, Fold6, SubByte, UnTimes1025, UnFold6;
    AddByteUndone(hash, c);
    TimesUndone(AddByte(hash, c));
    FoldsUndone(Times1025(AddByte(hash, c)));
  }

  /** So can the final mixing. */
  lemma FinalMixUndone(hash: bv32)
    ensures UnTimes9(UnFold11(UnTimes32769(FinalMix(hash)))) == hash
  {
    hide Times9, Times32769, Fold11, UnTimes9, UnTimes32769, UnFold11;
    TimesUndone(hash);
    FoldsUndone(Times9(hash));
    TimesUndone(Fold11(Times9(hash)));
  }

  /** Different states stay different over any suffix. */
  lemma {:induction false} RoundsInjective(h1: bv32, h2: bv32, suffix: Bytes)
    requires Rounds(h1, suffix) == Rounds(h2, suffix)
    ensures h1 == h2
    decreases |suffix|
  {
    hide Round, SubByte, UnTimes1025, UnFold6;
    if suffix == [] {
    } else {
      RoundsInjective(Round(h1, suffix[0]), Round(h2, suffix[0]), suffix[1..]);
      RoundUndone(h1, suffix[0]);
      RoundUndone(h2, suffix[0]);
    }
  }

  lemma {:induction false} RoundsConcat(hash: bv32, a: Bytes, b: Bytes)
    ensures Rounds(hash, a + b) == Rounds(Rounds(hash, a), b)
    decreases |a|
  {
    hide Round;
    if a == [] {
      assert a + b == b;
    } else {
      assert (a + b)[1..] == a[1..] + b;
      RoundsConcat(Round(hash, a[0]), a[1..], b);
    }
  }

  /** Names of equal length that differ in one byte hash differently, for every initial value. */
  lemma OneByteApartHashesDiffer(a: Bytes, b: Bytes, i: nat, init: bv32)
    requires |a| == |b| && i < |a| && a[i] != b[i]
    requires forall j | 0 <= j < |a| && j != i :: a[j] == b[j]
    ensures Hash(a, init) != Hash(b, init)
  {
    hide Round, FinalMix, AddByte, SubByte, UnTimes1025, UnTimes9, UnTimes32769, UnFold6, UnFold11;
    var prefix, suffix := a[..i], a[i + 1..];
    assert a == prefix + ([a[i]] + suffix) && b == prefix + ([b[i]] + suffix);
    RoundsConcat(init, prefix, [a[i]] + suffix);
    RoundsConcat(init, prefix, [b[i]] + suffix);
    var h := Rounds(init, prefix);
    assert ([a[i]] + suffix)[1..] == suffix && ([b[i]] + suffix)[1..] == suffix;
    if Hash(a, init) == Hash(b, init) {
      FinalMixUndone(Rounds(init, a));
      FinalMixUndone(Rounds(init, b));
      RoundsInjective(Round(h, a[i]), Round(h, b[i]), suffix);
      RoundUndone(h, a[i]);
      RoundUndone(h, b[i]);
      AddByteTellsBytes(h, a[i], b[i]);
    }
  }

  lemma RoundIs(hash: bv32, c: bv8)
    ensures Round(hash, c) == Fold6(Times1025(hash + (c as bv32)))
  {
    hide Fold6, Times1025;
  }

  lemma HashIs(bytes: Bytes, init: bv32)
    ensures Hash(bytes, init) == Times32769(Fold11(Times9(Rounds(init, bytes))))
  {
    hide Times32769, Fold11, Times9, Rounds;
  }

  lemma RoundsSnoc(hash: bv32, bytes: Bytes, i: nat)
    requires i < |bytes|
    ensures Rounds(hash, bytes[..i + 1]) == Round(Rounds(hash, bytes[..i]), bytes[i])
    ensures Rounds(hash, bytes[..0]) == hash
  {
    hide Round;
    assert bytes[..i + 1] == bytes[..i] + [bytes[i]];
    RoundsConcat(hash, bytes[..i], [bytes[i]]);
  }

  /** The loop body of jenkins_one_at_a_time_hash. */
  method HashByte(before: bv32, c: bv8) returns (hash: bv32)
    ensures hash == Round(before, c)
  {
    hide *;
    RoundIs(before, c);
    hash := before + (c as bv32);
    Times1025Is(hash);
    hash := hash + (hash << 10);
    Fold6Is(hash);
    hash := hash ^ (hash >> 6);
  }

  lemma NoRounds(hash: bv32, bytes: Bytes)
    requires bytes == []
    ensures Rounds(hash, bytes) == hash
  {
  }

  /** jenkins_one_at_a_time_hash. */
  method JenkinsOneAtATimeHash(key: Bytes, init: bv32) returns (hash: bv32)
    ensures hash == Hash(key, init)
  {
    hide *;
    var i := 0;
    hash := init;
    assert hash == Rounds(init, key[..0]) by {
      NoRounds(init, key[..0]);
    }
    while i != |key|
      invariant i <= |key|
      invariant hash == Rounds(init, key[..i])
      decreases |key| - i
    {
      RoundsSnoc(init, key, i);
      hash := HashByte(hash, key[i]);
      i := i + 1;
    }
    assert key[..i] == key;
    HashIs(key, init);
    Times9Is(hash);
    hash := hash + (hash << 3);
    Fold11Is(hash);
    hash := hash ^ (hash >> 11);
    Times32769Is(hash);
    hash := hash + (hash << 15);
  }

  // ---------- The key ----------

  /** The upper word of the key carries the eye catcher c070 and 16 bits of a second hash. */
  function UpperWord(hash: bv32): bv32 { 0xC070_0000 | (0xFFFF & hash) }

  function Number(x: bv32): nat { x as nat }

  function Word(n: nat): bv32
    requires n < TWO32
  {
    n as bv32
  }

  lemma NumberIsWord(x: bv32)
    ensures Number(x) < TWO32 && Word(Number(x)) == x
  {
  }

  lemma NumbersTellWords(x: bv32, y: bv32)
    requires Number(x) == Number(y)
    ensures x == y
  {
    hide *;
    NumberIsWord(x);
    NumberIsWord(y);
  }

  lemma UpperWordIs(hash: bv32)
    ensures 0xC070_0000 <= UpperWord(hash) <= 0xC070_FFFF
  {
  }

  lemma NumberAtLeast(x: bv32)
    requires 0xC070_0000 <= x
    ensures 0xC070_0000 <= Number(x)
  {
  }

  lemma NumberAtMost(x: bv32)
    requires x <= 0xC070_FFFF
    ensures Number(x) <= 0xC070_FFFF
  {
  }

  lemma UpperWordRange(hash: bv32)
    ensures 0xC070_0000 <= Number(UpperWord(hash)) <= 0xC070_FFFF
  {
    hide *;
    UpperWordIs(hash);
    NumberAtLeast(UpperWord(hash));
    NumberAtMost(UpperWord(hash));
  }

  /** Two 32-bit numbers, one above the other. */
  function Stack(upper: nat, lower: nat): (k: Key)
    requires upper < TWO32 && lower < TWO32
    ensures k / TWO32 == upper && k % TWO32 == lower
  {
    upper * TWO32 + lower
  }

  function Joined(upper: bv32, lower: bv32): (k: Key)
    ensures k / TWO32 == Number(upper) && k % TWO32 == Number(lower)
  {
    hide Number, Word;
    NumberIsWord(upper);
    NumberIsWord(lower);
    Stack(Number(upper), Number(lower))
  }

  /** The key generated on a host with this name. */
  function GeneratedKey(hostname: Bytes): Key { Joined(UpperWord(Hash(hostname, 1)), Hash(hostname, 0)) }

  /** A generated key has c070 in its top 16 bits, so it is never 0. */
  lemma GeneratedKeyIsMarked(hostname: Bytes)
    ensures GeneratedKey(hostname) / 0x1_0000_0000_0000 == 0xC070
    ensures GeneratedKey(hostname) != 0
  {
    hide Hash, UpperWord, Number, Joined;
    UpperWordRange(Hash(hostname, 1));
    var k := GeneratedKey(hostname);
    assert 0xC070_0000 <= k / TWO32 <= 0xC070_FFFF;
  }

  lemma GeneratedKeyIs(hostname: Bytes)
    ensures GeneratedKey(hostname) == Joined(UpperWord(Hash(hostname, 1)), Hash(hostname, 0))
  {
    hide Joined, UpperWord, Hash;
  }

  lemma UpperWordBits(hash: bv32)
    ensures UpperWord(hash) & 0xFFFF == hash & 0xFFFF && UpperWord(hash) >> 16 == 0xC070
  {
  }

  /** The bits of a generated key: c070, the low half of one hash of the name, and all of another. */
  lemma GeneratedKeyBits(hostname: Bytes) returns (upper: bv32)
    ensures GeneratedKey(hostname) / TWO32 == Number(upper)
    ensures upper >> 16 == 0xC070 && upper & 0xFFFF == Hash(hostname, 1) & 0xFFFF
    ensures GeneratedKey(hostname) % TWO32 == Number(Hash(hostname, 0))
  {
    hide *;
    upper := UpperWord(Hash(hostname, 1));
    UpperWordBits(Hash(hostname, 1));
    GeneratedKeyIs(hostname);
  }

  /** Known values of the hash, and that the empty name hashes to 0. */
  lemma KnownHashes()
    ensures Hash([], 0) == 0 && Hash([], 1) == 0x0004_8009
    ensures Hash([0x61], 0) == 0xca2e_9442
    ensures Hash([0x6e, 0x31], 0) == 0x7339_6a26 && Hash([0x6e, 0x31], 1) == 0x9c83_3b99
  {
    var n: Bytes := [0x6e, 0x31];
    assert n[1..] == [0x31];
    assert forall init :: Rounds(init, n) == Round(Round(init, 0x6e), 0x31);
  }

  /** Hosts whose names have equal length and differ in exactly one byte get different keys. */
  lemma OneByteApartKeysDiffer(a: Bytes, b: Bytes, i: nat)
    requires |a| == |b| && i < |a| && a[i] != b[i]
    requires forall j | 0 <= j < |a| && j != i :: a[j] == b[j]
    ensures GeneratedKey(a) != GeneratedKey(b)
  {
    hide Hash, UpperWord, Number, Joined;
    OneByteApartHashesDiffer(a, b, i, 0);
    if GeneratedKey(a) == GeneratedKey(b) {
      NumbersTellWords(Hash(a, 0), Hash(b, 0));
    }
  }

  /** generate_reserve_key: the key, and the text written to the key file. */
  method GenerateReserveKey(hostname: Bytes) returns (ikey: Key, file: string)
    ensures ikey == GeneratedKey(hostname) && file == KeyText(ikey)
  {
    hide *;
    GeneratedKeyIs(hostname);
    var hash1 := JenkinsOneAtATimeHash(hostname, 0);
    var hash2 := JenkinsOneAtATimeHash(hostname, 1);
    hash2 := UpperWord(hash2);
    ikey := Joined(hash2, hash1);
    file := KeyText(ikey);
  }

  /** The key in a key file: None if the file is blank, and 0 if it holds no number. */
  function LoadedKey(text: string): Option<Key> {
    if SkipSpace(text) == "" then None
    else
      var scanned := ScanNumber(text, 16, 16);
      Some(if scanned.Some? then scanned.value.value else 0)
  }

  /** A key file is refused exactly if it is blank, and gives key 0 if it begins with no number. */
  lemma KeyFileWithoutKey(text: string)
    ensures LoadedKey(text) == None <==> forall i | 0 <= i < |text| :: IsSpace(text[i])
    ensures var t := SkipSpace(text);
            t != "" && t[0] != '+' && t[0] != '-' && Digit(t[0], 16).None? ==> LoadedKey(text) == Some(0)
  {
    hide ScanNumber;
    SkipSpaceLeaves(text);
    SkipSpaceStops(text);
    var t := SkipSpace(text);
    if t != "" && t[0] != '+' && t[0] != '-' && Digit(t[0], 16).None? {
      NumberAfterSpace(text, 16, 16);
      ScanUnsigned(t, 16, 16);
      assert Prefix(t, 16, 16) == 0 && t[0..] == t;
    }
  }

  /** Every 64-bit key written to a key file is read back, also with more text after it. */
  lemma KeyFileRoundTrip(k: Key, rest: string)
    ensures LoadedKey(KeyText(k) + rest) == Some(k)
  {
    KeyTextScans(k, rest);
    var s := KeyText(k) + rest;
    assert Digit(s[0], 16).Some? && !IsSpace(s[0]);
  }

  /**
    The key of a new device, and the key file it leaves behind. A file that cannot be read is
    an error. Without a key file one is written; if that is not possible the key stays 0.
   */
  method DeviceKey(file: Option<string>, canRead: bool, canWrite: bool, hostname: Bytes)
    returns (ikey: Option<Key>, left: Option<string>)
    ensures file.Some? ==> ikey == (if canRead then LoadedKey(file.value) else None) && left == file
    ensures file.None? && canWrite ==>
              && ikey == Some(GeneratedKey(hostname))
              && left.Some? && LoadedKey(left.value) == ikey
    ensures file.None? && !canWrite ==> ikey == Some(0) && left == None
  {
    hide GeneratedKey;
    if file.None? {
      if canWrite {
        var k, text := GenerateReserveKey(hostname);
        KeyFileRoundTrip(k, "");
        assert text + "" == text;
        ikey, left := Some(k), Some(text);
      } else {
        ikey, left := Some(0), None;
      }
    } else if !canRead {
      ikey, left := None, file;
    } else {
      ikey, left := LoadedKey(file.value), file;
    }
  }
}
