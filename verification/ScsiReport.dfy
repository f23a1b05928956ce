/**
  Reading the disk's state from what sg_persist prints. A command's output is the sequence
  of its lines together with the exit status that pclose reports.
 */
module ScsiReport {
  import opened SharedDisk
  import opened Scanf
  import QdiskDaemon

  datatype Reservation = Reservation(generation: nat, reserved: bool, key: Key)

  datatype Outcome = Read(res: Reservation) | ExecFailed | Unknown

  // ---------- Lines ----------

  function AfterSpaces(s: Option<string>): Option<string> {
    if s.Some? then Some(SkipSpace(s.value)) else None
  }

  function AfterLiteral(s: Option<string>, lit: string): Option<string> {
    if s.Some? then Literal(s.value, lit) else None
  }

  function HexAfter(s: Option<string>): Option<Key> {
    if s.None? then None
    else
      var scanned := ScanNumber(s.value, 16, |s.value|);
      if scanned.Some? then Some(scanned.value.value) else None
  }

  /** " PR generation=%x", into 32 bits. */
  function ScanGeneration(line: string): Option<nat> {
    var g := HexAfter(AfterLiteral(AfterSpaces(AfterLiteral(Some(SkipSpace(line)), "PR")), "generation="));
    if g.Some? then Some(g.value % TWO32) else None
  }

  /** " Key = %lx". */
  function ScanKey(line: string): Option<Key> {
    HexAfter(AfterSpaces(AfterLiteral(AfterSpaces(AfterLiteral(Some(SkipSpace(line)), "Key")), "=")))
  }

  /** " %lx". */
  function ScanRegistered(line: string): Option<Key> { HexAfter(Some(SkipSpace(line))) }

  /** strstr(line, text) is not null. */
  predicate Contains(line: string, text: string) {
    text <= line || (line != "" && Contains(line[1..], text))
  }

  const FOLLOWS := "Reservation follows"

  // ---------- The reservation ----------

  predicate IsStatusLine(line: string) { ScanGeneration(line).Some? }

  predicate IsKeyLine(line: string) { ScanKey(line).Some? }

  /** `i` is the first line from `start` on that `scans` accepts, or the end. */
  ghost predicate FirstFrom(lines: seq<string>, start: nat, i: nat, scans: string -> bool) {
    && start <= i <= |lines|
    && (forall j | start <= j < i :: !scans(lines[j]))
    && (i < |lines| ==> scans(lines[i]))
  }

  ghost predicate MeansAt(lines: seq<string>, rc: int, g: nat, k: nat, r: Outcome)
    requires FirstFrom(lines, 0, g, IsStatusLine)
  {
    if g == |lines| then r == Unknown
    else
      var generation := ScanGeneration(lines[g]).value;
      if !Contains(lines[g], FOLLOWS) then
        r == if rc != 0 then ExecFailed else Read(Reservation(generation, false, 0))
      else
        && FirstFrom(lines, g + 1, k, IsKeyLine)
        && r == if k == |lines| then Unknown
                else if rc != 0 then ExecFailed
                else Read(Reservation(generation, true, ScanKey(lines[k]).value))
  }

  /**
    What the output means. The first generation line decides. If it announces a
    reservation, the first key line after it gives the key, and there must be one.
   */
  ghost predicate Means(lines: seq<string>, rc: int, r: Outcome) {
    exists g: nat, k: nat ::
      && FirstFrom(lines, 0, g, IsStatusLine)
      && MeansAt(lines, rc, g, k, r)
  }

  /** read_reservation. */
  method ReadReservation(lines: seq<string>, rc: int) returns (r: Outcome)
    ensures Means(lines, rc, r)
  {
    hide ScanGeneration, ScanKey, Contains;
    var res := Reservation(0, false, 0);
    var i := 0;
    while true
      invariant i <= |lines|
      invariant forall j | 0 <= j < i :: ScanGeneration(lines[j]).None?
      decreases |lines| - i
    {
      res := Reservation(0, false, 0);
      if i == |lines| {
        assert MeansAt(lines, rc, i, 0, Unknown);
        return Unknown;
      }
      var scr := ScanGeneration(lines[i]);
      if scr.Some? {
        res := res.(generation := scr.value);
        break;
      }
      i := i + 1;
    }
    ghost var g := i;
    if !Contains(lines[i], FOLLOWS) {
      r := if rc != 0 then ExecFailed else Read(res);
      assert MeansAt(lines, rc, g, 0, r);
      return;
    }
    res := res.(reserved := true);
    i := i + 1;
    while true
      invariant g < i <= |lines|
      invariant forall j | g < j < i :: ScanKey(lines[j]).None?
      decreases |lines| - i
    {
      if i == |lines| {
        assert MeansAt(lines, rc, g, i, Unknown);
        return Unknown;
      }
      var scr := ScanKey(lines[i]);
      if scr.Some? {
        res := res.(key := scr.value);
        break;
      }
      i := i + 1;
    }
    r := if rc != 0 then ExecFailed else Read(res);
    assert MeansAt(lines, rc, g, i, r);
  }

  /** The declarative meaning leaves no choice. */
  lemma MeaningIsUnique(lines: seq<string>, rc: int, r: Outcome, s: Outcome)
    requires Means(lines, rc, r) && Means(lines, rc, s)
    ensures r == s
  {
    hide ScanGeneration, ScanKey, Contains;
    var g1: nat, k1: nat :| FirstFrom(lines, 0, g1, IsStatusLine) && MeansAt(lines, rc, g1, k1, r);
    var g2: nat, k2: nat :| FirstFrom(lines, 0, g2, IsStatusLine) && MeansAt(lines, rc, g2, k2, s);
    assert g1 == g2 by {
      assert !(g1 < g2) && !(g2 < g1);
    }
    if g1 < |lines| && Contains(lines[g1], FOLLOWS) {
      assert k1 == k2 by {
        assert !(k1 < k2) && !(k2 < k1);
      }
    }
  }

  /** device_is_reserved, as a reply to the daemon. */
  function ReservedReply(r: Outcome): Reply { if r.Read? then Flag(r.res.reserved) else Failed }

  /** device_get_reservation_owner_key, as a reply to the daemon. */
  function OwnerReply(r: Outcome): Reply { if r.Read? && r.res.reserved then Holder(r.res.key) else Failed }

  /** On the same output, the owner query gives a key exactly when the disk counts as reserved. */
  lemma QueriesAgree(lines: seq<string>, rc: int, r: Outcome, s: Outcome)
    requires Means(lines, rc, r) && Means(lines, rc, s)
    ensures ReservedReply(r) == Flag(true) <==> OwnerReply(s).Holder?
    ensures ReservedReply(r) == Failed ==> OwnerReply(s) == Failed
  {
    MeaningIsUnique(lines, rc, r, s);
  }

  ghost predicate LacksKey(lines: seq<string>, g: nat)
    requires g <= |lines|
  {
    g == |lines| || (Contains(lines[g], FOLLOWS) && forall j | g < j < |lines| :: !IsKeyLine(lines[j]))
  }

  /** The output tells nothing: no status line, or a reservation announced without a key line after it. */
  ghost predicate Incomplete(lines: seq<string>) {
    exists g: nat :: FirstFrom(lines, 0, g, IsStatusLine) && LacksKey(lines, g)
  }

  /** A query fails exactly when the command fails or its output is incomplete; no failure looks like a free disk. */
  lemma QueriesFailTogether(lines: seq<string>, rc: int, r: Outcome)
    requires Means(lines, rc, r)
    ensures ReservedReply(r) == Failed <==> rc != 0 || Incomplete(lines)
    ensures rc != 0 || Incomplete(lines) ==> OwnerReply(r) == Failed
    ensures ReservedReply(r) != Failed ==> ReservedReply(r).Flag?
  {
    hide ScanGeneration, ScanKey, Contains;
    var g: nat, k: nat :| FirstFrom(lines, 0, g, IsStatusLine) && MeansAt(lines, rc, g, k, r);
    if Incomplete(lines) {
      var g': nat :| FirstFrom(lines, 0, g', IsStatusLine) && LacksKey(lines, g');
      assert g == g' by {
        assert !(g < g') && !(g' < g);
      }
    } else {
      assert !LacksKey(lines, g);
    }
  }

  /** A reading succeeds with what the first status line and, for a reservation, the first key line after it say. */
  lemma ReadingTells(lines: seq<string>, r: Outcome, g: nat, k: nat)
    requires Means(lines, 0, r)
    requires g < |lines| && IsStatusLine(lines[g]) && forall j | 0 <= j < g :: !IsStatusLine(lines[j])
    requires Contains(lines[g], FOLLOWS) ==>
               g < k < |lines| && IsKeyLine(lines[k]) && forall j | g < j < k :: !IsKeyLine(lines[j])
    ensures var reserved := Contains(lines[g], FOLLOWS);
            && ReservedReply(r) == Flag(reserved)
            && OwnerReply(r) == if reserved then Holder(ScanKey(lines[k]).value) else Failed
  {
    hide ScanGeneration, ScanKey, Contains;
    assert FirstFrom(lines, 0, g, IsStatusLine);
    var told := Read(Reservation(ScanGeneration(lines[g]).value, Contains(lines[g], FOLLOWS),
                                 if Contains(lines[g], FOLLOWS) then ScanKey(lines[k]).value else 0));
    assert MeansAt(lines, 0, g, k, told);
    MeaningIsUnique(lines, 0, r, told);
  }

  // ---------- Printing the disk's state ----------

  function StatusTail(reserved: bool): string {
    if reserved then ", Reservation follows:\n" else ", there is NO reservation held\n"
  }

  function StatusLine(generation: nat, reserved: bool): string {
    "PR generation=" + ("0x" + Numeral(generation, 16) + StatusTail(reserved))
  }

  function KeyLine(k: Key): string { "  Key=" + ("0x" + Numeral(k, 16) + "\n") }

  /** Lines about the device, the status line, and for a reservation its key and more details. */
  function Report(header: seq<string>, generation: nat, holder: Option<Key>, details: seq<string>): seq<string> {
    header + [StatusLine(generation, holder.Some?)] + if holder.Some? then [KeyLine(holder.value)] + details else []
  }

  lemma HexNumberScans(n: Key, rest: string)
    requires rest != "" && Digit(rest[0], 16).None?
    ensures HexAfter(Some("0x" + Numeral(n, 16) + rest)) == Some(n)
  {
    NumeralValue(n, 16);
    ScanPrefixedDigits(Numeral(n, 16), rest, |"0x" + Numeral(n, 16) + rest|);
  }

  lemma LiteralOf(lit: string, rest: string)
    ensures Literal(lit + rest, lit) == Some(rest)
  {
    assert (lit + rest)[|lit|..] == rest;
  }

  lemma SkipsOneSpace(rest: string)
    requires rest != "" && !IsSpace(rest[0])
    ensures SkipSpace(rest) == rest && SkipSpace(" " + rest) == rest
  {
    assert (" " + rest)[1..] == rest;
  }

  lemma ScanAfterStatus(number: string)
    ensures var g := HexAfter(Some(number));
            ScanGeneration("PR" + (" " + ("generation=" + number))) == if g.Some? then Some(g.value % TWO32) else None
  {
    hide HexAfter, SkipSpace, Literal;
    LiteralOf("generation=", number);
    SkipsOneSpace("generation=" + number);
    LiteralOf("PR", " " + ("generation=" + number));
    SkipsOneSpace("PR" + (" " + ("generation=" + number)));
  }

  lemma ScanAfterKey(number: string)
    requires number != "" && !IsSpace(number[0])
    ensures ScanKey(" " + (" " + ("Key" + ("=" + number)))) == HexAfter(Some(number))
  {
    hide HexAfter, Literal;
    var t := "Key" + ("=" + number);
    assert (" " + (" " + t))[1..] == " " + t && (" " + t)[1..] == t;
    SkipsOneSpace(t);
    assert SkipSpace(" " + (" " + t)) == SkipSpace(" " + t);
    LiteralOf("Key", "=" + number);
    LiteralOf("=", number);
  }

  lemma StatusTailStarts(reserved: bool)
    ensures StatusTail(reserved) != "" && StatusTail(reserved)[0] == ','
  {
  }

  predicate Blank(s: string) { forall i | 0 <= i < |s| :: IsSpace(s[i]) }

  lemma {:induction false} SkipsBlank(blank: string, rest: string)
    requires Blank(blank) && rest != "" && !IsSpace(rest[0])
    ensures SkipSpace(blank + rest) == rest
    decreases |blank|
  {
    if blank == "" {
      assert blank + rest == rest;
    } else {
      assert (blank + rest)[1..] == blank[1..] + rest;
      SkipsBlank(blank[1..], rest);
    }
  }

  /** A key is read wherever white space may stand, with or without it. */
  lemma KeyBetweenBlanks(a: string, b: string, c: string, k: Key, rest: string)
    requires Blank(a) && Blank(b) && Blank(c) && rest != "" && Digit(rest[0], 16).None?
    ensures ScanKey(a + ("Key" + (b + ("=" + (c + ("0x" + Numeral(k, 16) + rest)))))) == Some(k)
    ensures ScanRegistered(a + ("0x" + Numeral(k, 16) + rest)) == Some(k)
  {
    hide HexAfter, Literal, SkipSpace, Numeral, Blank;
    var number := "0x" + Numeral(k, 16) + rest;
    assert number[0] == '0';
    HexNumberScans(k, rest);
    SkipsBlank(a, number);
    SkipsBlank(c, number);
    LiteralOf("=", c + number);
    SkipsBlank(b, "=" + (c + number));
    LiteralOf("Key", b + ("=" + (c + number)));
    SkipsBlank(a, "Key" + (b + ("=" + (c + number))));
  }

  /** So is a generation number. */
  lemma GenerationBetweenBlanks(a: string, b: string, g: nat, rest: string)
    requires Blank(a) && Blank(b) && g < TWO32 && rest != "" && Digit(rest[0], 16).None?
    ensures ScanGeneration(a + ("PR" + (b + ("generation=" + ("0x" + Numeral(g, 16) + rest))))) == Some(g)
  {
    hide HexAfter, Literal, SkipSpace, Numeral, Blank;
    var number := "0x" + Numeral(g, 16) + rest;
    HexNumberScans(g, rest);
    LiteralOf("generation=", number);
    SkipsBlank(b, "generation=" + number);
    LiteralOf("PR", b + ("generation=" + number));
    SkipsBlank(a, "PR" + (b + ("generation=" + number)));
  }

  lemma StatusLineScans(generation: nat, reserved: bool)
    requires generation < TWO32
    ensures ScanGeneration(StatusLine(generation, reserved)) == Some(generation)
  {
    hide HexAfter, Numeral, ScanGeneration, StatusTail;
    var number := "0x" + Numeral(generation, 16) + StatusTail(reserved);
    ScanAfterStatus(number);
    assert "PR generation=" + number == "PR" + (" " + ("generation=" + number));
    StatusTailStarts(reserved);
    HexNumberScans(generation, StatusTail(reserved));
  }

  lemma KeyLineScans(k: Key)
    ensures ScanKey(KeyLine(k)) == Some(k)
  {
    hide HexAfter, Numeral, ScanKey;
    var number := "0x" + Numeral(k, 16) + "\n";
    ScanAfterKey(number);
    assert "  Key=" + number == " " + (" " + ("Key" + ("=" + number)));
    HexNumberScans(k, "\n");
  }

  lemma {:induction false} ContainsMiddle(a: string, text: string, b: string)
    ensures Contains(a + text + b, text)
    decreases |a|
  {
    if a == "" {
      assert text <= a + text + b;
    } else {
      assert (a + text + b)[1..] == a[1..] + text + b;
      ContainsMiddle(a[1..], text, b);
    }
  }

  /** A text whose first two characters stand side by side nowhere does not occur. */
  lemma {:induction false} DoesNotContain(line: string, text: string)
    requires |text| >= 2
    requires forall i | 0 <= i < |line| - 1 :: line[i] != text[0] || line[i + 1] != text[1]
    ensures !Contains(line, text)
    decreases |line|
  {
    assert !(text <= line) by {
      assert |line| >= 2 ==> line[0] != text[0] || line[0 + 1] != text[1];
    }
    if line == "" {
    } else {
      forall i | 0 <= i < |line[1..]| - 1
        ensures line[1..][i] != text[0] || line[1..][i + 1] != text[1]
      {
        assert line[1..][i] == line[i + 1] && line[1..][i + 1] == line[i + 1 + 1];
      }
      DoesNotContain(line[1..], text);
    }
  }

  lemma DigitsLackR(s: string)
    requires AllDigits(s, 16)
    ensures 'R' !in s
  {
    forall i | 0 <= i < |s|
      ensures s[i] != 'R'
    {
      assert Digit(s[i], 16).Some?;
    }
  }

  lemma OtherTextsLackR()
    ensures 'R' !in " generation=0x" && 'R' !in StatusTail(false)
  {
  }

  lemma NoRe(rest: string)
    requires rest != "" && rest[0] == ' ' && 'R' !in rest
    ensures var line := "PR" + rest;
            forall i | 0 <= i < |line| - 1 :: line[i] != FOLLOWS[0] || line[i + 1] != FOLLOWS[1]
  {
    var line := "PR" + rest;
    forall i | 0 <= i < |line| - 1
      ensures line[i] != 'R' || line[i + 1] != 'e'
    {
      if i >= 2 {
        assert line[i] == rest[i - 2];
      }
    }
  }

  lemma StatusTailAnnounces()
    ensures StatusTail(true) == ", " + FOLLOWS + ":\n"
  {
  }

  lemma ReservedLineTells(generation: nat)
    ensures Contains(StatusLine(generation, true), FOLLOWS)
  {
    hide Contains, Numeral, StatusTail;
    var line, number := StatusLine(generation, true), Numeral(generation, 16);
    ContainsMiddle("PR generation=0x" + number + ", ", FOLLOWS, ":\n");
    StatusTailAnnounces();
    assert line == "PR generation=0x" + number + ", " + FOLLOWS + ":\n";
  }

  lemma Regroup(number: string, tail: string)
    ensures "PR generation=" + ("0x" + number + tail) == "PR" + (" generation=0x" + number + tail)
  {
    assert "PR generation=" + "0x" == "PR" + " generation=0x";
    assert "PR generation=" + ("0x" + number + tail) == ("PR generation=" + "0x") + (number + tail);
    assert "PR" + (" generation=0x" + number + tail) == ("PR" + " generation=0x") + (number + tail);
  }

  lemma FreeLineTells(generation: nat)
    ensures !Contains(StatusLine(generation, false), FOLLOWS)
  {
    hide Contains, Numeral, StatusTail;
    var number := Numeral(generation, 16);
    DigitsLackR(number);
    OtherTextsLackR();
    var rest := " generation=0x" + number + StatusTail(false);
    Regroup(number, StatusTail(false));
    NoRe(rest);
    DoesNotContain("PR" + rest, FOLLOWS);
  }

  /** The status line announces a reservation exactly when there is one. */
  lemma StatusLineTells(generation: nat, reserved: bool)
    ensures Contains(StatusLine(generation, reserved), FOLLOWS) <==> reserved
  {
    hide *;
    if reserved {
      ReservedLineTells(generation);
    } else {
      FreeLineTells(generation);
    }
  }

  /** Printing and reading are inverse: the report of a reservation state reads back as that state. */
  lemma ReportReadsBack(header: seq<string>, generation: nat, holder: Option<Key>, details: seq<string>)
    requires generation < TWO32 && forall l | l in header :: !IsStatusLine(l)
    ensures Means(Report(header, generation, holder, details), 0,
                  Read(Reservation(generation, holder.Some?, if holder.Some? then holder.value else 0)))
  {
    hide ScanGeneration, ScanKey, Contains, StatusLine, KeyLine;
    var lines, g := Report(header, generation, holder, details), |header|;
    var r := Read(Reservation(generation, holder.Some?, if holder.Some? then holder.value else 0));
    StatusLineScans(generation, holder.Some?);
    StatusLineTells(generation, holder.Some?);
    assert lines[g] == StatusLine(generation, holder.Some?);
    assert FirstFrom(lines, 0, g, IsStatusLine);
    if holder.Some? {
      KeyLineScans(holder.value);
      assert lines[g + 1] == KeyLine(holder.value);
      assert FirstFrom(lines, g + 1, g + 1, IsKeyLine);
    }
    assert MeansAt(lines, 0, g, g + 1, r);
  }

  /** What the daemon reads from a report of the disk is what the disk answers. */
  lemma QueriesAnswerForTheDisk(d: Disk, k: Key, header: seq<string>, generation: nat, details: seq<string>, r: Outcome)
    requires generation < TWO32 && forall l | l in header :: !IsStatusLine(l)
    requires Means(Report(header, generation, d.holder, details), 0, r)
    ensures ReservedReply(r) == Answer(d, Command.IsReserved, k)
    ensures OwnerReply(r) == Answer(d, ReadOwner, k)
  {
    ReportReadsBack(header, generation, d.holder, details);
    MeaningIsUnique(Report(header, generation, d.holder, details), 0, r,
                    Read(Reservation(generation, d.holder.Some?, if d.holder.Some? then d.holder.value else 0)));
  }

  // ---------- The registered keys ----------

  /** The keys of the lines that hold a number, in order. */
  function ScannedKeys(lines: seq<string>): (r: seq<Key>)
    ensures |r| <= |lines|
  {
    if lines == [] then []
    else
      var k := ScanRegistered(lines[|lines| - 1]);
      ScannedKeys(lines[..|lines| - 1]) + if k.Some? then [k.value] else []
  }

  /** What the daemon is told about the registered keys. */
  function RegisteredReply(lines: seq<string>, rc: int): Reply {
    if rc == 0 then Registered(ScannedKeys(lines)) else Failed
  }

  function RegisteredLine(k: Key): string { "    " + ("0x" + Numeral(k, 16) + "\n") }

  function RegisteredLines(keys: seq<Key>): seq<string> {
    if keys == [] then [] else RegisteredLines(keys[..|keys| - 1]) + [RegisteredLine(keys[|keys| - 1])]
  }

  lemma {:induction false} ScannedKeysConcat(a: seq<string>, b: seq<string>)
    ensures ScannedKeys(a + b) == ScannedKeys(a) + ScannedKeys(b)
    decreases |b|
  {
    hide ScanRegistered;
    if b == [] {
      assert a + b == a;
    } else {
      var init := b[..|b| - 1];
      assert (a + b)[..|a + b| - 1] == a + init && (a + b)[|a + b| - 1] == b[|b| - 1];
      ScannedKeysConcat(a, init);
    }
  }

  lemma RegisteredLineScans(k: Key)
    ensures ScanRegistered(RegisteredLine(k)) == Some(k)
  {
    hide HexAfter, Numeral;
    var number := "0x" + Numeral(k, 16) + "\n";
    var line := RegisteredLine(k);
    assert line[1..][1..][1..][1..] == number && number[0] == '0';
    assert SkipSpace(line) == SkipSpace(line[1..]) == SkipSpace(line[1..][1..]);
    assert SkipSpace(line[1..][1..]) == SkipSpace(line[1..][1..][1..]) == number;
    HexNumberScans(k, "\n");
  }

  lemma {:induction false} RegisteredLinesScan(keys: seq<Key>)
    ensures ScannedKeys(RegisteredLines(keys)) == keys
    decreases |keys|
  {
    hide ScanRegistered;
    if keys == [] {
    } else {
      var init, last := keys[..|keys| - 1], keys[|keys| - 1];
      RegisteredLinesScan(init);
      RegisteredLineScans(last);
      assert RegisteredLines(keys) == RegisteredLines(init) + [RegisteredLine(last)];
      assert keys == init + [last];
    }
  }

  /**
    Read from a header and one line per key, the keys are those of the disk if and only if no
    header line reads as a number; otherwise the header's numbers come on top.
   */
  lemma KeysAnswerForTheDisk(d: Disk, k: Key, header: seq<string>)
    ensures var reply := RegisteredReply(header + RegisteredLines(d.registered), 0);
            && reply == Registered(ScannedKeys(header) + d.registered)
            && (reply == Answer(d, ReadKeys, k) <==> ScannedKeys(header) == [])
  {
    ScannedKeysConcat(header, RegisteredLines(d.registered));
    RegisteredLinesScan(d.registered);
  }

  lemma NothingScans()
    ensures ScanNumber("", 16, 0) == None
  {
  }

  /** A line that does not begin with a sign or a hexadecimal digit is not read as a key. */
  lemma OrdinaryLineIsSkipped(line: string)
    requires var t := SkipSpace(line); t == "" || (t[0] != '+' && t[0] != '-' && Digit(t[0], 16).None?)
    ensures ScanRegistered(line) == None
  {
    hide SkipSpace, ScanNumber;
    SkipSpaceStops(line);
    var t := SkipSpace(line);
    if t == "" {
      NothingScans();
    } else {
      ScanUnsigned(t, 16, |t|);
      assert Prefix(t, 16, |t|) == 0 && t[0..] == t;
    }
  }

  lemma DellDigits()
    ensures AllDigits("De", 16) && Value("De", 16) == 0xDE && Digit('l', 16).None?
  {
    assert "De"[..1] == "D" && "D"[..0] == "";
    assert Value("D", 16) == 0xD;
  }

  lemma DellText()
    ensures "  Dell disk\n" == " " + (" " + ("De" + "ll disk\n"))
  {
    assert "De" + "ll disk\n" == "Dell disk\n";
    assert " " + "Dell disk\n" == " Dell disk\n";
    assert " " + " Dell disk\n" == "  Dell disk\n";
  }

  lemma SkipsTwoSpaces(rest: string)
    requires rest != "" && !IsSpace(rest[0])
    ensures SkipSpace(" " + (" " + rest)) == rest
  {
    SkipsOneSpace(rest);
    assert (" " + (" " + rest))[1..] == " " + rest;
  }

  /** Other headers exist: a vendor's name that begins with hexadecimal digits is read as a key. */
  lemma VendorLineReadsAsKey()
    ensures ScannedKeys(["  Dell disk\n"]) == [0xDE]
  {
    hide ScanNumber, Value, AllDigits, Digit;
    var line, t := "  Dell disk\n", "De" + "ll disk\n";
    DellText();
    SkipsTwoSpaces(t);
    DellDigits();
    ScanDigits("De", "ll disk\n", 16, |t|);
    assert [line][..0] == [];
  }

  /** The buffer with twice the room. */
  method Doubled(keys: array<Key>) returns (bigger: array<Key>)
    ensures bigger.Length == 2 * keys.Length && bigger[..keys.Length] == keys[..]
    ensures fresh(bigger)
  {
    bigger := new Key[2 * keys.Length];
    var i := 0;
    while i < keys.Length
      invariant i <= keys.Length && bigger[..i] == keys[..i]
    {
      bigger[i] := keys[i];
      i := i + 1;
    }
  }

  /** device_get_registered_keys: a buffer of 8 keys that doubles when it is full. */
  method GetRegisteredKeys(lines: seq<string>, rc: int) returns (ok: bool, numKeys: nat, res: array<Key>)
    ensures ok <==> rc == 0
    ensures numKeys <= res.Length && res[..numKeys] == ScannedKeys(lines)
    ensures RegisteredReply(lines, rc) == if ok then Registered(res[..numKeys]) else Failed
  {
    hide ScanRegistered;
    var keys := new Key[8];
    var i, n := 0, 0;
    while n < |lines|
      invariant n <= |lines| && i <= keys.Length && 8 <= keys.Length
      invariant fresh(keys)
      invariant keys[..i] == ScannedKeys(lines[..n])
    {
      if i >= keys.Length {
        keys := Doubled(keys);
      }
      assert lines[..n + 1][..n] == lines[..n];
      var scanned := ScanRegistered(lines[n]);
      if scanned.Some? {
        keys[i] := scanned.value;
        i := i + 1;
      }
      n := n + 1;
    }
    assert lines[..n] == lines;
    return rc == 0, i, keys;
  }

  /** validate_node_quorum_disk_keys: every node key is one of the keys read from the disk. */
  method ValidateNodeQuorumDiskKeys(lines: seq<string>, rc: int, nodeKeys: seq<Key>) returns (valid: bool)
    ensures valid <==> rc == 0 && forall k | k in nodeKeys :: k in ScannedKeys(lines)
  {
    var ok, n, res := GetRegisteredKeys(lines, rc);
    valid := false;
    if ok {
      valid := QdiskDaemon.ValidateKeys(nodeKeys, res[..n]);
    }
  }
}
