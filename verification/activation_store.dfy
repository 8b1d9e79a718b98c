/** The activation record: which cards may be used, and the latest clock reading
    seen (activation_store_v1.cpp:137-304). Verifying a code and sealing the
    file are not modelled; the text inside the file is. */
module ActivationStore {
  import opened Wrappers
  import opened Decimal

  const HEADER := "usb-vault activation v1\n"
  const HIGHEST_KEY := "highest="
  const CODE_KEY := "code="
  const MAXIMUM_ENTRIES := 64
  const SAVE_INTERVAL := 60
  const REWIND_TOLERANCE := 600
  const CODE_LIMIT := 512
  const INT64_MAX := 0x7FFF_FFFF_FFFF_FFFF

  type Seconds = x: int | -0x8000_0000_0000_0000 <= x <= INT64_MAX

  datatype Grant = Grant(card: nat, expires: Seconds)

  datatype Entry = Entry(grant: Grant, code: string)

  type Entries = map<nat, Entry>

  type Verifier = string -> Option<Grant>

  /** Every entry is the verified grant of its own card, on one line. */
  ghost predicate Proven(entries: Entries, verify: Verifier) {
    && |entries| <= MAXIMUM_ENTRIES
    && forall card :: card in entries ==>
         && verify(entries[card].code) == Some(entries[card].grant)
         && entries[card].grant.card == card
         && '\n' !in entries[card].code
  }

  // -- Reading -------------------------------------------------------------------------------------

  datatype Contents = Contents(highest: nat, entries: Entries)

  /** A positive number that fits; anything else leaves the mark alone. */
  function ParseMark(digits: string): Option<nat> {
    match ParseDigits(digits)
    case None => None
    case Some(n) => if 0 < n <= INT64_MAX then Some(n) else None
  }

  /** Every stored code is verified again. */
  function TakeLine(c: Contents, line: string, verify: Verifier): Contents {
    if HIGHEST_KEY <= line then
      match ParseMark(line[|HIGHEST_KEY|..])
      case None => c
      case Some(n) => c.(highest := n)
    else if CODE_KEY <= line && |c.entries| < MAXIMUM_ENTRIES then
      var code := line[|CODE_KEY|..];
      match verify(code)
      case None => c
      case Some(grant) => c.(entries := c.entries[grant.card := Entry(grant, code)])
    else c
  }

  function LineEnd(text: string): (n: nat)
    ensures n <= |text| && '\n' !in text[..n] && (n < |text| ==> text[n] == '\n')
  {
    if text == "" || text[0] == '\n' then 0 else
      assert forall n :: 0 <= n <= |text[1..]| ==> text[..n + 1] == [text[0]] + text[1..][..n];
      1 + LineEnd(text[1..])
  }

  function FirstLine(text: string): (line: string)
    ensures '\n' !in line
  {
    text[..LineEnd(text)]
  }

  function AfterLine(text: string): (rest: string)
    ensures text != "" ==> |rest| < |text|
  {
    if LineEnd(text) < |text| then text[LineEnd(text) + 1..] else ""
  }

  function ReadLines(c: Contents, text: string, verify: Verifier): Contents
    decreases |text|
  {
    if text == "" then c else ReadLines(TakeLine(c, FirstLine(text), verify), AfterLine(text), verify)
  }

  function Load(c: Contents, text: string, verify: Verifier): Contents {
    if HEADER <= text then ReadLines(c, text[|HEADER|..], verify) else c
  }

  // -- Printing ------------------------------------------------------------------------------------

  lemma SmallestExists(s: set<nat>, k: nat)
    requires k in s
    ensures exists m :: m in s && forall j :: j in s ==> m <= j
  {
    if j :| j in s && j < k {
      SmallestExists(s, j);
    }
  }

  function Smallest(s: set<nat>): (k: nat)
    requires s != {}
    ensures k in s && forall j :: j in s ==> k <= j
  {
    var any :| any in s;
    SmallestExists(s, any);
    var k :| k in s && forall j :: j in s ==> k <= j;
    k
  }

  /** The codes in the order of their cards. */
  function PrintCodes(entries: Entries): string
    decreases |entries|
  {
    if entries == map[] then ""
    else
      var card := Smallest(entries.Keys);
      OneLessEntry(entries, card);
      CODE_KEY + entries[card].code + "\n" + PrintCodes(entries - {card})
  }

  function MarkLine(highest: nat): (line: string)
    ensures '\n' !in line
  {
    HIGHEST_KEY + Digits(highest)
  }

  function PrintLines(highest: nat, entries: Entries): string {
    MarkLine(highest) + "\n" + PrintCodes(entries)
  }

  function Print(highest: nat, entries: Entries): string {
    HEADER + PrintLines(highest, entries)
  }

  // -- What is printed reads back -------------------------------------------------------------------

  lemma EndsAt(line: string, rest: string)
    requires '\n' !in line
    ensures LineEnd(line + "\n" + rest) == |line|
  {
    if line != "" {
      assert (line + "\n" + rest)[1..] == line[1..] + "\n" + rest;
      EndsAt(line[1..], rest);
    }
  }

  lemma ReadsOneLine(c: Contents, line: string, rest: string, verify: Verifier)
    requires '\n' !in line
    ensures ReadLines(c, line + "\n" + rest, verify) == ReadLines(TakeLine(c, line, verify), rest, verify)
  {
    var text := line + "\n" + rest;
    EndsAt(line, rest);
    assert FirstLine(text) == line && AfterLine(text) == rest;
  }

  lemma TakesCode(c: Contents, code: string, verify: Verifier)
    requires |c.entries| < MAXIMUM_ENTRIES && verify(code).Some?
    ensures var grant := verify(code).value;
      TakeLine(c, CODE_KEY + code, verify) == c.(entries := c.entries[grant.card := Entry(grant, code)])
  {
    var line := CODE_KEY + code;
    assert line[0] == 'c' && HIGHEST_KEY[0] == 'h';
    assert line[|CODE_KEY|..] == code;
  }

  lemma TakesMark(c: Contents, n: nat, verify: Verifier)
    requires n <= INT64_MAX
    ensures TakeLine(c, MarkLine(n), verify) == if n > 0 then c.(highest := n) else c
  {
    StartsWith(HIGHEST_KEY, Digits(n));
    DigitsParse(n);
  }

  lemma OneLessEntry(entries: Entries, card: nat)
    requires card in entries
    ensures |entries - {card}| == |entries| - 1
    ensures (entries - {card}).Keys == entries.Keys - {card}
  {
  }

  lemma OneMoreEntry(entries: Entries, card: nat, entry: Entry)
    ensures entries[card := entry].Keys == entries.Keys + {card}
    ensures |entries[card := entry]| == if card in entries then |entries| else |entries| + 1
  {
  }

  lemma MovesOneEntry(a: Entries, b: Entries, card: nat)
    requires card in b && a.Keys !! b.Keys
    ensures a[card := b[card]] + (b - {card}) == a + b
    ensures a[card := b[card]].Keys !! (b - {card}).Keys
  {
  }

  lemma {:induction false} PrintedCodesRead(c: Contents, entries: Entries, verify: Verifier)
    requires Proven(entries, verify) && c.entries.Keys !! entries.Keys
    requires |c.entries| + |entries| <= MAXIMUM_ENTRIES
    ensures ReadLines(c, PrintCodes(entries), verify) == c.(entries := c.entries + entries)
    decreases |entries|
  {
    if entries == map[] {
      assert c.entries + entries == c.entries;
    } else {
      var card := Smallest(entries.Keys);
      var code, rest := entries[card].code, entries - {card};
      var more := c.(entries := c.entries[card := entries[card]]);
      OneLessEntry(entries, card);
      OneMoreEntry(c.entries, card, entries[card]);
      CodeLineReads(c, entries, card, verify);
      PrintedCodesRead(more, rest, verify);
      MovesOneEntry(c.entries, entries, card);
    }
  }

  lemma CodeLineReads(c: Contents, entries: Entries, card: nat, verify: Verifier)
    requires Proven(entries, verify) && |c.entries| < MAXIMUM_ENTRIES
    requires entries != map[] && card == Smallest(entries.Keys)
    ensures ReadLines(c, PrintCodes(entries), verify)
         == ReadLines(c.(entries := c.entries[card := entries[card]]), PrintCodes(entries - {card}), verify)
  {
    var line := CODE_KEY + entries[card].code;
    assert PrintCodes(entries) == line + "\n" + PrintCodes(entries - {card});
    ReadsOneLine(c, line, PrintCodes(entries - {card}), verify);
    TakesCode(c, entries[card].code, verify);
  }

  lemma PrintedLinesRead(highest: nat, entries: Entries, before: nat, verify: Verifier)
    requires highest <= INT64_MAX && Proven(entries, verify)
    ensures ReadLines(Contents(before, map[]), PrintLines(highest, entries), verify)
         == Contents(if highest > 0 then highest else before, entries)
  {
    var c, marked := Contents(before, map[]), Contents(if highest > 0 then highest else before, map[]);
    TakesMark(c, highest, verify);
    ReadsOneLine(c, MarkLine(highest), PrintCodes(entries), verify);
    OnlyCodesRead(marked, entries, verify);
  }

  lemma OnlyCodesRead(c: Contents, entries: Entries, verify: Verifier)
    requires Proven(entries, verify) && c.entries == map[]
    ensures ReadLines(c, PrintCodes(entries), verify) == Contents(c.highest, entries)
  {
    PrintedCodesRead(c, entries, verify);
    assert c.entries + entries == entries;
  }

  /** A saved record reads back as it was: the same entries, and the same mark
      when it is positive. A mark of zero says nothing. */
  lemma SavedRecordLoads(highest: nat, entries: Entries, before: nat, verify: Verifier)
    requires highest <= INT64_MAX && Proven(entries, verify)
    ensures Load(Contents(before, map[]), Print(highest, entries), verify)
         == Contents(if highest > 0 then highest else before, entries)
  {
    StartsWith(HEADER, PrintLines(highest, entries));
    PrintedLinesRead(highest, entries, before, verify);
  }

  lemma StartsWith(head: string, rest: string)
    ensures head <= head + rest && (head + rest)[|head|..] == rest
  {
  }

  /** Whatever a file contains, no entry is taken from it that does not verify. */
  lemma {:induction false} LoadedEntriesAreProven(c: Contents, text: string, verify: Verifier)
    requires Proven(c.entries, verify) && c.highest <= INT64_MAX
    ensures Proven(ReadLines(c, text, verify).entries, verify)
    ensures ReadLines(c, text, verify).highest <= INT64_MAX
    decreases |text|
  {
    if text != "" {
      LineKeepsProven(c, FirstLine(text), verify);
      LoadedEntriesAreProven(TakeLine(c, FirstLine(text), verify), AfterLine(text), verify);
    }
  }

  lemma LineKeepsProven(c: Contents, line: string, verify: Verifier)
    requires Proven(c.entries, verify) && '\n' !in line && c.highest <= INT64_MAX
    ensures Proven(TakeLine(c, line, verify).entries, verify)
    ensures TakeLine(c, line, verify).highest <= INT64_MAX
  {
  }

  // -- Judging and installing ------------------------------------------------------------------------

  datatype State = Missing | ClockRewound | Active | Expired

  /** What a grant is worth at a clock reading, given the latest reading seen. */
  function Evaluate(grant: Option<Grant>, card: nat, now: Seconds, highest: Seconds): State {
    if grant.None? || grant.value.card != card then Missing
    else if now <= 0 || (highest > REWIND_TOLERANCE && now < highest - REWIND_TOLERANCE) then ClockRewound
    else if now < grant.value.expires then Active
    else Expired
  }

  predicate IsSpacing(c: char) {
    c == '-' || c == ' ' || c == '\t' || c == '\r' || c == '\n'
  }

  function Upper(c: char): char {
    if 'a' <= c <= 'z' then (c as int - 'a' as int + 'A' as int) as char else c
  }

  /** The spelling that is kept: no separators, no small letters. */
  function Canonical(code: string): (r: string)
    ensures '\n' !in r
  {
    if code == "" then ""
    else Canonical(code[..|code| - 1]) + if IsSpacing(code[|code| - 1]) then "" else [Upper(code[|code| - 1])]
  }

  /** Separators and letter case mean nothing to the verifier. */
  ghost predicate IgnoresSpelling(verify: Verifier) {
    forall code :: verify(Canonical(code)) == verify(code)
  }

  /** Room for one more card: a full record loses the card with the smallest
      number, unless it already holds this one. */
  ghost function Roomy(entries: Entries, card: nat): Entries {
    if |entries| >= MAXIMUM_ENTRIES && card !in entries && entries != map[] then entries - {Smallest(entries.Keys)} else entries
  }

  lemma RoomMatters(entries: Entries, card: nat)
    ensures Roomy(entries, card) == entries <==> |entries| < MAXIMUM_ENTRIES || card in entries
  {
  }

  datatype Installed = Accepted | Invalid | OtherCard | IsExpired | IsRewound | Unwritten | Unreadable

  datatype Sealed = Absent | Foreign | Text(content: string)

  datatype ReadOutcome = Found(file: Sealed) | Denied

  function From(text: string, at: nat): string {
    if at < |text| then text[at..] else ""
  }

  function LineAt(text: string, at: nat): (line: string)
    requires at < |text|
    ensures at + |line| <= |text| && '\n' !in line
  {
    FirstLine(text[at..])
  }

  /** Where the line after this one starts. */
  function NextAt(text: string, at: nat): (next: nat)
    requires at < |text|
    ensures at < next
  {
    at + |LineAt(text, at)| + 1
  }

  ghost predicate Sound(c: Contents, verify: Verifier) {
    Proven(c.entries, verify) && c.highest <= INT64_MAX
  }

  /** What the rest of the text makes of what was read so far. */
  function ReadFrom(c: Contents, text: string, at: nat, verify: Verifier): Contents {
    ReadLines(c, From(text, at), verify)
  }

  /** One line on, from any place in the text. */
  lemma ReadsLineAt(c: Contents, text: string, at: nat, verify: Verifier)
    requires at < |text| && Sound(c, verify)
    ensures ReadFrom(TakeLine(c, LineAt(text, at), verify), text, NextAt(text, at), verify) == ReadFrom(c, text, at, verify)
    ensures Sound(TakeLine(c, LineAt(text, at), verify), verify)
  {
    LineKeepsProven(c, LineAt(text, at), verify);
    RestAfterLine(text, at);
  }

  lemma RestAfterLine(text: string, at: nat)
    requires at < |text|
    ensures AfterLine(From(text, at)) == From(text, NextAt(text, at))
  {
    var n := LineEnd(text[at..]);
    if at + n < |text| {
      DropTwice(text, at, n + 1);
    }
  }

  lemma DropTwice(text: string, at: nat, n: nat)
    requires at + n <= |text|
    ensures text[at..][n..] == text[at + n..]
  {
  }

  /** The entries that an installation leaves of those it found. */
  ghost function AfterInstall(found: Entries, r: Installed, card: nat, entry: Entry): Entries {
    if r == Accepted then Roomy(found, card)[card := entry] else if r == Unwritten then Roomy(found, card) else found
  }

  /** The sealed file: it can be unreadable for a while, and a write replaces it
      or leaves it. */
  class SealedFile {
    var file: Sealed

    constructor (file: Sealed)
      ensures this.file == file
    {
      this.file := file;
    }

    method Read() returns (r: ReadOutcome)
      ensures r.Found? ==> r.file == file
    {
      if * {
        return Denied;
      }
      return Found(file);
    }

    method Write(content: string) returns (written: bool)
      modifies this
      ensures file == if written then Text(content) else old(file)
    {
      if * {
        return false;
      }
      file := Text(content);
      return true;
    }
  }

  class Store {
    const disk: SealedFile
    const verify: Verifier
    var loaded: bool
    var highest: Seconds
    var savedHighest: Seconds
    var entries: Entries
    /** Clock readings taken since the record was loaded. */
    ghost var seen: set<int>

    ghost predicate Valid()
      reads this
    {
      && IgnoresSpelling(verify) && Proven(entries, verify)
      && 0 <= savedHighest && 0 <= highest
      && (loaded ==> savedHighest <= highest && forall t :: t in seen ==> t <= highest)
      && (!loaded ==> entries == map[] && savedHighest == 0 && seen == {})
    }

    constructor (disk: SealedFile, verify: Verifier)
      requires IgnoresSpelling(verify)
      ensures Valid() && !loaded && highest == 0 && this.disk == disk && this.verify == verify
    {
      this.disk, this.verify := disk, verify;
      loaded, highest, savedHighest, entries, seen := false, 0, 0, map[], {};
    }

    /** What a file adds to what is known before the first load. */
    ghost function Loaded(file: Sealed): Contents
      reads this
      requires 0 <= highest
    {
      if file.Text? then Load(Contents(highest, map[]), file.content, verify) else Contents(highest, map[])
    }

    method LoadOnce() returns (ok: bool)
      requires Valid()
      modifies this`loaded, this`highest, this`savedHighest, this`entries
      ensures Valid() && ok == loaded
      ensures old(loaded) || !ok ==>
        loaded == old(loaded) && highest == old(highest) && savedHighest == old(savedHighest) && entries == old(entries)
      ensures !old(loaded) && ok ==>
        && Contents(highest, entries) == old(Loaded(disk.file))
        && savedHighest == (if disk.file.Text? && HEADER <= disk.file.content then highest else 0)
    {
      if loaded {
        return true;
      }
      var outcome := disk.Read();
      if outcome.Denied? {
        return false;
      }
      loaded := true;
      if !outcome.file.Text? || !(HEADER <= outcome.file.content) {
        return true;
      }
      ReadRecord(outcome.file.content, |HEADER|);
      savedHighest := highest;
      return true;
    }

    /** Line by line, to the same end as `ReadLines`. */
    method ReadRecord(text: string, start: nat)
      requires 0 <= highest && Proven(entries, verify)
      modifies this`highest, this`entries
      ensures Proven(entries, verify) && 0 <= highest
      ensures Contents(highest, entries) == ReadFrom(old(Contents(highest, entries)), text, start, verify)
    {
      ghost var total := ReadFrom(Contents(highest, entries), text, start, verify);
      var at := start;
      while at < |text|
        invariant 0 <= highest && Proven(entries, verify)
        invariant ReadFrom(Contents(highest, entries), text, at, verify) == total
      {
        at := TakeNext(text, at);
      }
      assert From(text, at) == "";
    }

    method TakeNext(text: string, at: nat) returns (next: nat)
      requires at < |text| && 0 <= highest && Proven(entries, verify)
      modifies this`highest, this`entries
      ensures at < next && 0 <= highest && Proven(entries, verify)
      ensures ReadFrom(Contents(highest, entries), text, next, verify)
           == old(ReadFrom(Contents(highest, entries), text, at, verify))
    {
      ReadsLineAt(Contents(highest, entries), text, at, verify);
      TakeLineAt(text, at);
      return NextAt(text, at);
    }

    method TakeLineAt(text: string, at: nat)
      requires at < |text| && 0 <= highest && Proven(entries, verify)
      modifies this`highest, this`entries
      ensures 0 <= highest && Contents(highest, entries) == TakeLine(old(Contents(highest, entries)), LineAt(text, at), verify)
    {
      LineKeepsProven(Contents(highest, entries), LineAt(text, at), verify);
      var c := TakeLine(Contents(highest, entries), LineAt(text, at), verify);
      highest, entries := c.highest, c.entries;
    }

    method Save() returns (written: bool)
      requires Valid() && loaded
      modifies this`savedHighest, disk
      ensures Valid()
      ensures savedHighest == if written then highest else old(savedHighest)
      ensures disk.file == if written then Text(Print(highest, entries)) else old(disk.file)
    {
      var mark := HIGHEST_KEY + Digits(highest) + "\n";
      Associates(HEADER, mark, PrintCodes(entries));
      var text := PrintFrom(HEADER + mark);
      written := disk.Write(text);
      if written {
        savedHighest := highest;
      }
    }

    method PrintFrom(start: string) returns (text: string)
      ensures text == start + PrintCodes(entries)
    {
      text := start;
      var remaining := entries;
      while remaining != map[]
        invariant text + PrintCodes(remaining) == start + PrintCodes(entries)
        decreases |remaining|
      {
        var card := Smallest(remaining.Keys);
        var line := CODE_KEY + remaining[card].code + "\n";
        OneLessEntry(remaining, card);
        Associates(text, line, PrintCodes(remaining - {card}));
        text := text + line;
        remaining := remaining - {card};
      }
    }

    /** Takes a clock reading. Once the record is loaded the mark only rises, and
        never gets a minute ahead of the mark last saved. */
    method Observe(now: Seconds)
      requires Valid()
      modifies this, disk
      ensures Valid()
      ensures old(loaded) ==> loaded && entries == old(entries) && highest == (if now > old(highest) then now else old(highest))
      ensures loaded ==> now <= highest < savedHighest + SAVE_INTERVAL && seen == old(seen) + {now}
      ensures !loaded ==> highest == (if now > old(highest) then now else old(highest)) && disk.file == old(disk.file)
    {
      var ok := LoadOnce();
      Raise(now);
      if ok {
        SaveWhenDue();
      }
    }

    method Raise(now: Seconds)
      requires Valid()
      modifies this`highest, this`seen
      ensures Valid() && highest == (if now > old(highest) then now else old(highest))
      ensures seen == if loaded then old(seen) + {now} else old(seen)
    {
      if now > highest {
        highest := now;
      }
      if loaded {
        seen := seen + {now};
      }
    }

    /** An unwritable record is tried again an interval later. */
    method SaveWhenDue()
      requires Valid() && loaded
      modifies this`savedHighest, disk
      ensures Valid() && highest < savedHighest + SAVE_INTERVAL
    {
      if highest >= savedHighest + SAVE_INTERVAL {
        var written := Save();
        if !written {
          savedHighest := highest;
        }
      }
    }

    function GrantOf(card: nat): Option<Grant>
      reads this`entries
    {
      if card in entries then Some(entries[card].grant) else None
    }

    /** A card is usable only while the clock is within ten minutes of every
        reading taken since the record was loaded. */
    method StateOf(card: nat, now: Seconds) returns (st: State)
      requires Valid()
      modifies this, disk
      ensures Valid()
      ensures st == Evaluate(GrantOf(card), card, now, highest)
      ensures st == Active ==> loaded && now < entries[card].grant.expires
                               && forall t :: t in old(seen) ==> t - REWIND_TOLERANCE <= now
    {
      Observe(now);
      return Evaluate(GrantOf(card), card, now, highest);
    }

    /** The entries an operation works on: those held, or those of the file when
        it has not been read yet. */
    ghost function AtHand(): Entries
      reads this, disk
      requires 0 <= highest
    {
      if loaded then entries else Loaded(disk.file).entries
    }

    /** Keeps a grant that is for this card and usable now. A failure leaves the
        entries as they were found, exactly unless the record could not be
        written and was full without this card. */
    method Install(card: nat, code: string, now: Seconds) returns (r: Installed)
      requires Valid()
      modifies this, disk
      ensures Valid()
      ensures |code| > CODE_LIMIT || verify(code).None? <==> r == Invalid
      ensures r == OtherCard <==> |code| <= CODE_LIMIT && verify(code).Some? && verify(code).value.card != card
      ensures r in {Invalid, OtherCard, Unreadable} ==>
        entries == old(entries) && loaded == old(loaded) && disk.file == old(disk.file)
      ensures r !in {Invalid, OtherCard, Unreadable} ==>
        && loaded && now in seen
        && Evaluate(verify(code), card, now, highest) == (if r == IsExpired then Expired else if r == IsRewound then ClockRewound else Active)
      ensures r == Accepted ==>
        && loaded && card in entries && entries[card] == Entry(verify(code).value, Canonical(code))
        && Evaluate(verify(code), card, now, highest) == Active
        && disk.file == Text(Print(highest, entries)) && savedHighest == highest
      ensures r !in {Invalid, OtherCard, Unreadable} ==>
        entries == AfterInstall(old(AtHand()), r, card, Entry(verify(code).value, Canonical(code)))
      ensures r in {IsExpired, IsRewound, Unwritten} ==>
        (entries == old(AtHand()) <==> r != Unwritten || |old(AtHand())| < MAXIMUM_ENTRIES || card in old(AtHand()))
    {
      if |code| > CODE_LIMIT || verify(code).None? {
        return Invalid;
      }
      var grant := verify(code).value;
      if grant.card != card {
        return OtherCard;
      }
      ghost var found := AtHand();
      r := InstallVerified(card, Entry(grant, Canonical(code)), now);
      RoomMatters(found, card);
    }

    method InstallVerified(card: nat, entry: Entry, now: Seconds) returns (r: Installed)
      requires Valid() && entry.grant.card == card && verify(entry.code) == Some(entry.grant) && '\n' !in entry.code
      modifies this, disk
      ensures Valid() && r !in {Invalid, OtherCard}
      ensures r == Unreadable ==> entries == old(entries) && loaded == old(loaded) && disk.file == old(disk.file)
      ensures r != Unreadable ==>
        && loaded && now in seen && entries == AfterInstall(old(AtHand()), r, card, entry)
        && Evaluate(Some(entry.grant), card, now, highest)
           == (if r == IsExpired then Expired else if r == IsRewound then ClockRewound else Active)
      ensures r == Accepted ==> disk.file == Text(Print(highest, entries)) && savedHighest == highest
    {
      var ok := LoadOnce();
      if !ok {
        return Unreadable;
      }
      Observe(now);
      r := KeepIfActive(card, entry, now);
    }

    method KeepIfActive(card: nat, entry: Entry, now: Seconds) returns (r: Installed)
      requires Valid() && loaded
      requires entry.grant.card == card && verify(entry.code) == Some(entry.grant) && '\n' !in entry.code
      modifies this`entries, this`savedHighest, disk
      ensures Valid() && r !in {Invalid, OtherCard, Unreadable} && entries == AfterInstall(old(entries), r, card, entry)
      ensures Evaluate(Some(entry.grant), card, now, highest)
           == (if r == IsExpired then Expired else if r == IsRewound then ClockRewound else Active)
      ensures r == Accepted ==> disk.file == Text(Print(highest, entries)) && savedHighest == highest
    {
      match Evaluate(Some(entry.grant), card, now, highest)
      case ClockRewound => return IsRewound;
      case Active => r := Keep(card, entry);
      case _ => return IsExpired;
    }

    method Keep(card: nat, entry: Entry) returns (r: Installed)
      requires Valid() && loaded && entry.grant.card == card && verify(entry.code) == Some(entry.grant) && '\n' !in entry.code
      modifies this`entries, this`savedHighest, disk
      ensures Valid() && (r == Accepted || r == Unwritten)
      ensures entries == if r == Accepted then Roomy(old(entries), card)[card := entry] else Roomy(old(entries), card)
      ensures r == Accepted ==> disk.file == Text(Print(highest, entries)) && savedHighest == highest
      ensures r == Unwritten ==> disk.file == old(disk.file) && savedHighest == old(savedHighest)
    {
      MakeRoom(card);
      r := Put(card, entry);
    }

    method MakeRoom(card: nat)
      requires Valid() && loaded
      modifies this`entries
      ensures Valid() && entries == Roomy(old(entries), card)
      ensures |entries| < MAXIMUM_ENTRIES || card in entries
    {
      if |entries| >= MAXIMUM_ENTRIES && card !in entries {
        OneLessEntry(entries, Smallest(entries.Keys));
        entries := entries - {Smallest(entries.Keys)};
      }
    }

    /** The entry and the file change together, or neither does. */
    method Put(card: nat, entry: Entry) returns (r: Installed)
      requires Valid() && loaded && (|entries| < MAXIMUM_ENTRIES || card in entries)
      requires entry.grant.card == card && verify(entry.code) == Some(entry.grant) && '\n' !in entry.code
      modifies this`entries, this`savedHighest, disk
      ensures Valid() && (r == Accepted || r == Unwritten)
      ensures entries == if r == Accepted then old(entries)[card := entry] else old(entries)
      ensures r == Accepted ==> disk.file == Text(Print(highest, entries)) && savedHighest == highest
      ensures r == Unwritten ==> disk.file == old(disk.file) && savedHighest == old(savedHighest)
    {
      var restore := if card in entries then Some(entries[card]) else None;
      SetEntry(card, entry);
      var written := Save();
      if written {
        return Accepted;
      }
      entries := if restore.Some? then entries[card := restore.value] else entries - {card};
      assert entries == old(entries);
      return Unwritten;
    }

    method SetEntry(card: nat, entry: Entry)
      requires Valid() && loaded && (|entries| < MAXIMUM_ENTRIES || card in entries)
      requires entry.grant.card == card && verify(entry.code) == Some(entry.grant) && '\n' !in entry.code
      modifies this`entries
      ensures Valid() && entries == old(entries)[card := entry]
    {
      OneMoreEntry(entries, card, entry);
      entries := entries[card := entry];
    }
  }

  /** What one process saved, the next one reads. */
  method RestartKeepsRecord(store: Store) returns (again: Store, ok: bool)
    requires store.Valid() && store.loaded && store.highest > 0
    modifies store`savedHighest, store.disk
    ensures ok ==> again.loaded && again.highest == store.highest && again.savedHighest == store.highest && again.entries == store.entries
  {
    var written := store.Save();
    again := new Store(store.disk, store.verify);
    ok := again.LoadOnce();
    SavedRecordLoads(store.highest, store.entries, 0, store.verify);
    StartsWith(HEADER, PrintLines(store.highest, store.entries));
    ok := ok && written;
  }
}
