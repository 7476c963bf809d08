/** The statistics source: parses lines of the kernel's block-device counter
    file (14 positional fields per device, in the kernel's iostats layout) and
    keeps, per device name, the latest reading and the field-wise difference
    from the reading before it. */
module Diskstats {
  import opened Wrappers
  import opened Uint64
  import opened Strings
  import opened Strconv

  // Positions of the 14 fields of a counter line, counted from 0.
  const Major := 0
  const Minor := 1
  const Name := 2
  const ReadIOps := 3
  const ReadIOpsMerged := 4
  const ReadSectors := 5
  const ReadTime := 6
  const WriteIOps := 7
  const WriteIOpsMerged := 8
  const WriteSectors := 9
  const WriteTime := 10
  const InFlight := 11
  const TotalTime := 12
  const WeightedTime := 13

  /** The number of positional fields read from a line; later ones are ignored. */
  const FieldCount := 14

  /** Bytes per sector in the kernel's sector counters. */
  const SectorSize := 512

  /** The fixed 14-slot counter array of a record. */
  type Counters = s: seq<U64> | |s| == 14 witness Zeros

  /** One device's record. Slot `Name` of `data` is never written: the device
      name lives in `name` and that slot stays 0. */
  datatype Statline = Statline(name: string, data: Counters)

  const Zeros: seq<U64> := [0, 0, 0, 0, 0, 0, 0, 0, 0, 0, 0, 0, 0, 0]

  /** The zero record a parse starts from. */
  const Blank := Statline("", Zeros)

  datatype ParseError =
    | BadNumber(position: nat, text: string, kind: NumError)
    | MissingField(position: nat)
  {
    function Position(): nat {
      match this
      case BadNumber(p, _, _) => p
      case MissingField(p) => p
    }
  }

  // ---------------------------------------------------------------- parsing

  /** Field `i` of `fs` is acceptable to the parser: it exists, and it is a
      64-bit unsigned decimal unless it is the name. */
  predicate GoodField(fs: seq<string>, i: nat) {
    i < |fs| && (i == Name || ParseUint(fs[i]).Success?)
  }

  /** The parser's loop from position `i` on, with the record built so far in
      `acc`: the name is copied, every other field is read as a number, the
      first failure ends the loop. A missing field is an error here; the
      source indexes the field list without a length check (see
      `ParseFromUnchecked`). */
  function ParseFrom(fs: seq<string>, i: nat, acc: Statline): (r: Result<Statline, ParseError>)
    requires i <= FieldCount
    ensures r.Success? && i < FieldCount ==> FieldCount <= |fs|
    ensures r.Success? ==> r.value.data[Name] == acc.data[Name]
    ensures r.Success? ==> r.value.name == if i <= Name then fs[Name] else acc.name
    ensures r.Failure? ==> i <= r.error.Position() < FieldCount
    ensures r.Failure? && r.error.MissingField? ==> r.error.position >= |fs|
    ensures r.Failure? && r.error.MissingField? && i <= |fs| ==> r.error.position == |fs|
    ensures r.Failure? && r.error.BadNumber? ==> r.error.position != Name
    decreases FieldCount - i
  {
    if i == FieldCount then Success(acc)
    else if i >= |fs| then Failure(MissingField(i))
    else if i == Name then ParseFrom(fs, i + 1, acc.(name := fs[i]))
    else match ParseUint(fs[i])
      case Failure(kind) => Failure(BadNumber(i, fs[i], kind))
      case Success(v) => ParseFrom(fs, i + 1, acc.(data := acc.data[i := v]))
  }

  /** The parser's loop exactly as the source has it: `fields[i]` is read for
      every `i` below 14 with no length check, so it is defined only on field
      lists of at least 14 entries. */
  function ParseFromUnchecked(fs: seq<string>, i: nat, acc: Statline): (r: Result<Statline, ParseError>)
    requires i <= FieldCount <= |fs|
    ensures r.Success? ==> r.value.name == if i <= Name then fs[Name] else acc.name
    ensures r.Failure? ==> r.error.BadNumber? && i <= r.error.position < FieldCount && r.error.position != Name
    decreases FieldCount - i
  {
    if i == FieldCount then Success(acc)
    else if i == Name then ParseFromUnchecked(fs, i + 1, acc.(name := fs[i]))
    else match ParseUint(fs[i])
      case Failure(kind) => Failure(BadNumber(i, fs[i], kind))
      case Success(v) => ParseFromUnchecked(fs, i + 1, acc.(data := acc.data[i := v]))
  }

  function ParseFields(fs: seq<string>): Result<Statline, ParseError> {
    ParseFrom(fs, 0, Blank)
  }

  /** `ParseLine` as a function of the line: split on white space, then read
      the first 14 fields. */
  function Parse(line: string): (r: Result<Statline, ParseError>)
    ensures r.Success? ==> |Fields(line)| >= FieldCount
    ensures r.Success? ==> r.value.name == Fields(line)[Name] && r.value.data[Name] == 0
    ensures r.Failure? ==> r.error.Position() < FieldCount
    ensures r.Failure? && r.error.MissingField? ==> r.error.position == |Fields(line)|
    ensures r.Failure? && r.error.BadNumber? ==> r.error.position != Name
  {
    ParseFields(Fields(line))
  }

  /** Every position from `i` up to the last of the 14 is acceptable. */
  predicate GoodFrom(fs: seq<string>, i: nat) {
    forall j :: i <= j < FieldCount ==> GoodField(fs, j)
  }

  /** The loop from position `i` succeeds exactly when every remaining
      position is acceptable. */
  lemma {:induction false} ParseFromSucceeds(fs: seq<string>, i: nat, acc: Statline)
    requires i <= FieldCount
    ensures ParseFrom(fs, i, acc).Success? <==> GoodFrom(fs, i)
    decreases FieldCount - i
  {
    if i < FieldCount {
      assert GoodFrom(fs, i) <==> GoodField(fs, i) && GoodFrom(fs, i + 1);
      if i < |fs| {
        if i == Name {
          ParseFromSucceeds(fs, i + 1, acc.(name := fs[i]));
        } else if ParseUint(fs[i]).Success? {
          ParseFromSucceeds(fs, i + 1, acc.(data := acc.data[i := ParseUint(fs[i]).value]));
        }
      }
    }
  }

  /** A successful loop from position `i` keeps the slots before `i`, takes the
      name from field 3 and each later number from its field, and never
      writes the name slot. */
  lemma {:induction false} ParseFromValue(fs: seq<string>, i: nat, acc: Statline)
    requires i <= FieldCount <= |fs|
    requires ParseFrom(fs, i, acc).Success?
    ensures var v := ParseFrom(fs, i, acc).value;
      && v.name == (if i <= Name then fs[Name] else acc.name)
      && v.data[Name] == acc.data[Name]
      && (forall j :: 0 <= j < i ==> v.data[j] == acc.data[j])
      && (forall j :: i <= j < FieldCount && j != Name ==> ParseUint(fs[j]) == Success(v.data[j]))
    decreases FieldCount - i
  {
    if i < FieldCount {
      if i == Name {
        ParseFromValue(fs, i + 1, acc.(name := fs[i]));
      } else {
        ParseFromValue(fs, i + 1, acc.(data := acc.data[i := ParseUint(fs[i]).value]));
      }
    }
  }

  /** A failed loop from position `i` reports the first position at or after
      `i` that is missing or not a 64-bit unsigned decimal. */
  lemma {:induction false} ParseFromError(fs: seq<string>, i: nat, acc: Statline)
    requires i <= FieldCount
    requires ParseFrom(fs, i, acc).Failure?
    ensures var e := ParseFrom(fs, i, acc).error; var p := e.Position();
      && i <= p < FieldCount
      && (forall j :: i <= j < p ==> GoodField(fs, j))
      && (p >= |fs| ==> e == MissingField(p))
      && (p < |fs| ==> ParseUint(fs[p]).Failure? && e == BadNumber(p, fs[p], ParseUint(fs[p]).error))
    decreases FieldCount - i
  {
    if i < |fs| {
      var next := if i == Name then acc.(name := fs[i])
        else if ParseUint(fs[i]).Success? then acc.(data := acc.data[i := ParseUint(fs[i]).value])
        else acc;
      if i == Name || ParseUint(fs[i]).Success? {
        assert GoodField(fs, i);
        assert ParseFrom(fs, i, acc) == ParseFrom(fs, i + 1, next);
        ParseFromError(fs, i + 1, next);
      } else {
        assert ParseFrom(fs, i, acc).error == BadNumber(i, fs[i], ParseUint(fs[i]).error);
      }
    } else {
      assert ParseFrom(fs, i, acc).error == MissingField(i);
    }
  }

  /** Success and contents of a parse: it succeeds exactly when the line has at
      least 14 fields and every numeric one among the first 14 is a 64-bit
      unsigned decimal; then the name is field 3, every other slot holds its
      field's number, and the name slot holds 0. */
  lemma ParseSuccess(line: string)
    ensures var fs := Fields(line); var r := Parse(line);
      && (r.Success? <==>
            |fs| >= FieldCount &&
            forall j :: 0 <= j < FieldCount && j != Name ==> ParseUint(fs[j]).Success?)
      && (r.Success? ==>
            && r.value.name == fs[Name]
            && r.value.data[Name] == 0
            && forall j :: 0 <= j < FieldCount && j != Name ==> ParseUint(fs[j]) == Success(r.value.data[j]))
  {
    var fs := Fields(line);
    ParseFromSucceeds(fs, 0, Blank);
    if ParseFrom(fs, 0, Blank).Success? {
      assert GoodField(fs, FieldCount - 1);
      ParseFromValue(fs, 0, Blank);
    }
    if |fs| >= FieldCount && forall j :: 0 <= j < FieldCount && j != Name ==> ParseUint(fs[j]).Success? {
      assert forall j :: 0 <= j < FieldCount ==> GoodField(fs, j);
    }
  }

  /** Failure of a parse: the error names the first of the 14 positions that is
      missing or not a 64-bit unsigned decimal, with the text of that field. */
  lemma ParseFailure(line: string)
    requires Parse(line).Failure?
    ensures var fs := Fields(line); var e := Parse(line).error; var p := e.Position();
      && p < FieldCount
      && (forall j :: 0 <= j < p ==> GoodField(fs, j))
      && (p >= |fs| ==> e == MissingField(p))
      && (p < |fs| ==> ParseUint(fs[p]).Failure? && e == BadNumber(p, fs[p], ParseUint(fs[p]).error))
  {
    ParseFromError(Fields(line), 0, Blank);
  }

  /** A line laid out in columns as the kernel writes it (leading blanks,
      runs of blanks between fields, a trailing newline) is parsed from its
      words, so `ParseSuccess` and `ParseFailure` speak of those words. */
  lemma ParseOfColumns(pad: string, ws: seq<string>, seps: seq<string>)
    requires |ws| == |seps| && AllSpace(pad)
    requires forall i :: 0 <= i < |ws| ==> IsWord(ws[i]) && AllSpace(seps[i])
    requires forall i :: 0 <= i < |seps| - 1 ==> seps[i] != []
    ensures Parse(pad + Spaced(ws, seps)) == ParseFields(ws)
  {
    FieldsOfSpaced(pad, ws, seps);
  }

  /** Fields after the 14th are ignored. */
  lemma {:induction false} ParseIgnoresExtraFields(fs: seq<string>, extra: seq<string>, i: nat, acc: Statline)
    requires i <= FieldCount <= |fs|
    ensures ParseFrom(fs + extra, i, acc) == ParseFrom(fs, i, acc)
    decreases FieldCount - i
  {
    if i < FieldCount {
      assert (fs + extra)[i] == fs[i];
      if i == Name {
        ParseIgnoresExtraFields(fs, extra, i + 1, acc.(name := fs[i]));
      } else if ParseUint(fs[i]).Success? {
        ParseIgnoresExtraFields(fs, extra, i + 1, acc.(data := acc.data[i := ParseUint(fs[i]).value]));
      }
    }
  }

  /** On lines of at least 14 fields the checked loop and the source's
      unchecked one agree. */
  lemma {:induction false} CheckedAgreesWithUnchecked(fs: seq<string>, i: nat, acc: Statline)
    requires i <= FieldCount <= |fs|
    ensures ParseFrom(fs, i, acc) == ParseFromUnchecked(fs, i, acc)
    decreases FieldCount - i
  {
    if i < FieldCount {
      if i == Name {
        CheckedAgreesWithUnchecked(fs, i + 1, acc.(name := fs[i]));
      } else if ParseUint(fs[i]).Success? {
        CheckedAgreesWithUnchecked(fs, i + 1, acc.(data := acc.data[i := ParseUint(fs[i]).value]));
      }
    }
  }

  /** A three-field line is outside the source's unchecked loop (it would read
      `fields[3]` of a three-element list); the checked parser reports the
      missing fourth field instead. */
  lemma ShortLineMissesField()
    ensures |Fields("8 0 sda")| == 3 < FieldCount
    ensures Parse("8 0 sda") == Failure(MissingField(3))
  {
    ShortLineFields();
    ShortFieldsMissField();
  }

  lemma ShortFieldsMissField()
    ensures ParseFields(["8", "0", "sda"]) == Failure(MissingField(3))
  {
    var ws := ["8", "0", "sda"];
    assert ParseUint("8") == Success(8) by { assert Decimal("8") == 8; }
    assert ParseUint("0") == Success(0) by { assert Decimal("0") == 0; }
    var a1 := Blank.(data := Blank.data[Major := 8]);
    var a2 := a1.(data := a1.data[Minor := 0]);
    assert ParseFrom(ws, 3, a2.(name := "sda")) == Failure(MissingField(3));
    assert ParseFrom(ws, 1, a1) == ParseFrom(ws, 2, a2);
    assert ParseFrom(ws, 0, Blank) == ParseFrom(ws, 1, a1);
  }

  lemma ShortLineFields()
    ensures Fields("8 0 sda") == ["8", "0", "sda"]
  {
    var ws := ["8", "0", "sda"];
    assert IsWord(ws[0]) && IsWord(ws[1]) && IsWord(ws[2]);
    assert JoinWords(ws) == "8 0 sda" by {
      assert JoinWords(ws[2..]) == "sda";
      assert JoinWords(ws[1..]) == "0 sda";
    }
    FieldsOfJoinWords(ws);
  }

  /** `ParseLine`: fills a 14-slot array field by field, as the source does. */
  method ParseLine(line: string) returns (r: Result<Statline, ParseError>)
    ensures r == Parse(line)
  {
    var fields := Fields(line);
    var data := new U64[FieldCount](_ => 0);
    var name := "";
    assert data[..] == Blank.data;
    var i := 0;
    while i < FieldCount
      invariant 0 <= i <= FieldCount
      invariant ParseFrom(fields, i, Statline(name, data[..])) == Parse(line)
    {
      if i >= |fields| {
        return Failure(MissingField(i));
      }
      var field := fields[i];
      if i == Name {
        name := field;
      } else {
        var v := ParseUint(field);
        if v.Failure? {
          return Failure(BadNumber(i, field, v.error));
        }
        ghost var before := Statline(name, data[..]);
        data[i] := v.value;
        assert Statline(name, data[..]) == before.(data := before.data[i := v.value]);
      }
      i := i + 1;
    }
    return Success(Statline(name, data[..]));
  }

  // ------------------------------------------------------- deltas and rates

  /** The record of what changed between two readings of one device: each
      counter's `uint64` difference (wrapping when a counter went backwards)
      and an empty name. */
  function Diff(newer: Statline, older: Statline): (d: Statline)
    ensures d.name == ""
  {
    Statline("", seq(FieldCount, i requires 0 <= i < FieldCount => Wrap(newer.data[i] as int - older.data[i] as int)))
  }

  /** The delta is what must be added, in `uint64` arithmetic, to the older
      reading to give the newer one; where a counter did not go backwards it
      is the plain difference. */
  lemma DiffInverse(newer: Statline, older: Statline, i: nat)
    requires i < FieldCount
    ensures Wrap(older.data[i] as int + Diff(newer, older).data[i] as int) == newer.data[i]
    ensures older.data[i] <= newer.data[i] ==> Diff(newer, older).data[i] == newer.data[i] - older.data[i]
  {
    var a, b := older.data[i] as int, newer.data[i] as int;
    var d := Diff(newer, older).data[i] as int;
    if a <= b {
      assert d == b - a;
    } else {
      assert d == b - a + TWO64;
    }
  }

  /** The source's inner loop that builds a delta record slot by slot. */
  method Subtract(newer: Statline, older: Statline) returns (d: Statline)
    ensures d == Diff(newer, older)
  {
    var data := new U64[FieldCount](_ => 0);
    for i := 0 to FieldCount
      invariant forall j :: 0 <= j < i ==> data[j] == Wrap(newer.data[j] as int - older.data[j] as int)
    {
      data[i] := Wrap(newer.data[i] as int - older.data[i] as int);
    }
    d := Statline("", data[..]);
  }

  /** `Rate`: sectors read and written as bytes, in `uint64` arithmetic. A byte
      count is a whole number of sectors and gives back the sector count
      modulo 2^55. */
  function Rate(sl: Statline): (r: (U64, U64))
    ensures r.0 % SectorSize == 0 && r.0 / SectorSize == sl.data[ReadSectors] % 0x80_0000_0000_0000
    ensures r.1 % SectorSize == 0 && r.1 / SectorSize == sl.data[WriteSectors] % 0x80_0000_0000_0000
  {
    SectorsToBytes(sl.data[ReadSectors]);
    SectorsToBytes(sl.data[WriteSectors]);
    (Wrap(sl.data[ReadSectors] * SectorSize), Wrap(sl.data[WriteSectors] * SectorSize))
  }

  lemma SectorsToBytes(n: nat)
    ensures Wrap(n * SectorSize) == (n % 0x80_0000_0000_0000) * SectorSize
  {
    var q, s := n / 0x80_0000_0000_0000, n % 0x80_0000_0000_0000;
    assert n * SectorSize == q * TWO64 + s * SectorSize;
    assert 0 <= s * SectorSize < TWO64;
  }

  /** Below 2^55 sectors no byte count wraps. */
  lemma RateExact(sl: Statline)
    requires sl.data[ReadSectors] < 0x80_0000_0000_0000 && sl.data[WriteSectors] < 0x80_0000_0000_0000
    ensures Rate(sl) == (sl.data[ReadSectors] * SectorSize, sl.data[WriteSectors] * SectorSize)
  {
  }

  // -------------------------------------------------------- device names

  const DevPrefix := "/dev/"

  /** `SanitizeDiskName`: resolve the name through the symbolic-link resolver
      `resolve` (a failed resolution keeps the name), then drop one leading
      `/dev/`. */
  function SanitizeDiskName(name: string, resolve: string -> Option<string>): (r: string)
    ensures var resolved := if resolve(name).Some? then resolve(name).value else name;
      && (HasPrefix(resolved, DevPrefix) ==> DevPrefix + r == resolved)
      && (!HasPrefix(resolved, DevPrefix) ==> r == resolved)
  {
    var resolved := match resolve(name)
      case Some(target) => target
      case None => name;
    TrimPrefix(resolved, DevPrefix)
  }

  /** Exactly one `/dev/` is removed, even when the rest starts with another. */
  lemma SanitizeStripsOnce(rest: string, resolve: string -> Option<string>)
    requires resolve(DevPrefix + rest).None?
    ensures SanitizeDiskName(DevPrefix + rest, resolve) == rest
  {
    assert (DevPrefix + rest)[..|DevPrefix|] == DevPrefix;
  }

  /** A short name that does not resolve is its own key. */
  lemma SanitizeKeepsShortName(name: string, resolve: string -> Option<string>)
    requires resolve(name).None? && !HasPrefix(name, DevPrefix)
    ensures SanitizeDiskName(name, resolve) == name
  {
  }

  /** Sanitizing is not idempotent: a doubled prefix loses one `/dev/` per call. */
  lemma SanitizeNotIdempotent()
    ensures var resolve := (_: string) => None;
      var once := SanitizeDiskName("/dev//dev/sda", resolve);
      once == "/dev/sda" && SanitizeDiskName(once, resolve) == "sda"
  {
    var resolve := (_: string) => None;
    SanitizeStripsOnce("/dev/sda", resolve);
    assert "/dev//dev/sda" == DevPrefix + "/dev/sda";
    SanitizeStripsOnce("sda", resolve);
    assert "/dev/sda" == DevPrefix + "sda";
  }

  // ------------------------------------------------------------ polling

  /** The two maps of the statistics source: latest reading and latest delta,
      both keyed by device name. */
  datatype Tables = Tables(stats: map<string, Statline>, delta: map<string, Statline>)

  const NoTables := Tables(map[], map[])

  /** What holds of the maps whatever lines were polled: each reading is
      filed under its own name, deltas carry no name, and only a device that
      has a reading can have a delta. */
  predicate Consistent(t: Tables) {
    && t.delta.Keys <= t.stats.Keys
    && (forall n :: n in t.stats ==> t.stats[n].name == n)
    && (forall n :: n in t.delta ==> t.delta[n].name == "")
  }

  /** The effect of one parsed line: a device already known gets the
      difference from its previous reading as its delta; every device gets the
      new reading. */
  function Record(t: Tables, sl: Statline): (t': Tables)
    ensures t'.stats == t.stats[sl.name := sl]
    ensures sl.name !in t.stats ==> t'.delta == t.delta
    ensures sl.name in t.stats ==> t'.delta == t.delta[sl.name := Diff(sl, t.stats[sl.name])]
  {
    var delta := if sl.name in t.stats then t.delta[sl.name := Diff(sl, t.stats[sl.name])] else t.delta;
    Tables(t.stats[sl.name := sl], delta)
  }

  datatype PollResult = PollResult(tables: Tables, err: Option<ParseError>)

  /** The parse of each line, in order. */
  function ParseAll(lines: seq<string>): (rs: seq<Result<Statline, ParseError>>)
    ensures |rs| == |lines|
    ensures forall i :: 0 <= i < |lines| ==> rs[i] == Parse(lines[i])
  {
    if lines == [] then [] else [Parse(lines[0])] + ParseAll(lines[1..])
  }

  /** The loop of `Update` over the parsed lines: records are applied in
      order; the first parse error stops the loop with that error, and what
      the records before it did stays. */
  function Apply(t: Tables, parsed: seq<Result<Statline, ParseError>>): (r: PollResult)
    ensures r.err.None? <==> forall j :: 0 <= j < |parsed| ==> parsed[j].Success?
    ensures r.err.Some? ==> Failure(r.err.value) in parsed
    decreases |parsed|
  {
    if parsed == [] then PollResult(t, None)
    else match parsed[0]
      case Failure(e) => PollResult(t, Some(e))
      case Success(sl) => Apply(Record(t, sl), parsed[1..])
  }

  /** `Update` as a function of the lines read. */
  function Poll(t: Tables, lines: seq<string>): (r: PollResult)
    ensures r.err.None? <==> forall j :: 0 <= j < |lines| ==> Parse(lines[j]).Success?
    ensures r.err.Some? ==> exists j :: 0 <= j < |lines| && Parse(lines[j]) == Failure(r.err.value)
  {
    Apply(t, ParseAll(lines))
  }

  /** The records of device `n` among parsed lines, in order. */
  function Readings(parsed: seq<Result<Statline, ParseError>>, n: string): seq<Statline> {
    if parsed == [] then []
    else match parsed[0]
      case Success(sl) => (if sl.name == n then [sl] else []) + Readings(parsed[1..], n)
      case Failure(_) => Readings(parsed[1..], n)
  }

  /** The reading of `n` known before a poll, if any. */
  function Prior(t: Tables, n: string): seq<Statline> {
    if n in t.stats then [t.stats[n]] else []
  }

  /** One record keeps the maps consistent: it is filed under its own name
      and its delta, if any, has no name. */
  lemma RecordKeepsConsistent(t: Tables, sl: Statline)
    requires Consistent(t)
    ensures Consistent(Record(t, sl))
  {
  }

  /** Each record is filed under its own name, so consistency is kept. */
  lemma {:induction false} ApplyKeepsConsistent(t: Tables, parsed: seq<Result<Statline, ParseError>>)
    requires Consistent(t)
    ensures Consistent(Apply(t, parsed).tables)
    decreases |parsed|
  {
    if parsed != [] && parsed[0].Success? {
      var sl := parsed[0].value;
      RecordKeepsConsistent(t, sl);
      ApplyKeepsConsistent(Record(t, sl), parsed[1..]);
    }
  }

  /** A poll never forgets a device: both key sets only grow. */
  lemma {:induction false} ApplyNeverRemoves(t: Tables, parsed: seq<Result<Statline, ParseError>>)
    ensures t.stats.Keys <= Apply(t, parsed).tables.stats.Keys
    ensures t.delta.Keys <= Apply(t, parsed).tables.delta.Keys
    decreases |parsed|
  {
    if parsed != [] && parsed[0].Success? {
      ApplyNeverRemoves(Record(t, parsed[0].value), parsed[1..]);
    }
  }

  /** After a poll that reached its end, the state of each device depends on
      its readings alone. With H the reading known before followed by those
      polled: the device has a reading iff H is not empty, and it is the last
      of H; with two or more readings in H its delta is the difference of the
      last two; with fewer its delta entry is what it was (so a device seen
      for the first time gets no delta, and a device absent from the lines
      keeps both entries). */
  lemma ApplyTracksReadings(t: Tables, parsed: seq<Result<Statline, ParseError>>, n: string)
    requires Apply(t, parsed).err.None?
    ensures var r := Apply(t, parsed).tables; var h := Prior(t, n) + Readings(parsed, n);
      && (n in r.stats <==> |h| > 0)
      && (|h| > 0 ==> r.stats[n] == h[|h| - 1])
      && (|h| >= 2 ==> n in r.delta && r.delta[n] == Diff(h[|h| - 1], h[|h| - 2]))
      && (|h| < 2 ==> (n in r.delta <==> n in t.delta) && (n in t.delta ==> r.delta[n] == t.delta[n]))
  {
    ApplyLastReading(t, parsed, n);
    ApplyLastDelta(t, parsed, n);
    var r := Apply(t, parsed).tables;
    assert DeltaOf(r, n) == LastDiff(Prior(t, n) + Readings(parsed, n), DeltaOf(t, n));
  }

  /** The reading half: one record per matching line, so the last one stays. */
  lemma {:induction false} ApplyLastReading(t: Tables, parsed: seq<Result<Statline, ParseError>>, n: string)
    requires Apply(t, parsed).err.None?
    ensures var r := Apply(t, parsed).tables; var h := Prior(t, n) + Readings(parsed, n);
      && (n in r.stats <==> |h| > 0)
      && (|h| > 0 ==> r.stats[n] == h[|h| - 1])
    decreases |parsed|
  {
    if parsed == [] {
      assert Prior(t, n) + Readings(parsed, n) == Prior(t, n);
    } else {
      var sl := parsed[0].value;
      var t1 := Record(t, sl);
      ApplyLastReading(t1, parsed[1..], n);
      var rest := Readings(parsed[1..], n);
      var h := Prior(t, n) + Readings(parsed, n);
      var h1 := Prior(t1, n) + rest;
      if sl.name == n {
        assert Readings(parsed, n) == [sl] + rest;
        assert h == Prior(t, n) + h1;
      } else {
        assert Readings(parsed, n) == rest;
        assert h == h1;
      }
    }
  }

  /** The delta entry of `n`, if any. */
  function DeltaOf(t: Tables, n: string): Option<Statline> {
    if n in t.delta then Some(t.delta[n]) else None
  }

  /** The delta a history of readings leaves: the difference of its last two
      readings, or `d` when it has fewer than two. */
  function LastDiff(h: seq<Statline>, d: Option<Statline>): Option<Statline> {
    if |h| >= 2 then Some(Diff(h[|h| - 1], h[|h| - 2])) else d
  }

  /** One record seen from device `n`: a reading of `n` becomes its prior
      reading and, when there was one before, sets its delta; a reading of
      another device changes neither. */
  lemma RecordFor(t: Tables, sl: Statline, n: string)
    ensures Prior(Record(t, sl), n) == if sl.name == n then [sl] else Prior(t, n)
    ensures DeltaOf(Record(t, sl), n)
      == if sl.name == n && n in t.stats then Some(Diff(sl, t.stats[n])) else DeltaOf(t, n)
  {
  }

  /** The delta half: each matching line after the first known reading sets
      the delta to the difference from the reading before it. */
  lemma {:induction false} ApplyLastDelta(t: Tables, parsed: seq<Result<Statline, ParseError>>, n: string)
    requires Apply(t, parsed).err.None?
    ensures DeltaOf(Apply(t, parsed).tables, n) == LastDiff(Prior(t, n) + Readings(parsed, n), DeltaOf(t, n))
    decreases |parsed|
  {
    if parsed == [] {
      assert Prior(t, n) + Readings(parsed, n) == Prior(t, n);
    } else {
      var sl := parsed[0].value;
      var t1 := Record(t, sl);
      assert Apply(t, parsed) == Apply(t1, parsed[1..]);
      ApplyLastDelta(t1, parsed[1..], n);
      RecordFor(t, sl, n);
      var rest := Readings(parsed[1..], n);
      var h := Prior(t, n) + Readings(parsed, n);
      var h1 := Prior(t1, n) + rest;
      if sl.name == n {
        assert Readings(parsed, n) == [sl] + rest;
        assert h == Prior(t, n) + h1;
        if rest != [] {
          assert h[|h| - 1] == h1[|h1| - 1] && h[|h| - 2] == h1[|h1| - 2];
        } else if n in t.stats {
          assert h == [t.stats[n], sl];
        } else {
          assert h == [sl];
        }
      } else {
        assert Readings(parsed, n) == rest;
        assert h == h1;
      }
    }
  }

  /** A device read once in each of two successive polls has as its delta the
      field-wise difference of the two readings. */
  lemma SuccessivePolls(t: Tables, first: Statline, second: Statline)
    requires Consistent(t)
    requires first.name == second.name
    ensures var mid := Apply(t, [Success(first)]).tables;
      && Apply(mid, [Success(second)]).err.None?
      && first.name in Apply(mid, [Success(second)]).tables.delta
      && Apply(mid, [Success(second)]).tables.delta[first.name] == Diff(second, first)
  {
    var n := first.name;
    var a, b: seq<Result<Statline, ParseError>> := [Success(first)], [Success(second)];
    var mid := Apply(t, a).tables;
    ApplyTracksReadings(t, a, n);
    ApplyKeepsConsistent(t, a);
    ApplyTracksReadings(mid, b, n);
    assert Readings(b, n) == [second];
    assert Prior(mid, n) == [first];
  }

  /** The first sighting of a device files its reading but no delta. */
  lemma FirstSighting(t: Tables, sl: Statline)
    requires Consistent(t)
    requires sl.name !in t.stats
    ensures var r := Apply(t, [Success(sl)]);
      && r.err.None? && sl.name in r.tables.stats && r.tables.stats[sl.name] == sl
      && sl.name !in r.tables.delta
  {
    var a: seq<Result<Statline, ParseError>> := [Success(sl)];
    ApplyTracksReadings(t, a, sl.name);
    assert Readings(a, sl.name) == [sl];
  }

  /** A poll stopped by a parse error leaves exactly what the records before
      it did (they are not rolled back) and applies nothing after it. */
  lemma {:induction false} ApplyPartialCommit(t: Tables, parsed: seq<Result<Statline, ParseError>>, k: nat)
    requires k < |parsed|
    requires forall j :: 0 <= j < k ==> parsed[j].Success?
    requires parsed[k].Failure?
    ensures Apply(t, parsed) == PollResult(Apply(t, parsed[..k]).tables, Some(parsed[k].error))
    decreases k
  {
    if k > 0 {
      assert parsed[0].Success?;
      assert parsed[1..][..k - 1] == parsed[..k][1..];
      ApplyPartialCommit(Record(t, parsed[0].value), parsed[1..], k - 1);
    }
  }

  /** The same for lines: the first line that does not parse ends the poll
      with its error, after the lines before it were recorded. */
  lemma PollPartialCommit(t: Tables, lines: seq<string>, k: nat)
    requires k < |lines|
    requires forall j :: 0 <= j < k ==> Parse(lines[j]).Success?
    requires Parse(lines[k]).Failure?
    ensures Poll(t, lines) == PollResult(Poll(t, lines[..k]).tables, Some(Parse(lines[k]).error))
  {
    ApplyPartialCommit(t, ParseAll(lines), k);
    assert ParseAll(lines)[..k] == ParseAll(lines[..k]);
  }

  /** Applying a concatenation is applying its parts in turn. */
  lemma {:induction false} ApplyAppend(t: Tables, a: seq<Result<Statline, ParseError>>, b: seq<Result<Statline, ParseError>>)
    requires Apply(t, a).err.None?
    ensures Apply(t, a + b) == Apply(Apply(t, a).tables, b)
    decreases |a|
  {
    if a == [] {
      assert a + b == b;
    } else {
      assert (a + b)[0] == a[0];
      assert (a + b)[1..] == a[1..] + b;
      ApplyAppend(Record(t, a[0].value), a[1..], b);
    }
  }

  // ------------------------------------------------- the statistics source

  /** The statistics source. Its maps are updated in place by `Update`; the
      locking of the source is not modelled. */
  class Diskstats {
    var stats: map<string, Statline>
    var delta: map<string, Statline>

    function Contents(): Tables
      reads this
    {
      Tables(stats, delta)
    }

    ghost predicate Valid()
      reads this
    {
      Consistent(Contents())
    }

    /** `New`: empty maps, then one poll of `lines`; its error, if any, is
        returned beside the source. Opening the counter file is not modelled. */
    static method New(lines: seq<string>) returns (d: Diskstats, err: Option<ParseError>)
      ensures fresh(d) && d.Valid()
      ensures Poll(NoTables, lines) == PollResult(d.Contents(), err)
    {
      d := new Diskstats.Empty();
      err := d.Update(lines);
    }

    constructor Empty()
      ensures Valid() && stats == map[] && delta == map[]
    {
      stats := map[];
      delta := map[];
    }

    /** `Update`: one poll over the lines of the counter file. */
    method Update(lines: seq<string>) returns (err: Option<ParseError>)
      requires Valid()
      modifies this
      ensures Valid()
      ensures Poll(old(Contents()), lines) == PollResult(Contents(), err)
    {
      ghost var parsed := ParseAll(lines);
      ghost var start := Contents();
      var i := 0;
      while i < |lines|
        invariant 0 <= i <= |lines|
        invariant Valid()
        invariant Apply(start, parsed) == Apply(Contents(), parsed[i..])
      {
        ghost var rest := parsed[i..];
        var sl := ParseLine(lines[i]);
        assert rest[0] == sl && rest[1..] == parsed[i + 1..];
        if sl.Failure? {
          return Some(sl.error);
        }
        Store(sl.value);
        i := i + 1;
      }
      assert parsed[i..] == [];
      return None;
    }

    /** The body of the loop in `Update` for a line that parsed: a device
        already known gets the difference from its previous reading as its
        delta, and the new reading replaces the old. */
    method Store(sl: Statline)
      requires Valid()
      modifies this
      ensures Valid()
      ensures Contents() == Record(old(Contents()), sl)
    {
      ghost var before := Contents();
      var name := sl.name;
      if name in stats {
        var d := Subtract(sl, stats[name]);
        delta := delta[name := d];
      }
      stats := stats[name := sl];
      RecordKeepsConsistent(before, sl);
    }

    /** `Get`: the latest reading of the device `name` refers to, if any. */
    function Get(name: string, resolve: string -> Option<string>): (r: Option<Statline>)
      reads this
      requires Valid()
      ensures var key := SanitizeDiskName(name, resolve);
        && (r.Some? <==> key in stats)
        && (r.Some? ==> r.value == stats[key] && r.value.name == key)
    {
      var key := SanitizeDiskName(name, resolve);
      if key in stats then Some(stats[key]) else None
    }

    /** `GetDelta`: the latest delta of the device `name` refers to, if any;
        there is one only for a device with a reading. */
    function GetDelta(name: string, resolve: string -> Option<string>): (r: Option<Statline>)
      reads this
      requires Valid()
      ensures var key := SanitizeDiskName(name, resolve);
        && (r.Some? <==> key in delta)
        && (r.Some? ==> r.value == delta[key] && key in stats && r.value.name == "")
    {
      var key := SanitizeDiskName(name, resolve);
      if key in delta then Some(delta[key]) else None
    }
  }
}
