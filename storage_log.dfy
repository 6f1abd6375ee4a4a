/**
  The attendance log: `save_to_log` appends one block of lines per finished
  visit, and `check_attendance_threshold` reads the whole log back, adds up
  the net seconds of each person and compares them with a threshold.
*/
module StorageLog {
  import opened Wrappers
  import opened Text
  import opened State

  // ---------------------------------------------------------------------
  // Writing a block
  // ---------------------------------------------------------------------

  /** Everything `save_to_log` is given about one finished visit. */
  datatype LogRecord = LogRecord(
    card: string,
    name: string,
    entry: int,
    exit: int,
    net: int,
    breaks: seq<Interval>,
    totalBreak: int)

  /** The line that opens every block: forty equals signs. */
  const Rule: string := Repeat('=', 40)

  /** The labels the lines of a block start with. */
  const NamePrefix: string := "Name: "
  const CardPrefix: string := "Card ID: "
  const EntryPrefix: string := "Entry: "
  const ExitPrefix: string := "Exit: "
  const NetLabel: string := "Total time (net)"
  const NetPrefix: string := NetLabel + ": "
  const BreaksPrefix: string := "Total breaks (seconds): "
  const BreaksHeading: string := "Breaks:"
  const BreakIndent: string := "  - "

  /** How each label starts: the reader tells the lines apart by these. */
  lemma PrefixFacts()
    ensures |Rule| == 40 && Rule[0] == '='
    ensures |NamePrefix| == 6 && NamePrefix[0] == 'N'
    ensures |NetPrefix| == 18 && NetPrefix[0] == 'T' && NetPrefix[6] == 't'
    ensures ':' !in NetLabel
    ensures |CardPrefix| == 9 && CardPrefix[0] == 'C'
    ensures |EntryPrefix| == 7 && EntryPrefix[0] == 'E'
    ensures |ExitPrefix| == 6 && ExitPrefix[0] == 'E'
    ensures |BreaksPrefix| == 24 && BreaksPrefix[0] == 'T' && BreaksPrefix[6] == 'b'
    ensures |BreaksHeading| == 7 && BreaksHeading[0] == 'B'
    ensures |BreakIndent| == 4 && BreakIndent[0] == ' ' && BreakIndent[1] == ' ' && BreakIndent[2] == '-'
  {
  }

  /** None of the fixed text of a block holds a line break. */
  lemma LabelsClean()
    ensures NoLineBreak(Rule) && NoLineBreak(NamePrefix) && NoLineBreak(CardPrefix)
    ensures NoLineBreak(EntryPrefix) && NoLineBreak(ExitPrefix) && NoLineBreak(NetPrefix)
    ensures NoLineBreak(BreaksPrefix) && NoLineBreak(BreaksHeading) && NoLineBreak(BreakIndent)
    ensures NoLineBreak(" seconds") && NoLineBreak(" to ") && NoLineBreak(" -> ") && NoLineBreak(" sec")
  {
    HeaderLabelsClean();
    OtherLabelsClean();
    SuffixesClean();
  }

  lemma HeaderLabelsClean()
    ensures NoLineBreak(Rule) && NoLineBreak(NamePrefix) && NoLineBreak(CardPrefix)
    ensures NoLineBreak(EntryPrefix) && NoLineBreak(ExitPrefix)
  {
    assert NoLineBreak(Rule) by {
      assert forall j :: 0 <= j < |Rule| ==> Rule[j] == '=';
    }
    NameLabelsClean();
    TimeLabelsClean();
  }

  lemma NameLabelsClean()
    ensures NoLineBreak(NamePrefix) && NoLineBreak(CardPrefix)
  {
  }

  lemma TimeLabelsClean()
    ensures NoLineBreak(EntryPrefix) && NoLineBreak(ExitPrefix)
  {
  }

  lemma OtherLabelsClean()
    ensures NoLineBreak(NetPrefix) && NoLineBreak(BreaksPrefix)
    ensures NoLineBreak(BreaksHeading) && NoLineBreak(BreakIndent)
  {
  }

  lemma SuffixesClean()
    ensures NoLineBreak(" seconds") && NoLineBreak(" to ") && NoLineBreak(" -> ") && NoLineBreak(" sec")
  {
  }

  function NameLine(name: string): string {
    NamePrefix + name
  }

  function CardLine(card: string): string {
    CardPrefix + card
  }

  function EntryLine(entry: int): string {
    EntryPrefix + IntToText(entry)
  }

  function ExitLine(exit: int): string {
    ExitPrefix + IntToText(exit)
  }

  function TotalLine(net: int): string {
    NetPrefix + (IntToText(net) + " seconds")
  }

  function BreaksTotalLine(total: int): string {
    BreaksPrefix + IntToText(total)
  }

  /** One line per break, indented: its start, end and length. */
  function BreakLine(b: Interval): string {
    BreakIndent + BreakText(b)
  }

  function BreakText(b: Interval): string {
    IntToText(b.start) + " to " + IntToText(b.end) + " -> " + IntToText(Duration(b)) + " sec"
  }

  function BreakLines(bs: seq<Interval>): (ls: seq<string>)
    ensures |ls| == |bs|
  {
    if bs == [] then [] else BreakLines(bs[..|bs| - 1]) + [BreakLine(bs[|bs| - 1])]
  }

  /** The `i`th line of the list is the `i`th break's line. */
  lemma {:induction false} BreakLinesAt(bs: seq<Interval>, i: nat)
    requires i < |bs|
    ensures BreakLines(bs)[i] == BreakLine(bs[i])
  {
    if i < |bs| - 1 {
      BreakLinesAt(bs[..|bs| - 1], i);
    }
  }

  /** The seven lines every block starts with. */
  function HeaderLines(r: LogRecord): (ls: seq<string>)
    ensures |ls| == 7
  {
    [Rule, NameLine(r.name), CardLine(r.card), EntryLine(r.entry),
     ExitLine(r.exit), TotalLine(r.net), BreaksTotalLine(r.totalBreak)]
  }

  /** What follows the header: the break list, when there is one, and an empty line. */
  function TrailerLines(breaks: seq<Interval>): seq<string> {
    (if breaks != [] then [BreaksHeading] + BreakLines(breaks) else []) + [""]
  }

  /** The lines of one block, in the order they are written. */
  function LogLines(r: LogRecord): seq<string> {
    HeaderLines(r) + TrailerLines(r.breaks)
  }

  function LogBlock(r: LogRecord): string {
    Unlines(LogLines(r))
  }

  /** A log made of the blocks of `rs`, oldest first. */
  function LogText(rs: seq<LogRecord>): string
    decreases |rs|
  {
    if rs == [] then [] else LogBlock(rs[0]) + LogText(rs[1..])
  }

  /** Appending a block to a log of blocks gives the log of one more record. */
  lemma {:induction false} LogTextSnoc(rs: seq<LogRecord>, r: LogRecord)
    ensures LogText(rs + [r]) == LogText(rs) + LogBlock(r)
    decreases |rs|
  {
    var all := rs + [r];
    if rs == [] {
      assert all == [r] && all[1..] == [];
    } else {
      var head, tail := LogBlock(rs[0]), rs[1..];
      TailSnoc(rs, r);
      LogTextSnoc(tail, r);
      assert LogText(all) == head + (LogText(tail) + LogBlock(r));
      assert LogText(rs) == head + LogText(tail);
      ConcatAssoc(head, LogText(tail), LogBlock(r));
    }
  }

  /** One more record adds its net seconds to its owner's sum and leaves
      the other sums alone. */
  lemma {:induction false} NetSumSnoc(rs: seq<LogRecord>, r: LogRecord, n: string)
    ensures NetSum(rs + [r], n) == NetSum(rs, n) + (if r.name == n then r.net else 0)
    decreases |rs|
  {
    if rs == [] {
      assert [] + [r] == [r];
      assert NetSum([r], n) == (if r.name == n then r.net else 0) + NetSum([], n);
    } else {
      assert (rs + [r])[1..] == rs[1..] + [r];
      NetSumSnoc(rs[1..], r, n);
    }
  }

  function Contents(file: Option<string>): string {
    match file
    case None => []
    case Some(text) => text
  }

  /** `save_to_log`: the block is appended to the log, which is created when missing. */
  method SaveToLog(st: SharedState, card: string, name: string, entry: int, exit: int,
                   net: int, breaks: seq<Interval>, totalBreak: int)
    modifies st
    ensures st.logFile == Some(Contents(old(st.logFile)) +
      LogBlock(LogRecord(card, name, entry, exit, net, breaks, totalBreak)))
    ensures st.scan1 == old(st.scan1) && st.activeFile == old(st.activeFile)
    ensures st.interactionInProgress == old(st.interactionInProgress)
    ensures st.systemActive == old(st.systemActive) && st.unlockEvent == old(st.unlockEvent)
  {
    var text := Contents(st.logFile);
    ghost var start := text;
    var r := LogRecord(card, name, entry, exit, net, breaks, totalBreak);
    text := WriteHeader(text, r);
    ghost var body := text;
    text := WriteTrailer(text, breaks);
    BlockWritten(start, body, text, r);
    st.logFile := Some(text);
  }

  /** The seven header writes, on the text of the file opened for appending. */
  method WriteHeader(text: string, r: LogRecord) returns (t: string)
    ensures t == text + Unlines(HeaderLines(r))
  {
    t := text + Rule + "\n";
    t := t + NameLine(r.name) + "\n";
    t := t + CardLine(r.card) + "\n";
    t := t + EntryLine(r.entry) + "\n";
    t := t + ExitLine(r.exit) + "\n";
    t := t + TotalLine(r.net) + "\n";
    t := t + BreaksTotalLine(r.totalBreak) + "\n";
    WriteSeven(text, Rule, NameLine(r.name), CardLine(r.card), EntryLine(r.entry),
      ExitLine(r.exit), TotalLine(r.net), BreaksTotalLine(r.totalBreak));
  }

  /** Seven writes of a line each put down the seven lines. */
  lemma WriteSeven(text: string, a: string, b: string, c: string, d: string, e: string,
                   f: string, g: string)
    ensures text + a + "\n" + b + "\n" + c + "\n" + d + "\n" + e + "\n" + f + "\n" + g + "\n"
         == text + Unlines([a, b, c, d, e, f, g])
  {
    var t, w := text, [];
    WriteStep(text, t, w, a);
    t, w := t + a + "\n", w + [a];
    WriteStep(text, t, w, b);
    t, w := t + b + "\n", w + [b];
    WriteStep(text, t, w, c);
    t, w := t + c + "\n", w + [c];
    WriteStep(text, t, w, d);
    t, w := t + d + "\n", w + [d];
    WriteStep(text, t, w, e);
    t, w := t + e + "\n", w + [e];
    WriteStep(text, t, w, f);
    t, w := t + f + "\n", w + [f];
    WriteStep(text, t, w, g);
    assert w + [g] == [a, b, c, d, e, f, g];
  }

  /** The break list, when there are breaks, and the closing empty line. */
  method WriteTrailer(text: string, breaks: seq<Interval>) returns (t: string)
    ensures t == text + Unlines(TrailerLines(breaks))
  {
    t := text;
    ghost var written: seq<string> := [];
    if breaks != [] {
      t := t + BreaksHeading + "\n";
      ghost var head := t;
      t := WriteBreaks(t, breaks);
      written := [BreaksHeading] + BreakLines(breaks);
      ListWritten(text, head, t, BreaksHeading, BreakLines(breaks));
    }
    WriteStep(text, t, written, "");
    t := t + "" + "\n";
  }

  /** The `for` loop over the breaks: one indented line each. */
  method WriteBreaks(text: string, breaks: seq<Interval>) returns (t: string)
    ensures t == text + Unlines(BreakLines(breaks))
  {
    t := text;
    var i := 0;
    while i < |breaks|
      invariant 0 <= i <= |breaks|
      invariant t == text + Unlines(BreakLines(breaks[..i]))
    {
      var line := BreakLine(breaks[i]);
      WriteStep(text, t, BreakLines(breaks[..i]), line);
      BreakLinesSnoc(breaks, i);
      t := t + line + "\n";
      i := i + 1;
    }
    assert breaks[..i] == breaks;
  }

  /** A heading line followed by a list of lines. */
  lemma ListWritten(text: string, head: string, t: string, heading: string, ls: seq<string>)
    requires head == text + heading + "\n"
    requires t == head + Unlines(ls)
    ensures t == text + Unlines([heading] + ls)
  {
    UnlinesAppend([heading], ls);
    assert Unlines([heading]) == heading + "\n";
  }

  lemma BlockWritten(start: string, body: string, text: string, r: LogRecord)
    requires body == start + Unlines(HeaderLines(r))
    requires text == body + Unlines(TrailerLines(r.breaks))
    ensures text == start + LogBlock(r)
  {
    UnlinesAppend(HeaderLines(r), TrailerLines(r.breaks));
    Regroup3(start, Unlines(HeaderLines(r)), Unlines(TrailerLines(r.breaks)));
  }

  /** The "Breaks:" section is written only for a visit with breaks, and
      then holds one line per break, in order, before the closing empty line. */
  lemma BreaksSection(bs: seq<Interval>)
    ensures bs == [] ==> TrailerLines(bs) == [""]
    ensures bs != [] ==>
      |TrailerLines(bs)| == |bs| + 2 && TrailerLines(bs)[0] == BreaksHeading &&
      TrailerLines(bs)[|bs| + 1] == "" &&
      forall i :: 0 <= i < |bs| ==> TrailerLines(bs)[i + 1] == BreakLine(bs[i])
  {
    if bs != [] {
      var ls := BreakLines(bs);
      Bracketed(BreaksHeading, ls, "");
      forall i | 0 <= i < |bs|
        ensures ls[i] == BreakLine(bs[i])
      {
        BreakLinesAt(bs, i);
      }
    }
  }

  lemma BreakLinesSnoc(bs: seq<Interval>, i: nat)
    requires i < |bs|
    ensures BreakLines(bs[..i + 1]) == BreakLines(bs[..i]) + [BreakLine(bs[i])]
  {
    assert bs[..i + 1][..i] == bs[..i];
  }


  /** Writing one more line, followed by a line break. */
  lemma WriteStep(start: string, t: string, written: seq<string>, line: string)
    requires t == start + Unlines(written)
    ensures t + line + "\n" == start + Unlines(written + [line])
  {
    UnlinesAppend(written, [line]);
    assert Unlines([line]) == line + "\n";
    Regroup4(start, Unlines(written), line, "\n");
  }


  // ---------------------------------------------------------------------
  // Reading the log back
  // ---------------------------------------------------------------------

  /** The loop state of `check_attendance_threshold`: the name of the block
      being read and the running totals, names in order of first appearance. */
  datatype Tally = Tally(current: Option<string>, names: seq<string>, totals: map<string, int>)

  function Start(): Tally {
    Tally(None, [], map[])
  }

  /** The names are listed once each, exactly the keys of the totals, and
      the current name has a total. */
  ghost predicate TallyOk(t: Tally) {
    NoDup(t.names) && (forall n :: n in t.totals <==> n in t.names) &&
    (t.current.Some? ==> t.current.value in t.totals)
  }

  /** What one line of the log tells the report: a name, a net-time line
      (whose number is read when it is tallied), or nothing. */
  datatype LineKind = NameIs(name: string) | NetLine(line: string) | Other

  /** `line.split(": ", 1)[1]` on a name line: everything after the prefix. */
  function NameOf(line: string): string
    requires StartsWith(line, NamePrefix)
  {
    line[|NamePrefix|..]
  }

  /** `float(line.split(": ")[1].split(" ")[0])`, with `None` where Python
      raises, or where the number is not a whole number of seconds. */
  function SecondsOf(line: string): Option<int> {
    var parts := Split(line, ": ");
    if |parts| < 2 then None else FloatText(Strip(Split(parts[1], " ")[0]))
  }

  /** The tests the loop applies to a stripped line, in their order. */
  function Classify(raw: string): LineKind {
    var line := Strip(raw);
    if StartsWith(line, NamePrefix) then NameIs(NameOf(line))
    else if StartsWith(line, NetPrefix) then NetLine(line)
    else Other
  }

  /** The person a name line starts, with a total of zero when first seen. */
  function Named(t: Tally, n: string): (r: Tally)
    ensures r.current == Some(n) && n in r.totals
  {
    if n in t.totals then Tally(Some(n), t.names, t.totals)
    else Tally(Some(n), t.names + [n], t.totals[n := 0])
  }

  /** `if current_name: user_totals[current_name] += seconds` */
  function AddSeconds(t: Tally, sec: int): (r: Tally)
    ensures r.current == t.current && r.names == t.names && r.totals.Keys == t.totals.Keys
  {
    if t.current.Some? && t.current.value != [] && t.current.value in t.totals then
      Tally(t.current, t.names, t.totals[t.current.value := t.totals[t.current.value] + sec])
    else t
  }

  /** One pass of the loop: a name line sets the current person, a net-time
      line adds its seconds to that person, a net-time line whose number does
      not parse is skipped (the exception is caught), and every other line
      changes nothing. */
  function Tallied(t: Tally, k: LineKind): Tally {
    match k
    case NameIs(n) => Named(t, n)
    case NetLine(line) =>
      var sec := SecondsOf(line);
      if sec.Some? then AddSeconds(t, sec.value) else t
    case Other => t
  }

  /** The tally after reading `lines` from `t`. */
  function ReadLines(t: Tally, lines: seq<string>): Tally
    decreases |lines|
  {
    if lines == [] then t else ReadLines(Tallied(t, Classify(lines[0])), lines[1..])
  }

  /** A net-time line is credited to the person of the latest name line;
      before any name line, or when its number does not parse, it is ignored. */
  lemma CreditRule(t: Tally, line: string)
    requires TallyOk(t)
    ensures t.current.None? || SecondsOf(line).None? ==> Tallied(t, NetLine(line)) == t
    ensures t.current.Some? && t.current.value != [] && SecondsOf(line).Some? ==>
      var n := t.current.value;
      Tallied(t, NetLine(line)) ==
        Tally(t.current, t.names, t.totals[n := t.totals[n] + SecondsOf(line).value])
  {
  }

  /** Each step keeps the tally well formed. */
  lemma TalliedOk(t: Tally, k: LineKind)
    requires TallyOk(t)
    ensures TallyOk(Tallied(t, k))
  {
    if k.NameIs? && k.name !in t.totals {
      var r := Named(t, k.name);
      assert forall x :: x in r.names <==> x in t.names || x == k.name;
    }
  }

  lemma {:induction false} ReadLinesOk(t: Tally, lines: seq<string>)
    requires TallyOk(t)
    ensures TallyOk(ReadLines(t, lines))
    decreases |lines|
  {
    if lines != [] {
      TalliedOk(t, Classify(lines[0]));
      ReadLinesOk(Tallied(t, Classify(lines[0])), lines[1..]);
    }
  }

  /** One line of the report: the person, the net seconds, and whether
      they reach the threshold. */
  datatype Row = Row(name: string, seconds: int, valid: bool)

  /** The report, one row per person in order of first appearance; a person
      is valid exactly when the total reaches `hours` hours. */
  function Rows(t: Tally, hours: int): (rows: seq<Row>)
    requires forall n :: n in t.names ==> n in t.totals
    ensures |rows| == |t.names|
    ensures forall i :: 0 <= i < |rows| ==>
      rows[i].name == t.names[i] && rows[i].seconds == t.totals[t.names[i]] &&
      (rows[i].valid <==> rows[i].seconds >= hours * 3600)
  {
    seq(|t.names|, i requires 0 <= i < |t.names| =>
      Row(t.names[i], t.totals[t.names[i]], t.totals[t.names[i]] >= hours * 3600))
  }

  /** `check_attendance_threshold`: nothing when the log does not exist,
      otherwise the report over all its lines. */
  function AttendanceReport(log: Option<string>, hours: int): Option<seq<Row>> {
    match log
    case None => None
    case Some(text) =>
      var t := ReadLines(Start(), Lines(text));
      ReadLinesOk(Start(), Lines(text));
      Some(Rows(t, hours))
  }

  method CheckAttendanceThreshold(log: Option<string>, hours: int) returns (report: Option<seq<Row>>)
    ensures report == AttendanceReport(log, hours)
  {
    if log.None? {
      return None;
    }
    var lines := Lines(log.value);
    var t := Start();
    var i := 0;
    while i < |lines|
      invariant 0 <= i <= |lines|
      invariant TallyOk(t)
      invariant ReadLines(t, lines[i..]) == ReadLines(Start(), lines)
    {
      var kind := Classify(lines[i]);
      assert lines[i..][0] == lines[i] && lines[i..][1..] == lines[i + 1..];
      TalliedOk(t, kind);
      t := Tallied(t, kind);
      i := i + 1;
    }
    assert lines[i..] == [];
    var rows: seq<Row> := [];
    var j := 0;
    while j < |t.names|
      invariant 0 <= j <= |t.names|
      invariant rows == Rows(t, hours)[..j]
    {
      var n := t.names[j];
      assert Rows(t, hours)[..j + 1] == Rows(t, hours)[..j] + [Row(n, t.totals[n], t.totals[n] >= hours * 3600)];
      rows := rows + [Row(n, t.totals[n], t.totals[n] >= hours * 3600)];
      j := j + 1;
    }
    assert rows == Rows(t, hours);
    report := Some(rows);
  }

  // ---------------------------------------------------------------------
  // Reading back what was written
  // ---------------------------------------------------------------------

  /** A name the log can carry back: not empty, not ending in whitespace
      (stripping would cut it), without a line break. */
  predicate SafeLogName(n: string) {
    n != [] && !IsSpace(n[|n| - 1]) && NoLineBreak(n)
  }

  predicate SafeRecord(r: LogRecord) {
    SafeLogName(r.name) && NoLineBreak(r.card)
  }

  /** What reading one block does to the tally: its person becomes current
      and is credited with the block's net seconds. */
  function Credit(t: Tally, r: LogRecord): Tally {
    var named := Named(t, r.name);
    Tally(named.current, named.names, named.totals[r.name := named.totals[r.name] + r.net])
  }

  function Credits(t: Tally, rs: seq<LogRecord>): Tally
    decreases |rs|
  {
    if rs == [] then t else Credits(Credit(t, rs[0]), rs[1..])
  }

  // Facts about the characters and pieces the lines are made of.

  lemma DigitNotSpace(c: char)
    requires c == '-' || IsDigit(c)
    ensures !IsSpace(c) && !IsLineBreak(c)
  {
  }

  /** A character `str(i)` never produces. */
  lemma IntTextLacks(i: int, c: char)
    requires c != '-' && !IsDigit(c)
    ensures c !in IntToText(i)
  {
    var s := IntToText(i);
    IntTextChars(i);
    assert forall j :: 0 <= j < |s| ==> s[j] != c;
  }

  lemma IntTextClean(i: int)
    ensures NoLineBreak(IntToText(i))
    ensures !IsSpace(IntToText(i)[0]) && !IsSpace(IntToText(i)[|IntToText(i)| - 1])
  {
    IntTextLacks(i, '\n');
    IntTextLacks(i, '\r');
    var s := IntToText(i);
    DigitNotSpace(s[0]);
    DigitNotSpace(s[|s| - 1]);
  }

  lemma NoBreakJoin(u: string, v: string)
    requires NoLineBreak(u) && NoLineBreak(v)
    ensures NoLineBreak(u + v)
  {
    assert forall c :: c in u + v <==> c in u || c in v;
  }

  lemma NotInJoin(c: char, u: string, v: string)
    requires c !in u && c !in v
    ensures c !in u + v
  {
  }

  /** A prefixed line whose ends are not whitespace is its own strip. */
  lemma PrefixedClean(p: string, x: string)
    requires p != [] && !IsSpace(p[0]) && x != [] && !IsSpace(x[|x| - 1])
    ensures Strip(p + x) == p + x && StartsWith(p + x, p) && (p + x)[|p|..] == x
  {
    var s := p + x;
    assert s[0] == p[0] && s[|s| - 1] == x[|x| - 1];
    StripClean(s);
    assert s[..|p|] == p;
  }

  /** A string that differs from `q` at index `i` does not start with `q`. */
  lemma DiffersAt(s: string, q: string, i: nat)
    requires i < |s| && i < |q| && s[i] != q[i]
    ensures !StartsWith(s, q)
  {
    if |q| <= |s| {
      assert s[..|q|][i] != q[i];
    }
  }

  // Which kind each line of a block is.

  /** A line whose strip starts with a character other than `N` and `T`. */
  lemma OtherStripped(raw: string)
    requires Strip(raw) != [] && Strip(raw)[0] != 'N' && Strip(raw)[0] != 'T'
    ensures Classify(raw) == Other
  {
    PrefixFacts();
    DiffersAt(Strip(raw), NamePrefix, 0);
    DiffersAt(Strip(raw), NetPrefix, 0);
  }

  /** A line that starts with a character other than whitespace, `N` or `T`. */
  lemma OtherHead(raw: string)
    requires raw != [] && !IsSpace(raw[0]) && raw[0] != 'N' && raw[0] != 'T'
    ensures Classify(raw) == Other
  {
    StripKeepsHead(raw);
    OtherStripped(raw);
  }

  lemma OtherPrefixed(p: string, x: string)
    requires p != [] && !IsSpace(p[0]) && p[0] != 'N' && p[0] != 'T'
    ensures Classify(p + x) == Other
  {
    assert (p + x)[0] == p[0];
    OtherHead(p + x);
  }

  lemma OtherRule()
    ensures Classify(Rule) == Other
  {
    PrefixFacts();
    OtherHead(Rule);
  }

  lemma OtherCard(card: string)
    ensures Classify(CardLine(card)) == Other
  {
    PrefixFacts();
    OtherPrefixed(CardPrefix, card);
  }

  lemma OtherEntry(entry: int)
    ensures Classify(EntryLine(entry)) == Other
  {
    PrefixFacts();
    OtherPrefixed(EntryPrefix, IntToText(entry));
  }

  lemma OtherExit(exit: int)
    ensures Classify(ExitLine(exit)) == Other
  {
    PrefixFacts();
    OtherPrefixed(ExitPrefix, IntToText(exit));
  }

  lemma OtherHeading()
    ensures Classify(BreaksHeading) == Other
  {
    PrefixFacts();
    OtherHead(BreaksHeading);
  }

  lemma OtherEmpty()
    ensures Classify("") == Other
  {
    assert Strip("") == "";
  }

  /** The break total line starts like the net total line but differs at its seventh character. */
  lemma OtherBreaksTotal(total: int)
    ensures Classify(BreaksTotalLine(total)) == Other
  {
    var x := IntToText(total);
    var line := BreaksPrefix + x;
    PrefixFacts();
    assert Strip(line) == line by {
      IntTextClean(total);
      PrefixedClean(BreaksPrefix, x);
    }
    assert line[0] == 'T' && line[6] == 'b';
    DiffersAt(line, NamePrefix, 0);
    DiffersAt(line, NetPrefix, 6);
  }

  /** A line indented by two whitespace characters before a non-whitespace one. */
  lemma OtherIndented(s: string)
    requires |s| >= 3 && IsSpace(s[0]) && IsSpace(s[1]) && !IsSpace(s[2]) && s[2] != 'N' && s[2] != 'T'
    ensures Classify(s) == Other
  {
    var u := s[2..];
    assert s[1..][1..] == u && s[1..][0] == s[1];
    assert LStrip(s) == LStrip(s[1..]) == LStrip(u);
    assert Strip(s) == Strip(u);
    StripKeepsHead(u);
    OtherStripped(s);
  }

  lemma OtherBreak(b: Interval)
    ensures Classify(BreakLine(b)) == Other
  {
    var line := BreakLine(b);
    PrefixFacts();
    assert line[0] == ' ' && line[1] == ' ' && line[2] == '-';
    OtherIndented(line);
  }

  /** A name line gives back the name it was written with. */
  lemma ClassifyName(n: string)
    requires SafeLogName(n)
    ensures Classify(NameLine(n)) == NameIs(n)
  {
    PrefixFacts();
    PrefixedClean(NamePrefix, n);
  }

  /** `" seconds"` is a space followed by the word. */
  lemma SecondsWord()
    ensures " seconds" == " " + "seconds"
  {
  }

  /** The number on a net-time line is the one written. */
  lemma SecondsOfTotal(net: int)
    ensures SecondsOf(TotalLine(net)) == Some(net)
  {
    var digits := IntToText(net);
    var rest := digits + " seconds";
    assert Split(TotalLine(net), ": ") == [NetLabel] + [rest] by {
      PrefixFacts();
      SplitAtHead(NetLabel, ": ", rest);
      IntTextLacks(net, ':');
      assert ':' !in rest by {
        NotInJoin(':', digits, " seconds");
      }
      SplitWithoutHead(rest, ": ");
    }
    assert Split(rest, " ")[0] == digits by {
      IntTextLacks(net, ' ');
      SecondsWord();
      Regroup3(digits, " ", "seconds");
      SplitAtHead(digits, " ", "seconds");
    }
    assert Strip(digits) == digits by {
      IntTextClean(net);
      StripClean(digits);
    }
    IntTextRoundTrip(net);
  }

  lemma ClassifyTotal(net: int)
    ensures Classify(TotalLine(net)) == NetLine(TotalLine(net))
  {
    var line := TotalLine(net);
    var x := IntToText(net) + " seconds";
    PrefixFacts();
    assert Strip(line) == line && StartsWith(line, NetPrefix) by {
      assert x[|x| - 1] == 's';
      PrefixedClean(NetPrefix, x);
    }
    assert !StartsWith(line, NamePrefix) by {
      assert line[0] == 'T';
      DiffersAt(line, NamePrefix, 0);
    }
  }

  /** Every line after the header says nothing to the report. */
  lemma TrailerKinds(breaks: seq<Interval>)
    ensures forall i :: 0 <= i < |TrailerLines(breaks)| ==> Classify(TrailerLines(breaks)[i]) == Other
  {
    forall i | 0 <= i < |TrailerLines(breaks)| ensures Classify(TrailerLines(breaks)[i]) == Other {
      TrailerKind(breaks, i);
    }
  }

  lemma TrailerKind(breaks: seq<Interval>, i: nat)
    requires i < |TrailerLines(breaks)|
    ensures Classify(TrailerLines(breaks)[i]) == Other
  {
    if breaks == [] || i == |breaks| + 1 {
      LastTrailerKind(breaks, i);
    } else if i == 0 {
      HeadingKind(breaks);
    } else {
      BreakKind(breaks, i);
    }
  }

  lemma LastTrailerKind(breaks: seq<Interval>, i: nat)
    requires i < |TrailerLines(breaks)| && (breaks == [] || i == |breaks| + 1)
    ensures Classify(TrailerLines(breaks)[i]) == Other
  {
    assert TrailerLines(breaks)[i] == "";
    OtherEmpty();
  }

  lemma HeadingKind(breaks: seq<Interval>)
    requires breaks != []
    ensures Classify(TrailerLines(breaks)[0]) == Other
  {
    assert TrailerLines(breaks)[0] == BreaksHeading;
    OtherHeading();
  }

  lemma BreakKind(breaks: seq<Interval>, i: nat)
    requires 0 < i <= |breaks|
    ensures Classify(TrailerLines(breaks)[i]) == Other
  {
    assert TrailerLines(breaks)[i] == BreakLines(breaks)[i - 1];
    BreakLinesAt(breaks, i - 1);
    OtherBreak(breaks[i - 1]);
  }

  // Reading whole blocks.

  lemma {:induction false} ReadLinesAppend(t: Tally, a: seq<string>, b: seq<string>)
    ensures ReadLines(t, a + b) == ReadLines(ReadLines(t, a), b)
    decreases |a|
  {
    if a != [] {
      assert (a + b)[0] == a[0];
      assert (a + b)[1..] == a[1..] + b;
      ReadLinesAppend(Tallied(t, Classify(a[0])), a[1..], b);
    } else {
      assert a + b == b;
    }
  }

  lemma {:induction false} ReadOthers(t: Tally, ls: seq<string>)
    requires forall i :: 0 <= i < |ls| ==> Classify(ls[i]) == Other
    ensures ReadLines(t, ls) == t
    decreases |ls|
  {
    if ls != [] {
      assert Classify(ls[0]) == Other;
      ReadOthers(t, ls[1..]);
    }
  }

  /** One step of reading, for a line whose kind is known. */
  lemma ReadStep(t: Tally, ls: seq<string>, k: nat, line: string, t': Tally)
    requires k < |ls| && ls[k] == line && Tallied(t, Classify(line)) == t'
    ensures ReadLines(t, ls[k..]) == ReadLines(t', ls[k + 1..])
  {
    assert ls[k..][0] == ls[k] && ls[k..][1..] == ls[k + 1..];
  }

  /** Crediting a block is naming its person and adding its seconds. */
  lemma CreditIsAdd(t: Tally, r: LogRecord)
    requires r.name != []
    ensures AddSeconds(Named(t, r.name), r.net) == Credit(t, r)
  {
  }

  /** Reading the header of a block credits its person with its net seconds. */
  lemma ReadHeader(t: Tally, r: LogRecord)
    requires SafeRecord(r)
    ensures ReadLines(t, HeaderLines(r)) == Credit(t, r)
  {
    var h := HeaderLines(r);
    assert h[0..] == h;
    ReadNameLines(t, r);
    ReadIdLines(Named(t, r.name), r);
    ReadTotalLines(t, r);
  }

  /** The rule and the name line make the person current. */
  lemma ReadNameLines(t: Tally, r: LogRecord)
    requires SafeRecord(r)
    ensures ReadLines(t, HeaderLines(r)[0..]) == ReadLines(Named(t, r.name), HeaderLines(r)[2..])
  {
    var h := HeaderLines(r);
    assert h[0] == Rule && h[1] == NameLine(r.name);
    OtherRule();
    ReadStep(t, h, 0, Rule, t);
    ClassifyName(r.name);
    ReadStep(t, h, 1, NameLine(r.name), Named(t, r.name));
  }

  /** The card, entry and exit lines change nothing. */
  lemma ReadIdLines(t: Tally, r: LogRecord)
    ensures ReadLines(t, HeaderLines(r)[2..]) == ReadLines(t, HeaderLines(r)[5..])
  {
    var h := HeaderLines(r);
    assert h[2] == CardLine(r.card) && h[3] == EntryLine(r.entry) && h[4] == ExitLine(r.exit);
    OtherCard(r.card);
    ReadStep(t, h, 2, CardLine(r.card), t);
    OtherEntry(r.entry);
    ReadStep(t, h, 3, EntryLine(r.entry), t);
    OtherExit(r.exit);
    ReadStep(t, h, 4, ExitLine(r.exit), t);
  }

  /** The net time line adds the seconds; the break total line is skipped. */
  lemma ReadTotalLines(t: Tally, r: LogRecord)
    requires SafeRecord(r)
    ensures ReadLines(Named(t, r.name), HeaderLines(r)[5..]) == Credit(t, r)
  {
    var h := HeaderLines(r);
    var named := Named(t, r.name);
    var credited := Credit(t, r);
    assert h[5] == TotalLine(r.net) && h[6] == BreaksTotalLine(r.totalBreak);
    assert Tallied(named, Classify(TotalLine(r.net))) == credited by {
      ClassifyTotal(r.net);
      CreditIsAdd(t, r);
      SecondsOfTotal(r.net);
    }
    ReadStep(named, h, 5, TotalLine(r.net), credited);
    OtherBreaksTotal(r.totalBreak);
    ReadStep(credited, h, 6, BreaksTotalLine(r.totalBreak), credited);
    assert h[7..] == [];
  }

  /** No line of a block holds a line break of its own. */
  predicate AllClean(ls: seq<string>) {
    forall i :: 0 <= i < |ls| ==> NoLineBreak(ls[i])
  }

  lemma AllCleanJoin(a: seq<string>, b: seq<string>)
    requires AllClean(a) && AllClean(b)
    ensures AllClean(a + b)
  {
    forall i | 0 <= i < |a + b| ensures NoLineBreak((a + b)[i]) {
      if i >= |a| {
        assert (a + b)[i] == b[i - |a|];
      }
    }
  }

  lemma HeaderClean(r: LogRecord)
    requires SafeRecord(r)
    ensures AllClean(HeaderLines(r))
  {
    LabelsClean();
    TextLinesClean(r);
    NumberLinesClean(r);
    SevenClean(Rule, NameLine(r.name), CardLine(r.card), EntryLine(r.entry),
      ExitLine(r.exit), TotalLine(r.net), BreaksTotalLine(r.totalBreak));
  }

  lemma SevenClean(a: string, b: string, c: string, d: string, e: string, f: string, g: string)
    requires NoLineBreak(a) && NoLineBreak(b) && NoLineBreak(c) && NoLineBreak(d)
    requires NoLineBreak(e) && NoLineBreak(f) && NoLineBreak(g)
    ensures AllClean([a, b, c, d, e, f, g])
  {
  }

  lemma TextLinesClean(r: LogRecord)
    requires SafeRecord(r)
    ensures NoLineBreak(NameLine(r.name)) && NoLineBreak(CardLine(r.card))
  {
    LabelsClean();
    NoBreakJoin(NamePrefix, r.name);
    NoBreakJoin(CardPrefix, r.card);
  }

  lemma NumberLinesClean(r: LogRecord)
    ensures NoLineBreak(EntryLine(r.entry)) && NoLineBreak(ExitLine(r.exit))
    ensures NoLineBreak(TotalLine(r.net)) && NoLineBreak(BreaksTotalLine(r.totalBreak))
  {
    LabelsClean();
    IntTextClean(r.entry);
    IntTextClean(r.exit);
    IntTextClean(r.net);
    IntTextClean(r.totalBreak);
    NoBreakJoin(EntryPrefix, IntToText(r.entry));
    NoBreakJoin(ExitPrefix, IntToText(r.exit));
    NoBreakJoin(IntToText(r.net), " seconds");
    NoBreakJoin(NetPrefix, IntToText(r.net) + " seconds");
    NoBreakJoin(BreaksPrefix, IntToText(r.totalBreak));
  }

  lemma BreakClean(b: Interval)
    ensures NoLineBreak(BreakLine(b))
  {
    LabelsClean();
    IntTextClean(b.start);
    IntTextClean(b.end);
    IntTextClean(Duration(b));
    var a := IntToText(b.start) + " to ";
    NoBreakJoin(IntToText(b.start), " to ");
    NoBreakJoin(a, IntToText(b.end));
    NoBreakJoin(a + IntToText(b.end), " -> ");
    NoBreakJoin(a + IntToText(b.end) + " -> ", IntToText(Duration(b)));
    NoBreakJoin(a + IntToText(b.end) + " -> " + IntToText(Duration(b)), " sec");
    NoBreakJoin(BreakIndent, BreakText(b));
  }

  lemma TrailerClean(breaks: seq<Interval>)
    ensures AllClean(TrailerLines(breaks))
  {
    var bl := BreakLines(breaks);
    forall i | 0 <= i < |bl| ensures NoLineBreak(bl[i]) {
      BreakLinesAt(breaks, i);
      BreakClean(breaks[i]);
    }
    LabelsClean();
    assert AllClean([BreaksHeading]) && AllClean([""]);
    AllCleanJoin([BreaksHeading], bl);
    if breaks != [] {
      AllCleanJoin([BreaksHeading] + bl, [""]);
    } else {
      assert TrailerLines(breaks) == [""];
    }
  }

  lemma LogLinesClean(r: LogRecord)
    requires SafeRecord(r)
    ensures AllClean(LogLines(r))
  {
    HeaderClean(r);
    TrailerClean(r.breaks);
    AllCleanJoin(HeaderLines(r), TrailerLines(r.breaks));
  }

  /** Reading one block credits its person with its net seconds, whatever follows. */
  lemma ReadBlock(t: Tally, r: LogRecord, rest: string)
    requires SafeRecord(r)
    ensures ReadLines(t, Lines(LogBlock(r) + rest)) == ReadLines(Credit(t, r), Lines(rest))
  {
    var h, tl := HeaderLines(r), TrailerLines(r.breaks);
    LogLinesClean(r);
    LinesOfUnlines(LogLines(r), rest);
    ReadLinesAppend(t, LogLines(r), Lines(rest));
    ReadLinesAppend(t, h, tl);
    ReadHeader(t, r);
    TrailerKinds(r.breaks);
    ReadOthers(Credit(t, r), tl);
  }

  /** Reading a log made of blocks credits each block's person in turn. */
  lemma {:induction false} ReadLog(t: Tally, rs: seq<LogRecord>)
    requires forall i :: 0 <= i < |rs| ==> SafeRecord(rs[i])
    ensures ReadLines(t, Lines(LogText(rs))) == Credits(t, rs)
    decreases |rs|
  {
    if rs != [] {
      ReadBlock(t, rs[0], LogText(rs[1..]));
      ReadLog(Credit(t, rs[0]), rs[1..]);
    }
  }

  /** The net seconds of every block of `rs` that belongs to `n`. */
  function NetSum(rs: seq<LogRecord>, n: string): int {
    if rs == [] then 0 else (if rs[0].name == n then rs[0].net else 0) + NetSum(rs[1..], n)
  }

  /** The total of `n` after crediting `rs`: what it was, plus every net
      second of `n`'s blocks; `n` has a total exactly when it had one or
      owns a block. */
  lemma {:induction false} CreditsTotals(t: Tally, rs: seq<LogRecord>, n: string)
    ensures n in Credits(t, rs).totals <==> n in t.totals || exists i :: 0 <= i < |rs| && rs[i].name == n
    ensures n in Credits(t, rs).totals ==>
      Credits(t, rs).totals[n] == (if n in t.totals then t.totals[n] else 0) + NetSum(rs, n)
    decreases |rs|
  {
    if rs != [] {
      CreditsTotals(Credit(t, rs[0]), rs[1..], n);
      if exists i :: 0 <= i < |rs[1..]| && rs[1..][i].name == n {
        var i :| 0 <= i < |rs[1..]| && rs[1..][i].name == n;
        assert rs[i + 1].name == n;
      }
      if exists i :: 0 <= i < |rs| && rs[i].name == n {
        var i :| 0 <= i < |rs| && rs[i].name == n;
        if i > 0 {
          assert rs[1..][i - 1].name == n;
        }
      }
    }
  }

  /** The report over a log of blocks is the report over the tally that
      crediting the blocks gives. */
  lemma ReportIsCredits(rs: seq<LogRecord>, hours: int)
    requires forall i :: 0 <= i < |rs| ==> SafeRecord(rs[i])
    ensures TallyOk(Credits(Start(), rs))
    ensures AttendanceReport(Some(LogText(rs)), hours) == Some(Rows(Credits(Start(), rs), hours))
  {
    ReadLog(Start(), rs);
    ReadLinesOk(Start(), Lines(LogText(rs)));
  }

  /** The rows of the credited tally: one per person who owns a block and no
      others, each person once, with the sum of their net seconds. */
  lemma RowsOfCredits(rs: seq<LogRecord>, hours: int)
    requires TallyOk(Credits(Start(), rs))
    ensures var rows := Rows(Credits(Start(), rs), hours);
      (forall k :: 0 <= k < |rows| ==>
         rows[k].seconds == NetSum(rs, rows[k].name) &&
         (rows[k].valid <==> NetSum(rs, rows[k].name) >= hours * 3600)) &&
      (forall i :: 0 <= i < |rs| ==> exists k :: 0 <= k < |rows| && rows[k].name == rs[i].name) &&
      (forall k :: 0 <= k < |rows| ==> exists i :: 0 <= i < |rs| && rs[i].name == rows[k].name) &&
      (forall k1, k2 :: 0 <= k1 < k2 < |rows| ==> rows[k1].name != rows[k2].name)
  {
    var t := Credits(Start(), rs);
    var rows := Rows(t, hours);
    forall k | 0 <= k < |rows|
      ensures rows[k].seconds == NetSum(rs, rows[k].name)
      ensures exists i :: 0 <= i < |rs| && rs[i].name == rows[k].name
    {
      CreditsTotals(Start(), rs, rows[k].name);
    }
    forall i | 0 <= i < |rs|
      ensures exists k :: 0 <= k < |rows| && rows[k].name == rs[i].name
    {
      CreditsTotals(Start(), rs, rs[i].name);
      var k :| 0 <= k < |t.names| && t.names[k] == rs[i].name;
      assert rows[k].name == rs[i].name;
    }
  }

  /** The report over a log of blocks: one row per person who owns a block
      and no other rows, each person once, with the sum of that person's net
      seconds, valid exactly when the sum reaches the threshold. */
  lemma ReportOfLog(rs: seq<LogRecord>, hours: int)
    requires forall i :: 0 <= i < |rs| ==> SafeRecord(rs[i])
    ensures AttendanceReport(Some(LogText(rs)), hours).Some?
    ensures var rows := AttendanceReport(Some(LogText(rs)), hours).value;
      (forall k :: 0 <= k < |rows| ==>
         rows[k].seconds == NetSum(rs, rows[k].name) &&
         (rows[k].valid <==> NetSum(rs, rows[k].name) >= hours * 3600)) &&
      (forall i :: 0 <= i < |rs| ==> exists k :: 0 <= k < |rows| && rows[k].name == rs[i].name) &&
      (forall k :: 0 <= k < |rows| ==> exists i :: 0 <= i < |rs| && rs[i].name == rows[k].name) &&
      (forall k1, k2 :: 0 <= k1 < k2 < |rows| ==> rows[k1].name != rows[k2].name)
  {
    ReportIsCredits(rs, hours);
    RowsOfCredits(rs, hours);
  }

  /** Appending a block to a log of blocks: its person has a row whose
      total is their earlier sum plus the block's net seconds. */
  lemma ReportAfterAppend(rs: seq<LogRecord>, r: LogRecord, hours: int)
    requires forall i :: 0 <= i < |rs| ==> SafeRecord(rs[i])
    requires SafeRecord(r)
    ensures var report := AttendanceReport(Some(LogText(rs) + LogBlock(r)), hours);
      report.Some? &&
      exists k :: 0 <= k < |report.value| && report.value[k].name == r.name &&
        report.value[k].seconds == NetSum(rs, r.name) + r.net
  {
    var all := rs + [r];
    LogTextSnoc(rs, r);
    NetSumSnoc(rs, r, r.name);
    SafeSnoc(rs, r);
    ReportIsCredits(all, hours);
    RowOfLast(all, r, hours);
  }

  /** The person of the last block has a row carrying their whole sum. */
  lemma RowOfLast(rs: seq<LogRecord>, r: LogRecord, hours: int)
    requires TallyOk(Credits(Start(), rs)) && rs != [] && rs[|rs| - 1] == r
    ensures var rows := Rows(Credits(Start(), rs), hours);
      exists k :: 0 <= k < |rows| && rows[k].name == r.name && rows[k].seconds == NetSum(rs, r.name)
  {
    var t := Credits(Start(), rs);
    CreditsTotals(Start(), rs, r.name);
    var k :| 0 <= k < |t.names| && t.names[k] == r.name;
    assert Rows(t, hours)[k].seconds == NetSum(rs, r.name);
  }

  lemma SafeSnoc(rs: seq<LogRecord>, r: LogRecord)
    requires forall i :: 0 <= i < |rs| ==> SafeRecord(rs[i])
    requires SafeRecord(r)
    ensures forall i :: 0 <= i < |rs + [r]| ==> SafeRecord((rs + [r])[i])
  {
    assert forall i :: 0 <= i < |rs| ==> (rs + [r])[i] == rs[i];
    assert (rs + [r])[|rs|] == r;
  }
}
