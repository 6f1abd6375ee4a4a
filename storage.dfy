/**
  Persistence of the active sessions: each session is written as one line
  `name | card | json` of the active-scans file, and read back at start-up
  line by line, skipping whatever cannot be read.
*/
module Storage {
  import opened Wrappers
  import opened Text
  import opened Json
  import opened State

  // ---------------------------------------------------------------------
  // One session as JSON
  // ---------------------------------------------------------------------

  /** A timestamp as the text `isoformat` would give (whole seconds here). */
  function Stamp(t: int): Value {
    Str(IntToText(t))
  }

  function BreakValue(b: Interval): Value {
    Obj([Field("start", Stamp(b.start)), Field("end", Stamp(b.end))])
  }

  function BreakValues(bs: seq<Interval>): (r: seq<Value>)
    ensures |r| == |bs|
  {
    if bs == [] then [] else [BreakValue(bs[0])] + BreakValues(bs[1..])
  }

  /** The break start as written: an ISO stamp, or `null` when there is none. */
  function StartValue(start: Option<int>): Value {
    match start
    case None => Null
    case Some(t) => Stamp(t)
  }

  /** The dictionary `_serialize_scan_entry` hands to `json.dumps`, keys in its order. */
  function EntryValue(s: Session): Value {
    Obj([
      Field("entry", Stamp(s.entry)),
      Field("name", Str(s.name)),
      Field("on_break", Bool(s.onBreak)),
      Field("current_break_start", StartValue(s.breakStart)),
      Field("total_break_seconds", Num(s.totalBreak)),
      Field("breaks", Arr(BreakValues(s.breaks)))])
  }

  function SerializeScanEntry(s: Session): (r: string)
    ensures r != [] && r[0] == '{' && r[|r| - 1] == '}'
  {
    Dumps(EntryValue(s))
  }

  /** Python truthiness of a decoded JSON value. */
  predicate Truthy(v: Value) {
    match v
    case Null => false
    case Bool(b) => b
    case Num(n) => n != 0
    case Str(s) => s != []
    case Arr(items) => items != []
    case Obj(fields) => fields != []
  }

  /** `datetime.fromisoformat(v)`: only a string holding a timestamp is accepted. */
  function ParseStamp(v: Value): (r: Option<int>)
    ensures r.Some? ==> v.Str?
  {
    match v
    case Str(t) => ParseIntText(t)
    case _ => None
  }

  /** `float(v)` on a decoded value: a number, a boolean, or a string holding
      a number with whitespace around it. */
  function ToSeconds(v: Value): Option<int> {
    match v
    case Num(n) => Some(n)
    case Bool(b) => Some(if b then 1 else 0)
    case Str(t) => FloatText(Strip(t))
    case _ => None
  }

  /** What `for x in v` visits: the items of a list, the keys of an object,
      the characters of a string; anything else cannot be iterated. */
  function Iterate(v: Value): (r: Option<seq<Value>>)
    ensures v.Arr? ==> r == Some(v.items)
  {
    match v
    case Arr(items) => Some(items)
    case Obj(fields) => Some(seq(|fields|, i requires 0 <= i < |fields| => Str(fields[i].key)))
    case Str(s) => Some(seq(|s|, i requires 0 <= i < |s| => Str([s[i]])))
    case _ => None
  }

  /** `(fromisoformat(x["start"]), fromisoformat(x["end"]))`: `x` must be an
      object holding both keys as timestamps. */
  function DecodeBreak(x: Value): Option<Interval> {
    match x
    case Obj(fields) =>
      (match (Get(fields, "start"), Get(fields, "end"))
       case (Some(s), Some(e)) =>
         (match (ParseStamp(s), ParseStamp(e))
          case (Some(a), Some(b)) => Some(Interval(a, b))
          case _ => None)
       case _ => None)
    case _ => None
  }

  function DecodeBreaks(xs: seq<Value>): (r: Option<seq<Interval>>)
    ensures r.Some? ==> |r.value| == |xs|
  {
    if xs == [] then Some([])
    else match (DecodeBreak(xs[0]), DecodeBreaks(xs[1..]))
      case (Some(b), Some(bs)) => Some([b] + bs)
      case _ => None
  }

  /** `datetime.fromisoformat(data["entry"])`: the key must be there. */
  function DecodeEntryStamp(v: Option<Value>): Option<int> {
    match v
    case None => None
    case Some(x) => ParseStamp(x)
  }

  /** `data.get("on_break", False)`, used for its truth value. */
  function DecodeFlag(v: Option<Value>): bool {
    match v
    case None => false
    case Some(x) => Truthy(x)
  }

  function DecodeName(v: Option<Value>): Option<string> {
    match v
    case None => Some("Unknown")
    case Some(Str(n)) => Some(n)
    case Some(_) => None
  }

  function DecodeBreakStart(v: Option<Value>): Option<Option<int>> {
    match v
    case None => Some(None)
    case Some(x) =>
      if !Truthy(x) then Some(None)
      else match ParseStamp(x)
        case None => None
        case Some(t) => Some(Some(t))
  }

  function DecodeTotal(v: Option<Value>): Option<int> {
    match v
    case None => Some(0)
    case Some(x) => ToSeconds(x)
  }

  function DecodeBreakList(v: Option<Value>): Option<seq<Interval>> {
    match v
    case None => Some([])
    case Some(x) =>
      match Iterate(x)
      case None => None
      case Some(xs) => DecodeBreaks(xs)
  }

  /** The session a decoded object describes under the given name, or
      `None` where Python raises: no `entry`, a value of the wrong kind, a
      timestamp that does not parse; and also where a number is not whole.
      The object's own `name` is not read. */
  function DecodeSession(fields: seq<Field>, name: string): Option<Session> {
    var entry := DecodeEntryStamp(Get(fields, "entry"));
    var onBreak := DecodeFlag(Get(fields, "on_break"));
    var start := DecodeBreakStart(Get(fields, "current_break_start"));
    var total := DecodeTotal(Get(fields, "total_break_seconds"));
    var breaks := DecodeBreakList(Get(fields, "breaks"));
    if entry.Some? && start.Some? && total.Some? && breaks.Some? then
      Some(Session(entry.value, name, onBreak, start.value, total.value, breaks.value))
    else None
  }

  /** `_deserialize_scan_entry`: the session with the object's own name, or
      "Unknown" when it has none. A name that is not a string gives `None`,
      because a session's name here is a string. */
  function DecodeEntry(fields: seq<Field>): Option<Session> {
    match DecodeName(Get(fields, "name"))
    case None => None
    case Some(n) => DecodeSession(fields, n)
  }

  function DeserializeScanEntry(text: string): Option<Session> {
    match Loads(text)
    case Some(Obj(fields)) => DecodeEntry(fields)
    case _ => None
  }

  /** `_deserialize_scan_entry` followed by `entry_dict["name"] = name_display`:
      whatever the payload holds under `name` is replaced, so it is not read. */
  function DeserializeNamed(text: string, name: string): Option<Session> {
    match Loads(text)
    case Some(Obj(fields)) => DecodeSession(fields, name)
    case _ => None
  }

  /** Renaming a decoded session gives what decoding under the new name
      gives, and only a payload that decodes under one name decodes under
      every other. */
  lemma DisplayNameWins(text: string, name: string)
    ensures forall e :: DeserializeScanEntry(text) == Some(e) ==>
      DeserializeNamed(text, name) == Some(e.(name := name))
    ensures forall other :: DeserializeNamed(text, name).Some? <==> DeserializeNamed(text, other).Some?
  {
  }

  /** A `name` field of any kind, `null` included, changes nothing about the
      session decoded under a display name. */
  lemma NameIgnored(fields: seq<Field>, v: Value, name: string)
    ensures DecodeSession(fields + [Field("name", v)], name) == DecodeSession(fields, name)
  {
    var fs := fields + [Field("name", v)];
    assert fs[..|fs| - 1] == fields;
  }

  /** An object holding a readable `entry` and a `name` of any kind decodes
      under a display name with every other field at its default. */
  lemma EntryOnlyAnyName(t: int, v: Value, name: string)
    ensures DecodeSession([Field("entry", Stamp(t)), Field("name", v)], name) ==
      Some(Session(t, name, false, None, 0, []))
  {
    var fields := [Field("entry", Stamp(t))];
    assert [Field("entry", Stamp(t)), Field("name", v)] == fields + [Field("name", v)];
    NameIgnored(fields, v, name);
    assert fields[..0] == [];
    IntTextRoundTrip(t);
    assert Get(fields, "on_break") == None;
    assert Get(fields, "current_break_start") == None;
    assert Get(fields, "total_break_seconds") == None;
    assert Get(fields, "breaks") == None;
  }

  lemma BreakRoundTrip(b: Interval)
    ensures DecodeBreak(BreakValue(b)) == Some(b)
  {
    var fields := BreakValue(b).fields;
    assert fields[..1] == [Field("start", Stamp(b.start))];
    assert Get(fields, "start") == Some(Stamp(b.start));
    assert Get(fields, "end") == Some(Stamp(b.end));
    IntTextRoundTrip(b.start);
    IntTextRoundTrip(b.end);
  }

  lemma {:induction false} BreaksRoundTrip(bs: seq<Interval>)
    ensures DecodeBreaks(BreakValues(bs)) == Some(bs)
  {
    if bs != [] {
      BreakRoundTrip(bs[0]);
      BreaksRoundTrip(bs[1..]);
      var vs := BreakValues(bs);
      assert vs[0] == BreakValue(bs[0]) && vs[1..] == BreakValues(bs[1..]);
      HeadTail(bs);
    }
  }

  /** Decoding an object each of whose six keys decodes to the session's field. */
  lemma DecodeEntryFrom(fields: seq<Field>, s: Session)
    requires DecodeEntryStamp(Get(fields, "entry")) == Some(s.entry)
    requires DecodeName(Get(fields, "name")) == Some(s.name)
    requires DecodeFlag(Get(fields, "on_break")) == s.onBreak
    requires DecodeBreakStart(Get(fields, "current_break_start")) == Some(s.breakStart)
    requires DecodeTotal(Get(fields, "total_break_seconds")) == Some(s.totalBreak)
    requires DecodeBreakList(Get(fields, "breaks")) == Some(s.breaks)
    ensures DecodeEntry(fields) == Some(s)
  {
  }

  lemma StampDecodes(t: int)
    ensures DecodeEntryStamp(Some(Stamp(t))) == Some(t)
  {
    IntTextRoundTrip(t);
  }

  lemma TotalDecodes(t: int)
    ensures DecodeTotal(Some(Num(t))) == Some(t)
  {
  }

  lemma BreakListDecodes(bs: seq<Interval>)
    ensures DecodeBreakList(Some(Arr(BreakValues(bs)))) == Some(bs)
  {
    BreaksRoundTrip(bs);
  }

  /** The written break start, an ISO stamp or `null`, reads back as itself. */
  lemma BreakStartRoundTrip(s: Session)
    ensures DecodeBreakStart(Some(StartValue(s.breakStart))) == Some(s.breakStart)
  {
    match s.breakStart {
      case None =>
      case Some(t) => IntTextRoundTrip(t);
    }
  }

  /** Every key of a written session is found with its value. */
  lemma DecodeEntryOf(s: Session)
    ensures DecodeEntry(EntryValue(s).fields) == Some(s)
  {
    HeadKeysFound(s);
    TailKeysFound(s);
    DecodeWritten(EntryValue(s).fields, s);
  }

  /** Decoding an object whose six keys hold what the writer puts there. */
  lemma DecodeWritten(fields: seq<Field>, s: Session)
    requires Get(fields, "entry") == Some(Stamp(s.entry))
    requires Get(fields, "name") == Some(Str(s.name))
    requires Get(fields, "on_break") == Some(Bool(s.onBreak))
    requires Get(fields, "current_break_start") == Some(StartValue(s.breakStart))
    requires Get(fields, "total_break_seconds") == Some(Num(s.totalBreak))
    requires Get(fields, "breaks") == Some(Arr(BreakValues(s.breaks)))
    ensures DecodeEntry(fields) == Some(s)
  {
    StampDecodes(s.entry);
    BreakStartRoundTrip(s);
    TotalDecodes(s.totalBreak);
    BreakListDecodes(s.breaks);
    DecodeEntryFrom(fields, s);
  }

  lemma HeadKeysFound(s: Session)
    ensures Get(EntryValue(s).fields, "entry") == Some(Stamp(s.entry))
    ensures Get(EntryValue(s).fields, "name") == Some(Str(s.name))
    ensures Get(EntryValue(s).fields, "on_break") == Some(Bool(s.onBreak))
  {
    var fields := EntryValue(s).fields;
    GetAt(fields, 0, "entry");
    GetAt(fields, 1, "name");
    GetAt(fields, 2, "on_break");
  }

  lemma TailKeysFound(s: Session)
    ensures Get(EntryValue(s).fields, "current_break_start") == Some(StartValue(s.breakStart))
    ensures Get(EntryValue(s).fields, "total_break_seconds") == Some(Num(s.totalBreak))
    ensures Get(EntryValue(s).fields, "breaks") == Some(Arr(BreakValues(s.breaks)))
  {
    var fields := EntryValue(s).fields;
    GetAt(fields, 3, "current_break_start");
    GetAt(fields, 4, "total_break_seconds");
    GetAt(fields, 5, "breaks");
  }

  /** Reading back a written session gives the same session. */
  lemma SerializeRoundTrip(s: Session)
    ensures DeserializeScanEntry(SerializeScanEntry(s)) == Some(s)
  {
    LoadsDumps(EntryValue(s));
    DecodeEntryOf(s);
  }

  /** An object holding only a readable `entry` gives a session with every
      other field at its default. */
  lemma EntryDefaults(t: int)
    ensures DecodeEntry([Field("entry", Stamp(t))]) == Some(Session(t, "Unknown", false, None, 0, []))
  {
    var fields := [Field("entry", Stamp(t))];
    assert fields[..0] == [];
    IntTextRoundTrip(t);
    assert Get(fields, "name") == None;
    assert Get(fields, "on_break") == None;
    assert Get(fields, "current_break_start") == None;
    assert Get(fields, "total_break_seconds") == None;
    assert Get(fields, "breaks") == None;
  }

  // ---------------------------------------------------------------------
  // The active-scans file
  // ---------------------------------------------------------------------

  /** One line of the active-scans file, without its line break. */
  function SnapshotLine(card: string, s: Session): string {
    s.name + " | " + card + " | " + SerializeScanEntry(s)
  }

  /** The lines written for the cards of `order`, in that order. */
  function SnapshotLines(order: seq<string>, scans: map<string, Session>): (r: seq<string>)
    requires forall k :: k in order ==> k in scans
    ensures |r| == |order|
  {
    seq(|order|, i requires 0 <= i < |order| => SnapshotLine(order[i], scans[order[i]]))
  }

  /** What `save_active_scans_file` leaves in the file: one line per
      session, in the ledger's order. */
  function SnapshotText(l: Ledger): string
    requires Valid(l)
  {
    Unlines(SnapshotLines(l.order, l.scans))
  }

  /** What one line of the file contributes when it is read back. */
  datatype LineResult = Skip | Restore(card: string, session: Session)

  /** One pass of the loop body in `load_active_scans`: strip the line, skip
      it when empty, split it at `" | "`; three pieces are name, card and
      JSON (the name in front wins over the one in the JSON), two pieces are
      the older card-and-JSON form, and any other count or any JSON that does
      not decode skips the line. */
  function ParseLine(raw: string): (r: LineResult)
    ensures r.Restore? ==> |Split(Strip(raw), " | ")| in {2, 3}
  {
    var line := Strip(raw);
    if line == [] then Skip
    else
      var parts := Split(line, " | ");
      if |parts| == 3 then
        match DeserializeNamed(parts[2], parts[0])
        case None => Skip
        case Some(e) => Restore(parts[1], e)
      else if |parts| == 2 then
        match DeserializeScanEntry(parts[1])
        case None => Skip
        case Some(e) => Restore(parts[0], e)
      else Skip
  }

  /** `state.scan1[card] = entry_dict` for a line that was read, nothing otherwise. */
  function Apply(l: Ledger, r: LineResult): (l': Ledger)
    ensures Valid(l) ==> Valid(l')
  {
    match r
    case Skip => l
    case Restore(card, s) => Put(l, card, s)
  }

  /** What each line of the file gives, in order. */
  function ParseAll(lines: seq<string>): (rs: seq<LineResult>)
    ensures |rs| == |lines|
  {
    seq(|lines|, i requires 0 <= i < |lines| => ParseLine(lines[i]))
  }

  /** The ledger after applying line results in order on top of `l`. */
  function LoadResults(l: Ledger, rs: seq<LineResult>): (r: Ledger)
    ensures Valid(l) ==> Valid(r)
    decreases |rs|
  {
    if rs == [] then l else LoadResults(Apply(l, rs[0]), rs[1..])
  }

  /** The ledger after reading `lines` in order on top of `l`. */
  function LoadLines(l: Ledger, lines: seq<string>): (r: Ledger)
    ensures Valid(l) ==> Valid(r)
  {
    LoadResults(l, ParseAll(lines))
  }

  lemma {:induction false} LoadResultsAppend(l: Ledger, a: seq<LineResult>, b: seq<LineResult>)
    ensures LoadResults(l, a + b) == LoadResults(LoadResults(l, a), b)
    decreases |a|
  {
    if a != [] {
      assert (a + b)[0] == a[0];
      assert (a + b)[1..] == a[1..] + b;
      LoadResultsAppend(Apply(l, a[0]), a[1..], b);
    } else {
      assert a + b == b;
    }
  }

  /** A card's session is the one on the last line that restores that card. */
  lemma {:induction false} LastResultWins(l: Ledger, rs: seq<LineResult>, i: nat, card: string, s: Session)
    requires i < |rs| && rs[i] == Restore(card, s)
    requires forall j :: i < j < |rs| ==> rs[j].Skip? || rs[j].card != card
    ensures card in LoadResults(l, rs).scans && LoadResults(l, rs).scans[card] == s
    decreases |rs|
  {
    if i == 0 {
      LaterResultsKeep(Apply(l, rs[0]), rs[1..], card);
    } else {
      LastResultWins(Apply(l, rs[0]), rs[1..], i - 1, card, s);
    }
  }

  /** Results that do not restore `card` leave its session alone. */
  lemma {:induction false} LaterResultsKeep(l: Ledger, rs: seq<LineResult>, card: string)
    requires card in l.scans
    requires forall j :: 0 <= j < |rs| ==> rs[j].Skip? || rs[j].card != card
    ensures card in LoadResults(l, rs).scans && LoadResults(l, rs).scans[card] == l.scans[card]
    decreases |rs|
  {
    if rs != [] {
      LaterResultsKeep(Apply(l, rs[0]), rs[1..], card);
    }
  }

  /** When several lines restore the same card, the last of them wins. */
  lemma LastLineWins(l: Ledger, lines: seq<string>, i: nat, card: string, s: Session)
    requires i < |lines| && ParseLine(lines[i]) == Restore(card, s)
    requires forall j :: i < j < |lines| ==> ParseLine(lines[j]).Skip? || ParseLine(lines[j]).card != card
    ensures card in LoadLines(l, lines).scans && LoadLines(l, lines).scans[card] == s
  {
    LastResultWins(l, ParseAll(lines), i, card, s);
  }

  /** Putting the sessions of `ks`, in order, into a ledger. */
  function PutAll(l: Ledger, ks: seq<string>, scans: map<string, Session>): Ledger
    requires forall k :: k in ks ==> k in scans
    decreases |ks|
  {
    if ks == [] then l else PutAll(Put(l, ks[0], scans[ks[0]]), ks[1..], scans)
  }

  /** Putting new, distinct keys appends them to the order and adds their sessions. */
  lemma {:induction false} PutAllFresh(l: Ledger, ks: seq<string>, scans: map<string, Session>)
    requires Valid(l) && NoDup(ks)
    requires forall k :: k in ks ==> k in scans && k !in l.scans
    ensures PutAll(l, ks, scans).order == l.order + ks
    ensures forall k :: k in PutAll(l, ks, scans).scans <==> k in l.scans || k in ks
    ensures forall k :: k in l.scans ==> PutAll(l, ks, scans).scans[k] == l.scans[k]
    ensures forall k :: k in ks ==> PutAll(l, ks, scans).scans[k] == scans[k]
    decreases |ks|
  {
    if ks != [] {
      var k := ks[0];
      var l' := Put(l, k, scans[k]);
      assert forall j :: 1 <= j < |ks| ==> ks[j] != k;
      assert forall x :: x in ks[1..] ==> x in ks && x != k by {
        forall x | x in ks[1..] ensures x in ks && x != k {
          var j :| 0 <= j < |ks[1..]| && ks[1..][j] == x;
          assert ks[j + 1] == x;
        }
      }
      PutAllFresh(l', ks[1..], scans);
      assert l.order + [k] + ks[1..] == l.order + ks by {
        HeadTail(ks);
        Regroup3(l.order, [k], ks[1..]);
      }
      assert forall x :: x in ks <==> x == k || x in ks[1..] by {
        HeadTail(ks);
      }
    }
  }

  /** A name the snapshot line can carry: not empty, not starting with
      whitespace (stripping would eat it), without a bar or a line break. */
  predicate SafeName(n: string) {
    n != [] && !IsSpace(n[0]) && '|' !in n && NoLineBreak(n)
  }

  /** A card the snapshot line can carry: no bar and no line break. */
  predicate SafeCard(c: string) {
    '|' !in c && NoLineBreak(c)
  }

  /** None of the writer's keys holds a bar or a line break. */
  lemma KeysAvoid(c: char)
    requires c in {'|', '\n', '\r'}
    ensures !IsSyntax(c)
    ensures c !in "entry" && c !in "name" && c !in "on_break" && c !in "current_break_start"
    ensures c !in "total_break_seconds" && c !in "breaks" && c !in "start" && c !in "end"
  {
    BarNotSyntax(c);
    SessionKeysAvoid(c);
    BreakKeysAvoid(c);
  }

  lemma BarNotSyntax(c: char)
    requires c in {'|', '\n', '\r'}
    ensures !IsSyntax(c)
  {
  }

  lemma SessionKeysAvoid(c: char)
    requires c in {'|', '\n', '\r'}
    ensures c !in "entry" && c !in "name" && c !in "on_break" && c !in "current_break_start"
  {
  }

  lemma BreakKeysAvoid(c: char)
    requires c in {'|', '\n', '\r'}
    ensures c !in "total_break_seconds" && c !in "breaks" && c !in "start" && c !in "end"
  {
  }

  lemma BreakValuePlain(b: Interval, c: char)
    requires c in {'|', '\n', '\r'}
    ensures !Mentions(BreakValue(b), c)
  {
    var fs := BreakValue(b).fields;
    assert c !in "start" && c !in "end" && c !in IntToText(b.start) && c !in IntToText(b.end) by {
      KeysAvoid(c);
      IntTextAvoids(b.start, c);
      IntTextAvoids(b.end, c);
    }
    assert fs[1..][1..] == [];
    assert !Mentions(fs[1].val, c) && !MentionsFields(fs[1..], c);
    assert !Mentions(fs[0].val, c) && !MentionsFields(fs, c);
  }

  lemma {:induction false} BreakValuesPlain(bs: seq<Interval>, c: char)
    requires c in {'|', '\n', '\r'}
    ensures !MentionsItems(BreakValues(bs), c)
  {
    if bs != [] {
      BreakValuePlain(bs[0], c);
      BreakValuesPlain(bs[1..], c);
      assert BreakValues(bs)[1..] == BreakValues(bs[1..]);
    }
  }

  /** The last three fields of a written session mention no bar or line break. */
  lemma TailFieldsAvoid(s: Session, c: char)
    requires c in {'|', '\n', '\r'}
    ensures !MentionsFields(EntryValue(s).fields[3..], c)
  {
    var fs := EntryValue(s).fields;
    assert c !in "current_break_start" && c !in "total_break_seconds" && c !in "breaks" by {
      KeysAvoid(c);
    }
    assert !Mentions(fs[3].val, c) by {
      match s.breakStart {
        case None =>
        case Some(t) => KeysAvoid(c); IntTextAvoids(t, c);
      }
    }
    BreakValuesPlain(s.breaks, c);
    assert !MentionsFields(fs[5..][1..], c);
    assert !MentionsFields(fs[4..][1..], c);
    assert !MentionsFields(fs[3..][1..], c);
  }

  /** The fields of a written session mention a bar only where the name does,
      and never a line break. */
  lemma FieldsAvoid(s: Session, c: char)
    requires c == '|' && c !in s.name
    ensures !Mentions(EntryValue(s), c)
  {
    var fs := EntryValue(s).fields;
    assert c !in "entry" && c !in "name" && c !in "on_break" && c !in IntToText(s.entry) by {
      KeysAvoid(c);
      IntTextAvoids(s.entry, c);
    }
    TailFieldsAvoid(s, c);
    assert fs[3..] == fs[2..][1..];
    assert !MentionsFields(fs[2..], c);
    assert !MentionsFields(fs[1..][1..], c);
    assert !MentionsFields(fs[1..], c);
    assert !MentionsFields(fs, c);
  }

  lemma PayloadAvoids(s: Session, c: char)
    requires c in {'|', '\n', '\r'} && (c < ' ' || c !in s.name)
    ensures c !in SerializeScanEntry(s)
  {
    if c == '|' {
      FieldsAvoid(s, c);
    }
    KeysAvoid(c);
    DumpsAvoids(EntryValue(s), c);
  }

  /** The JSON of a session holds no line break, and a bar only where the name does. */
  lemma PayloadClean(s: Session)
    requires '|' !in s.name
    ensures '|' !in SerializeScanEntry(s) && NoLineBreak(SerializeScanEntry(s))
  {
    PayloadAvoids(s, '|');
    PayloadAvoids(s, '\n');
    PayloadAvoids(s, '\r');
  }

  /** Stripping a line that starts with `a`'s first character and ends with
      a closing brace changes nothing. */
  lemma StripLine(a: string, b: string)
    requires a != [] && !IsSpace(a[0]) && b != [] && b[|b| - 1] == '}'
    ensures Strip(a + b) == a + b
  {
    var s := a + b;
    assert s[0] == a[0] && s[|s| - 1] == b[|b| - 1];
    StripClean(s);
  }

  /** `a | b | c` with no other bar splits into its three pieces. */
  lemma SplitThree(a: string, b: string, c: string)
    requires '|' !in a && '|' !in b && '|' !in c
    ensures Split(a + " | " + b + " | " + c, " | ") == [a, b, c]
  {
    var x := b + " | " + c;
    assert a + " | " + b + " | " + c == a + " | " + x by {
      Regroup4(a + " | ", b, " | ", c);
    }
    assert Split(x, " | ") == [b, c] by {
      SplitAtBar(b, c);
      SplitWithoutBar(c);
    }
    SplitAtBar(a, x);
  }

  /** A snapshot line is its own strip. */
  lemma StripThree(a: string, b: string, c: string)
    requires a != [] && !IsSpace(a[0]) && c != [] && c[|c| - 1] == '}'
    ensures Strip(a + " | " + b + " | " + c) == a + " | " + b + " | " + c
  {
    var x := b + " | " + c;
    assert a + " | " + b + " | " + c == a + (" | " + x) by {
      Regroup4(a + " | ", b, " | ", c);
      Regroup3(a, " | ", x);
    }
    StripLine(a, " | " + x);
  }

  /** `a | b`, with no other bar and ending in a brace, splits into its two pieces. */
  lemma SplitTwo(a: string, b: string)
    requires a != [] && !IsSpace(a[0]) && '|' !in a && '|' !in b
    requires b != [] && b[|b| - 1] == '}'
    ensures Split(Strip(a + " | " + b), " | ") == [a, b]
  {
    var line := a + " | " + b;
    assert Strip(line) == line by {
      Regroup3(a, " | ", b);
      StripLine(a, " | " + b);
    }
    assert Split(line, " | ") == [a, b] by {
      SplitAtBar(a, b);
      SplitWithoutBar(b);
    }
  }

  /** `a | b | c | d`, ending in a brace, splits into at least four pieces. */
  lemma SplitFour(a: string, b: string, c: string, d: string)
    requires a != [] && !IsSpace(a[0]) && '|' !in a && '|' !in b && '|' !in c
    requires d != [] && d[|d| - 1] == '}'
    ensures |Split(Strip(a + " | " + b + " | " + c + " | " + d), " | ")| >= 4
  {
    var x := c + " | " + d;
    var y := b + " | " + x;
    Regroup4(a + " | " + b + " | ", c, " | ", d);
    Regroup4(a + " | ", b, " | ", x);
    Regroup3(a, " | ", y);
    StripLine(a, " | " + y);
    SplitAtBar(a, y);
    SplitAtBar(b, x);
    SplitAtBar(c, d);
  }

  /** A line of three pieces whose JSON decodes under the name in front
      restores the middle piece's card with that session. */
  lemma ParseThree(raw: string, name: string, card: string, payload: string, e: Session)
    requires Strip(raw) != [] && Split(Strip(raw), " | ") == [name, card, payload]
    requires DeserializeNamed(payload, name) == Some(e)
    ensures ParseLine(raw) == Restore(card, e) && e.name == name
  {
  }

  lemma ParseTwo(raw: string, card: string, payload: string, e: Session)
    requires Strip(raw) != [] && Split(Strip(raw), " | ") == [card, payload]
    requires DeserializeScanEntry(payload) == Some(e)
    ensures ParseLine(raw) == Restore(card, e)
  {
  }

  lemma ParseMany(raw: string)
    requires |Split(Strip(raw), " | ")| >= 4
    ensures ParseLine(raw) == Skip
  {
  }

  /** A blank line, a line that does not split into two or three pieces,
      and a line whose JSON does not decode are all skipped, and a skipped
      line leaves the sessions as they were. */
  lemma SkippedLines(l: Ledger, raw: string)
    ensures Strip(raw) == [] ==> ParseLine(raw) == Skip
    ensures |Split(Strip(raw), " | ")| != 2 && |Split(Strip(raw), " | ")| != 3 ==> ParseLine(raw) == Skip
    ensures var parts := Split(Strip(raw), " | ");
      |parts| == 3 && DeserializeNamed(parts[2], parts[0]).None? ==> ParseLine(raw) == Skip
    ensures var parts := Split(Strip(raw), " | ");
      |parts| == 2 && DeserializeScanEntry(parts[1]).None? ==> ParseLine(raw) == Skip
    ensures ParseLine(raw) == Skip ==> Apply(l, ParseLine(raw)) == l
  {
  }

  /** A line `name | card | json` whose pieces hold no bar reads back as the
      card and the decoded session under that name. */
  lemma LineRoundTrip(name: string, card: string, payload: string, e: Session)
    requires SafeName(name) && SafeCard(card) && '|' !in payload
    requires payload != [] && payload[|payload| - 1] == '}'
    requires DeserializeScanEntry(payload) == Some(e)
    ensures ParseLine(name + " | " + card + " | " + payload) == Restore(card, e.(name := name))
  {
    var line := name + " | " + card + " | " + payload;
    assert Strip(line) == line && Strip(line) != [] by {
      StripThree(name, card, payload);
    }
    assert Split(line, " | ") == [name, card, payload] by {
      SplitThree(name, card, payload);
    }
    DisplayNameWins(payload, name);
    ParseThree(line, name, card, payload, e.(name := name));
  }

  /** A written line reads back as its card and session. */
  lemma SnapshotLineRoundTrip(card: string, s: Session)
    requires SafeName(s.name) && SafeCard(card)
    ensures ParseLine(SnapshotLine(card, s)) == Restore(card, s)
  {
    PayloadClean(s);
    SerializeRoundTrip(s);
    LineRoundTrip(s.name, card, SerializeScanEntry(s), s);
  }

  /** A line `card | json` whose pieces hold no bar reads back as the card
      and the decoded session. */
  lemma LegacyRoundTrip(card: string, payload: string, e: Session)
    requires SafeCard(card) && card != [] && !IsSpace(card[0]) && '|' !in payload
    requires payload != [] && payload[|payload| - 1] == '}'
    requires DeserializeScanEntry(payload) == Some(e)
    ensures ParseLine(card + " | " + payload) == Restore(card, e)
  {
    var line := card + " | " + payload;
    SplitTwo(card, payload);
    assert Strip(line) != [] by {
      Regroup3(card, " | ", payload);
      StripLine(card, " | " + payload);
    }
    ParseTwo(line, card, payload, e);
  }

  /** A line in the older `card | json` form reads back as that card and the
      session, name included. */
  lemma LegacyLineRoundTrip(card: string, s: Session)
    requires SafeCard(card) && card != [] && !IsSpace(card[0]) && '|' !in s.name
    ensures ParseLine(card + " | " + SerializeScanEntry(s)) == Restore(card, s)
  {
    PayloadClean(s);
    SerializeRoundTrip(s);
    LegacyRoundTrip(card, SerializeScanEntry(s), s);
  }

  /** A name holding `" | "` splits the line into four pieces, so the
      session is dropped when the file is read back. */
  lemma BarInNameSkipped(a: string, b: string, card: string, s: Session)
    requires s.name == a + " | " + b
    requires SafeName(a) && '|' !in b && SafeCard(card)
    ensures ParseLine(SnapshotLine(card, s)) == Skip
  {
    var payload := SerializeScanEntry(s);
    SplitFour(a, b, card, payload);
    assert SnapshotLine(card, s) == a + " | " + b + " | " + card + " | " + payload;
    ParseMany(SnapshotLine(card, s));
  }

  /** Reading the written file back into an empty ledger rebuilds the
      ledger, order included, when every name and card can be carried. */
  lemma SnapshotRoundTrip(l: Ledger)
    requires Valid(l)
    requires forall k :: k in l.scans ==> SafeCard(k) && SafeName(l.scans[k].name)
    ensures LoadLines(EmptyLedger(), Lines(SnapshotText(l))) == l
  {
    var lines := SnapshotLines(l.order, l.scans);
    SnapshotLinesClean(l);
    LinesOfUnlines(lines, "");
    assert Unlines(lines) + "" == Unlines(lines);
    assert lines + [] == lines;
    ParseSnapshotLines(l.order, l.scans);
    LoadRestores(EmptyLedger(), l.order, l.scans);
    PutAllLedger(l);
  }

  /** No line written for a ledger of carriable names and cards breaks in two. */
  lemma SnapshotLinesClean(l: Ledger)
    requires Valid(l)
    requires forall k :: k in l.scans ==> SafeCard(k) && SafeName(l.scans[k].name)
    ensures forall i :: 0 <= i < |l.order| ==> NoLineBreak(SnapshotLines(l.order, l.scans)[i])
  {
    var lines := SnapshotLines(l.order, l.scans);
    forall i | 0 <= i < |lines| ensures NoLineBreak(lines[i]) {
      var k := l.order[i];
      PayloadClean(l.scans[k]);
      assert NoLineBreak(lines[i]) by {
        assert lines[i] == l.scans[k].name + " | " + k + " | " + SerializeScanEntry(l.scans[k]);
      }
    }
  }

  /** Putting a ledger's keys, in its order, into an empty ledger rebuilds it. */
  lemma PutAllLedger(l: Ledger)
    requires Valid(l)
    ensures PutAll(EmptyLedger(), l.order, l.scans) == l
  {
    PutAllFresh(EmptyLedger(), l.order, l.scans);
    var r := PutAll(EmptyLedger(), l.order, l.scans);
    assert r.order == l.order;
    assert r.scans == l.scans;
  }

  /** The results of reading back the lines written for `ks`. */
  function Restores(ks: seq<string>, scans: map<string, Session>): (rs: seq<LineResult>)
    requires forall k :: k in ks ==> k in scans
    ensures |rs| == |ks|
  {
    seq(|ks|, i requires 0 <= i < |ks| => Restore(ks[i], scans[ks[i]]))
  }

  lemma ParseSnapshotLines(ks: seq<string>, scans: map<string, Session>)
    requires forall k :: k in ks ==> k in scans && SafeCard(k) && SafeName(scans[k].name)
    ensures ParseAll(SnapshotLines(ks, scans)) == Restores(ks, scans)
  {
    forall i | 0 <= i < |ks|
      ensures ParseAll(SnapshotLines(ks, scans))[i] == Restores(ks, scans)[i]
    {
      SnapshotLineRoundTrip(ks[i], scans[ks[i]]);
    }
  }

  /** Applying the restores for `ks` puts their sessions in order. */
  lemma {:induction false} LoadRestores(l: Ledger, ks: seq<string>, scans: map<string, Session>)
    requires forall k :: k in ks ==> k in scans
    ensures LoadResults(l, Restores(ks, scans)) == PutAll(l, ks, scans)
    decreases |ks|
  {
    if ks != [] {
      var rs := Restores(ks, scans);
      assert rs[1..] == Restores(ks[1..], scans);
      LoadRestores(Put(l, ks[0], scans[ks[0]]), ks[1..], scans);
    }
  }

  // ---------------------------------------------------------------------
  // The file operations
  // ---------------------------------------------------------------------

  /** `load_active_scans`: nothing happens when the file is missing;
      otherwise every line is read into `scan1` in turn. */
  method LoadActiveScans(st: SharedState)
    modifies st
    ensures st.scan1 == match old(st.activeFile)
      case None => old(st.scan1)
      case Some(text) => LoadLines(old(st.scan1), Lines(text))
    ensures st.activeFile == old(st.activeFile) && st.logFile == old(st.logFile)
    ensures st.interactionInProgress == old(st.interactionInProgress)
    ensures st.systemActive == old(st.systemActive) && st.unlockEvent == old(st.unlockEvent)
  {
    if st.activeFile.None? {
      return;
    }
    var lines := Lines(st.activeFile.value);
    ghost var rs := ParseAll(lines);
    var i := 0;
    while i < |lines|
      invariant 0 <= i <= |lines|
      invariant LoadResults(st.scan1, rs[i..]) == LoadLines(old(st.scan1), lines)
      invariant st.activeFile == old(st.activeFile) && st.logFile == old(st.logFile)
      invariant st.interactionInProgress == old(st.interactionInProgress)
      invariant st.systemActive == old(st.systemActive) && st.unlockEvent == old(st.unlockEvent)
    {
      assert rs[i..][1..] == rs[i + 1..];
      st.scan1 := Apply(st.scan1, ParseLine(lines[i]));
      i := i + 1;
    }
  }

  /** `save_active_scans_file`: the file is rewritten with one line per
      session, in the ledger's order. */
  method SaveActiveScansFile(st: SharedState)
    requires Valid(st.scan1)
    modifies st
    ensures st.scan1 == old(st.scan1) && st.logFile == old(st.logFile)
    ensures st.activeFile == Some(SnapshotText(st.scan1))
    ensures st.interactionInProgress == old(st.interactionInProgress)
    ensures st.systemActive == old(st.systemActive) && st.unlockEvent == old(st.unlockEvent)
  {
    var order, scans := st.scan1.order, st.scan1.scans;
    var text := WriteSnapshot(order, scans);
    st.activeFile := Some(text);
  }

  /** The lines `save_active_scans_file` writes, one per session in order. */
  method WriteSnapshot(order: seq<string>, scans: map<string, Session>) returns (text: string)
    requires forall k :: k in order ==> k in scans
    ensures text == Unlines(SnapshotLines(order, scans))
  {
    ghost var lines := SnapshotLines(order, scans);
    text := "";
    var i := 0;
    while i < |order|
      invariant 0 <= i <= |order|
      invariant text == Unlines(lines[..i])
    {
      var card := order[i];
      var line := SnapshotLine(card, scans[card]);
      SnapshotStep(lines, i, line);
      text := text + (line + "\n");
      i := i + 1;
    }
    assert lines[..i] == lines;
  }

  lemma SnapshotStep(lines: seq<string>, i: nat, line: string)
    requires i < |lines| && lines[i] == line
    ensures Unlines(lines[..i + 1]) == Unlines(lines[..i]) + (line + "\n")
  {
    TakeSnoc(lines, i);
    UnlinesAppend(lines[..i], [line]);
    assert Unlines([line]) == line + "\n" + Unlines([]);
  }
}
