/**
  The two handlers that change the attendance ledger: `handle_scan`, run
  for a card read while no admin login is pending, and `handle_user_action`,
  run when the kiosk answers the "break or leave?" question. Each runs
  under `state.lock` and is modelled as one atomic method on `SharedState`;
  the socket messages they emit are the `Reply` a scan returns.
*/
module Attendance {
  import opened Wrappers
  import opened Text
  import opened State
  import Storage
  import StorageLog
  import FaceAuth

  // ---------------------------------------------------------------------
  // Scanning a card
  // ---------------------------------------------------------------------

  /** The message a scan ends with. */
  datatype Reply = EnrollmentRequest | AccessDenied | CheckedIn | WelcomeBack | AskUserAction

  /** The enrolment photos of a card: the files whose name starts with the
      card number and an underscore. */
  function Enrollments(files: seq<string>, card: string): (r: seq<string>)
    ensures forall f :: f in r <==> f in files && StartsWith(f, card + "_")
    ensures |r| <= |files|
  {
    if files == [] then []
    else if StartsWith(files[0], card + "_") then [files[0]] + Enrollments(files[1..], card)
    else Enrollments(files[1..], card)
  }

  /** The display name: the matched label with every `<card>_` removed. */
  function ResolveName(matched: string, card: string): string {
    Replace(matched, card + "_", "")
  }

  /** A card seen for the first time today opens a session with no breaks. */
  function Admit(name: string, now: int): Session {
    Session(now, name, false, None, 0, [])
  }

  /** Closing the current break: it is recorded from its start to now. */
  function CloseBreak(s: Session, now: int): Session
    requires s.breakStart.Some?
  {
    var start := s.breakStart.value;
    s.(breaks := s.breaks + [Interval(start, now)], totalBreak := s.totalBreak + (now - start),
       breakStart := None, onBreak := false)
  }

  /** A verified scan of a card that has a session: the name is refreshed,
      a break in progress is closed, and a break flag without a recorded
      start is cleared. */
  function Rescan(s: Session, name: string, now: int): Session {
    var named := s.(name := name);
    if !named.onBreak then named
    else if named.breakStart.Some? then CloseBreak(named, now)
    else named.(onBreak := false)
  }

  /** The ledger after a verified scan. */
  function Scanned(l: Ledger, card: string, name: string, now: int): Ledger {
    Put(l, card, if card in l.scans then Rescan(l.scans[card], name, now) else Admit(name, now))
  }

  /** The message a verified scan ends with. */
  function ScanReply(l: Ledger, card: string): Reply {
    if card !in l.scans then CheckedIn
    else if l.scans[card].onBreak && l.scans[card].breakStart.Some? then WelcomeBack
    else AskUserAction
  }

  /** A verified scan of a card inside and not on break hands over to the
      kiosk question and leaves the interaction open. */
  predicate AwaitsAction(l: Ledger, card: string) {
    card in l.scans && !l.scans[card].onBreak
  }

  /** `handle_scan`. `files` is the listing of the known-faces directory and
      `known`, `sharedCamera`, `cameraOpens` and `ticks` are what
      `verify_face_for_card` sees. */
  /** What `handle_scan` leaves behind, from the ledger `l`, the snapshot
      `file` and what the scan finds, as the reply, the ledger `l'`, the
      snapshot `file'` and the interaction flag `busy'`: an unenrolled card
      asks for enrolment and keeps the flag set; a refused face is denied
      and clears the flag; a verified face applies the scan under the
      resolved name and rewrites the snapshot unless the kiosk question is
      asked. */
  ghost predicate ScanEffect(l: Ledger, file: Option<string>, card: string, files: seq<string>,
                             known: seq<string>, sharedCamera: bool, cameraOpens: bool,
                             ticks: seq<FaceAuth.Tick>, now: int,
                             reply: Reply, l': Ledger, file': Option<string>, busy': bool)
    requires Valid(l) && FaceAuth.InRange(known, ticks)
  {
    var v := FaceAuth.VerifyFace(known, card, sharedCamera, cameraOpens, ticks);
    (Enrollments(files, card) == [] ==>
       reply == EnrollmentRequest && l' == l && file' == file && busy') &&
    (Enrollments(files, card) != [] && v.Refused? ==>
       reply == AccessDenied && l' == l && file' == file && !busy') &&
    (Enrollments(files, card) != [] && v.Verified? ==>
       v.name.Some? &&
       reply == ScanReply(l, card) &&
       l' == Scanned(l, card, ResolveName(v.name.value, card), now) &&
       file' == (if reply == AskUserAction then file else Some(Storage.SnapshotText(l'))) &&
       busy' == AwaitsAction(l, card))
  }

  method HandleScan(st: SharedState, card: string, files: seq<string>, known: seq<string>,
                    sharedCamera: bool, cameraOpens: bool, ticks: seq<FaceAuth.Tick>, now: int)
    returns (reply: Reply)
    requires Valid(st.scan1) && FaceAuth.InRange(known, ticks)
    modifies st
    ensures Valid(st.scan1)
    ensures st.logFile == old(st.logFile) && st.systemActive == old(st.systemActive)
    ensures st.unlockEvent == old(st.unlockEvent)
    ensures ScanEffect(old(st.scan1), old(st.activeFile), card, files, known, sharedCamera, cameraOpens,
                       ticks, now, reply, st.scan1, st.activeFile, st.interactionInProgress)
  {
    st.interactionInProgress := true;
    var enrolled := Enrollments(files, card);
    if enrolled == [] {
      return EnrollmentRequest;
    }
    var verdict := FaceAuth.VerifyFaceForCard(known, card, sharedCamera, cameraOpens, ticks);
    if verdict.Refused? {
      st.interactionInProgress := false;
      return AccessDenied;
    }
    FaceAuth.VerifiedMeansBlink(known, card, sharedCamera, cameraOpens, ticks);
    var userName := ResolveName(verdict.name.value, card);
    reply := RecordScan(st, card, userName, now);
  }

  /** The part of `handle_scan` after a successful verification, under the
      lock: a new session, a closed break, a cleared break flag, or the
      kiosk question. The interaction ends except when the question is
      asked of a card that was not on break. */
  method RecordScan(st: SharedState, card: string, userName: string, now: int) returns (reply: Reply)
    requires Valid(st.scan1)
    modifies st
    ensures Valid(st.scan1)
    ensures reply == ScanReply(old(st.scan1), card)
    ensures st.scan1 == Scanned(old(st.scan1), card, userName, now)
    ensures st.activeFile == (if reply == AskUserAction then old(st.activeFile) else Some(Storage.SnapshotText(st.scan1)))
    ensures st.interactionInProgress == (AwaitsAction(old(st.scan1), card) && old(st.interactionInProgress))
    ensures st.logFile == old(st.logFile) && st.systemActive == old(st.systemActive)
    ensures st.unlockEvent == old(st.unlockEvent)
  {
    if card !in st.scan1.scans {
      st.scan1 := Put(st.scan1, card, Admit(userName, now));
      Storage.SaveActiveScansFile(st);
      st.interactionInProgress := false;
      reply := CheckedIn;
    } else {
      reply := RescanCard(st, card, userName, now);
    }
  }

  /** `handle_scan` for a card that has a session. */
  method RescanCard(st: SharedState, card: string, userName: string, now: int) returns (reply: Reply)
    requires Valid(st.scan1) && card in st.scan1.scans
    modifies st
    ensures Valid(st.scan1)
    ensures reply == ScanReply(old(st.scan1), card)
    ensures st.scan1 == Put(old(st.scan1), card, Rescan(old(st.scan1).scans[card], userName, now))
    ensures st.activeFile == (if reply == AskUserAction then old(st.activeFile) else Some(Storage.SnapshotText(st.scan1)))
    ensures st.interactionInProgress == (AwaitsAction(old(st.scan1), card) && old(st.interactionInProgress))
    ensures st.logFile == old(st.logFile) && st.systemActive == old(st.systemActive)
    ensures st.unlockEvent == old(st.unlockEvent)
  {
    var rec := st.scan1.scans[card].(name := userName);
    if rec.onBreak {
      if rec.breakStart.Some? {
        var breakStart := rec.breakStart.value;
        rec := rec.(breaks := rec.breaks + [Interval(breakStart, now)]);
        rec := rec.(totalBreak := rec.totalBreak + (now - breakStart));
        rec := rec.(breakStart := None, onBreak := false);
        st.scan1 := Put(st.scan1, card, rec);
        Storage.SaveActiveScansFile(st);
        reply := WelcomeBack;
      } else {
        rec := rec.(onBreak := false);
        st.scan1 := Put(st.scan1, card, rec);
        reply := AskUserAction;
      }
    } else {
      st.scan1 := Put(st.scan1, card, rec);
      return AskUserAction;
    }
    st.interactionInProgress := false;
  }

  // ---------------------------------------------------------------------
  // What a scan does to the ledger
  // ---------------------------------------------------------------------

  /** A card without a session gets exactly one new session, at the end of
      the ledger, with no break and the resolved name; the others stay. */
  lemma ScanAdmits(l: Ledger, card: string, name: string, now: int)
    requires Valid(l) && card !in l.scans
    ensures var r := Scanned(l, card, name, now);
      r.order == l.order + [card] && card in r.scans &&
      r.scans[card] == Session(now, name, false, None, 0, []) &&
      Consistent(r.scans[card]) &&
      (forall k :: k in l.scans ==> k in r.scans && r.scans[k] == l.scans[k]) &&
      (forall k :: k in r.scans ==> k in l.scans || k == card)
  {
  }

  /** A card on a recorded break gets the break closed: one interval from
      its start to now is appended, its length is added to the total, the
      break fields are cleared, and the entry time stays. */
  lemma ScanClosesBreak(s: Session, name: string, now: int)
    requires s.onBreak && s.breakStart.Some?
    ensures var r := Rescan(s, name, now);
      r.entry == s.entry && r.name == name && !r.onBreak && r.breakStart.None? &&
      r.breaks == s.breaks + [Interval(s.breakStart.value, now)] &&
      r.totalBreak == s.totalBreak + (now - s.breakStart.value)
  {
  }

  /** A break flag with no recorded start is only cleared. */
  lemma ScanRepairsFlag(s: Session, name: string, now: int)
    requires s.onBreak && s.breakStart.None?
    ensures Rescan(s, name, now) == s.(name := name, onBreak := false)
  {
  }

  /** A card inside and not on break only has its name refreshed. */
  lemma ScanRenames(s: Session, name: string, now: int)
    requires !s.onBreak
    ensures Rescan(s, name, now) == s.(name := name)
  {
  }

  /** A consistent session stays consistent through a scan: the break
      total is still the summed length of the recorded breaks. */
  lemma RescanConsistent(s: Session, name: string, now: int)
    requires Consistent(s)
    ensures Consistent(Rescan(s, name, now))
  {
    if s.onBreak {
      TotalDurationAppend(s.breaks, Interval(s.breakStart.value, now));
    }
  }

  /** Every session of the ledger is consistent. */
  predicate AllConsistent(l: Ledger) {
    forall k :: k in l.scans ==> Consistent(l.scans[k])
  }

  /** A scan keeps every session consistent and the other cards' sessions
      as they were; a card already inside keeps its place. */
  lemma ScanKeepsLedger(l: Ledger, card: string, name: string, now: int)
    requires Valid(l) && AllConsistent(l)
    ensures AllConsistent(Scanned(l, card, name, now))
    ensures card in l.scans ==> Scanned(l, card, name, now).order == l.order
    ensures forall k :: k in l.scans && k != card ==> Scanned(l, card, name, now).scans[k] == l.scans[k]
  {
    if card in l.scans {
      RescanConsistent(l.scans[card], name, now);
    }
  }

  /** The display name of a label `<card>_<rest>` is `rest` when `rest`
      does not itself contain `<card>_`. */
  lemma ResolvePrefixed(card: string, rest: string)
    requires forall j :: 0 <= j <= |rest| ==> !MatchAt(rest, card + "_", j)
    ensures ResolveName(card + "_" + rest, card) == rest
  {
    var sep := card + "_";
    assert card + "_" + rest == [] + sep + rest;
    SplitAtFirst([], sep, rest);
    SplitNoMatch(rest, sep);
    assert Split(card + "_" + rest, sep) == [[], rest];
    assert Join([[], rest], "") == [] + "" + Join([rest], "");
  }

  /** Every occurrence is removed, not only the leading one: for card `7`
      the label `7_Ann7_Lee` is shown as `AnnLee`. */
  lemma ResolveRemovesEvery(card: string, a: string, b: string)
    requires card != [] && card[0] !in a && card[0] !in b
    ensures ResolveName(card + "_" + a + card + "_" + b, card) == a + b
  {
    var sep := card + "_";
    var rest := a + sep + b;
    var whole := [] + sep + rest;
    assert whole == card + "_" + a + card + "_" + b;
    SplitAtHead([], sep, rest);
    SplitAtHead(a, sep, b);
    SplitWithoutHead(b, sep);
    assert Split(whole, sep) == [[], a, b];
    JoinEmptyHead(a, b);
  }

  lemma JoinEmptyHead(a: string, b: string)
    ensures Join([[], a, b], "") == a + b
  {
    var parts := [[], a, b];
    assert parts[1..] == [a, b] && [a, b][1..] == [b];
    assert Join([a, b], "") == a + "" + Join([b], "");
  }

  // ---------------------------------------------------------------------
  // Answering the kiosk question
  // ---------------------------------------------------------------------

  /** Seconds inside minus seconds on break, never below zero. */
  function NetSeconds(entry: int, exit: int, totalBreak: int): (r: int)
    ensures r >= 0 && r >= exit - entry - totalBreak
    ensures r == 0 || r == exit - entry - totalBreak
  {
    if exit - entry - totalBreak > 0 then exit - entry - totalBreak else 0
  }

  /** Starting a break; a break already in progress is restarted now. */
  function StartBreak(s: Session, now: int): Session {
    s.(onBreak := true, breakStart := Some(now))
  }

  /** The log block of a visit ending now. */
  function LeaveRecord(card: string, s: Session, now: int): StorageLog.LogRecord {
    StorageLog.LogRecord(card, s.name, s.entry, now, NetSeconds(s.entry, now, s.totalBreak),
                         s.breaks, s.totalBreak)
  }

  /** `if not card_id`: a missing or empty card number. */
  predicate NoCard(cardId: Option<string>) {
    cardId.None? || cardId.value == []
  }

  /** `handle_user_action`. A missing or unknown card changes nothing, not
      even the interaction flag; any other answer closes the interaction. */
  method HandleUserAction(st: SharedState, action: Option<string>, cardId: Option<string>, now: int)
    requires Valid(st.scan1)
    modifies st
    ensures Valid(st.scan1)
    ensures st.systemActive == old(st.systemActive)
    ensures NoCard(cardId) || cardId.value !in old(st.scan1.scans) ==>
      st.scan1 == old(st.scan1) && st.activeFile == old(st.activeFile) &&
      st.logFile == old(st.logFile) && st.unlockEvent == old(st.unlockEvent) &&
      st.interactionInProgress == old(st.interactionInProgress)
    ensures !NoCard(cardId) && cardId.value in old(st.scan1.scans) ==>
      var card, s := cardId.value, old(st.scan1.scans[cardId.value]);
      !st.interactionInProgress &&
      (action == Some("break") ==>
         st.scan1 == Put(old(st.scan1), card, StartBreak(s, now)) &&
         st.activeFile == Some(Storage.SnapshotText(st.scan1)) &&
         st.logFile == old(st.logFile) && st.unlockEvent) &&
      (action == Some("leave") ==>
         st.scan1 == Pop(old(st.scan1), card) &&
         st.logFile == Some(StorageLog.Contents(old(st.logFile)) + StorageLog.LogBlock(LeaveRecord(card, s, now))) &&
         st.activeFile == Some(Storage.SnapshotText(st.scan1)) && st.unlockEvent) &&
      (action != Some("break") && action != Some("leave") ==>
         st.scan1 == old(st.scan1) && st.activeFile == old(st.activeFile) &&
         st.logFile == old(st.logFile) && st.unlockEvent == old(st.unlockEvent))
  {
    if cardId.None? || cardId.value == [] {
      return;
    }
    var card := cardId.value;
    if card !in st.scan1.scans {
      return;
    }
    if action == Some("break") {
      TakeBreak(st, card, now);
    } else if action == Some("leave") {
      Leave(st, card, now);
    }
    st.interactionInProgress := false;
  }

  /** The `break` answer: the break starts now, the snapshot is rewritten
      and the door is opened. */
  method TakeBreak(st: SharedState, card: string, now: int)
    requires Valid(st.scan1) && card in st.scan1.scans
    modifies st
    ensures st.scan1 == Put(old(st.scan1), card, StartBreak(old(st.scan1).scans[card], now))
    ensures Valid(st.scan1) && st.activeFile == Some(Storage.SnapshotText(st.scan1)) && st.unlockEvent
    ensures st.logFile == old(st.logFile) && st.systemActive == old(st.systemActive)
  {
    var rec := st.scan1.scans[card];
    rec := rec.(onBreak := true, breakStart := Some(now));
    st.scan1 := Put(st.scan1, card, rec);
    Storage.SaveActiveScansFile(st);
    st.unlockEvent := true;
  }

  /** The `leave` answer: the session is removed, its visit is appended to
      the log, the snapshot is rewritten and the door is opened. */
  method Leave(st: SharedState, card: string, now: int)
    requires Valid(st.scan1) && card in st.scan1.scans
    modifies st
    ensures st.scan1 == Pop(old(st.scan1), card)
    ensures st.logFile == Some(StorageLog.Contents(old(st.logFile)) +
      StorageLog.LogBlock(LeaveRecord(card, old(st.scan1).scans[card], now)))
    ensures Valid(st.scan1) && st.activeFile == Some(Storage.SnapshotText(st.scan1)) && st.unlockEvent
    ensures st.systemActive == old(st.systemActive)
  {
    var userName := st.scan1.scans[card].name;
    var entryData := st.scan1.scans[card];
    st.scan1 := Pop(st.scan1, card);
    var entryTime := entryData.entry;
    var totalBreak := entryData.totalBreak;
    var rawBreaks := entryData.breaks;
    var duration := now - entryTime;
    var netDuration := if duration - totalBreak > 0 then duration - totalBreak else 0;
    StorageLog.SaveToLog(st, card, userName, entryTime, now, netDuration, rawBreaks, totalBreak);
    Storage.SaveActiveScansFile(st);
    st.unlockEvent := true;
  }

  // ---------------------------------------------------------------------
  // What an answer does to the ledger
  // ---------------------------------------------------------------------

  /** A started break keeps the session consistent. */
  lemma StartBreakConsistent(s: Session, now: int)
    requires Consistent(s)
    ensures Consistent(StartBreak(s, now)) && StartBreak(s, now).totalBreak == s.totalBreak
    ensures StartBreak(s, now).entry == s.entry && StartBreak(s, now).breaks == s.breaks
  {
  }

  /** A break started at `t0` and closed by a scan at `t1` is recorded as
      the interval from `t0` to `t1`, and its length is added to the total. */
  lemma BreakThenReturn(s: Session, name: string, t0: int, t1: int)
    requires Consistent(s)
    ensures var r := Rescan(StartBreak(s, t0), name, t1);
      Consistent(r) && !r.onBreak && r.entry == s.entry &&
      r.breaks == s.breaks + [Interval(t0, t1)] &&
      r.totalBreak == TotalDuration(s.breaks) + (t1 - t0)
  {
    TotalDurationAppend(s.breaks, Interval(t0, t1));
  }

  /** Leaving removes exactly that card, keeps the others, and logs a net
      time that is the time inside less the breaks, or zero. */
  lemma LeaveRemoves(l: Ledger, card: string, now: int)
    requires Valid(l) && card in l.scans
    ensures var r := Pop(l, card);
      Valid(r) && card !in r.scans && card !in r.order &&
      (forall k :: k in l.scans && k != card ==> k in r.scans && r.scans[k] == l.scans[k])
    ensures var rec := LeaveRecord(card, l.scans[card], now);
      rec.net >= 0 && rec.net + rec.totalBreak >= now - rec.entry &&
      (now - rec.entry >= rec.totalBreak ==> rec.net == now - rec.entry - rec.totalBreak)
  {
  }

  /** A visit ending with `leave` is counted in the attendance report: when
      the log held the blocks of `rs`, the person now has a row whose total
      is their earlier sum plus this visit's net seconds. */
  lemma LeaveCounted(rs: seq<StorageLog.LogRecord>, card: string, s: Session, now: int, hours: int)
    requires forall i :: 0 <= i < |rs| ==> StorageLog.SafeRecord(rs[i])
    requires StorageLog.SafeRecord(LeaveRecord(card, s, now))
    ensures var log := StorageLog.Contents(Some(StorageLog.LogText(rs))) + StorageLog.LogBlock(LeaveRecord(card, s, now));
      var report := StorageLog.AttendanceReport(Some(log), hours);
      report.Some? &&
      exists k :: 0 <= k < |report.value| && report.value[k].name == s.name &&
        report.value[k].seconds == StorageLog.NetSum(rs, s.name) + NetSeconds(s.entry, now, s.totalBreak)
  {
    StorageLog.ReportAfterAppend(rs, LeaveRecord(card, s, now), hours);
  }
}
