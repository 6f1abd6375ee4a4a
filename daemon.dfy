/**
  One pass of the daemon's main loop after start-up: decide and report
  the kiosk state, and when awake read the card reader once and route a
  card either to a pending admin login or to the attendance scan. The
  sleeps, the socket messages and the exception handler are not modelled.
*/
module Daemon {
  import opened Wrappers
  import opened Text
  import opened State
  import Presence
  import AdminAuth
  import Attendance
  import FaceAuth

  /** What a pass did. */
  datatype Pass = Asleep | Idle | AdminScan(success: bool) | CardScan(card: string, reply: Attendance.Reply)

  /** `if card_id:` — the reader returns no card, or the number 0, which
      Python treats as false. */
  predicate NoRead(read: Option<nat>) {
    read.None? || read.value == 0
  }

  /** `str(card_id).strip()` */
  function CardUid(n: nat): string {
    Strip(NatToText(n))
  }

  /** One pass of `background_loop` at loop time `now` (milliseconds).
      `read` is what the reader returned, `token` the fresh `uuid4`, and the
      remaining parameters what `handle_scan` sees, starting at `scanTime`
      (seconds). */
  method LoopPass(st: SharedState, monitor: Presence.StatusMonitor, admin: AdminAuth.AdminLogin,
                  now: int, read: Option<nat>, token: string,
                  files: seq<string>, known: seq<string>, sharedCamera: bool, cameraOpens: bool,
                  ticks: seq<FaceAuth.Tick>, scanTime: int) returns (pass: Pass)
    requires monitor.Valid() && Valid(st.scan1) && FaceAuth.InRange(known, ticks)
    modifies st, monitor, admin
    ensures monitor.Valid() && Valid(st.scan1)
    ensures monitor.sleepStart == Presence.NextSleepStart(old(st.systemActive), old(monitor.sleepStart), now)
    ensures var active := Presence.Reported(old(st.systemActive), monitor.sleepStart, now);
      var emit := old(monitor.lastActive) != Some(active) || old(monitor.heartbeat) + 1 >= Presence.HeartbeatEvery;
      (emit ==> monitor.lastActive == Some(active) && monitor.heartbeat == 0) &&
      (!emit ==> monitor.lastActive == old(monitor.lastActive) && monitor.heartbeat == old(monitor.heartbeat) + 1)
    ensures st.systemActive == old(st.systemActive) && st.logFile == old(st.logFile)
    ensures st.unlockEvent == old(st.unlockEvent)
    ensures !Presence.Reported(old(st.systemActive), monitor.sleepStart, now) ==>
      pass == Asleep
    ensures pass == Asleep || pass == Idle || pass.AdminScan? ==>
      st.scan1 == old(st.scan1) && st.activeFile == old(st.activeFile) &&
      st.interactionInProgress == old(st.interactionInProgress)
    ensures pass != Asleep ==>
      Presence.Reported(old(st.systemActive), monitor.sleepStart, now) &&
      (NoRead(read) <==> pass == Idle) &&
      (!NoRead(read) && old(admin.pending) <==> pass.AdminScan?) &&
      (!NoRead(read) && !old(admin.pending) <==> pass.CardScan?)
    ensures pass.AdminScan? ==>
      (pass.success <==> CardUid(read.value) in AdminAuth.AdminCards) &&
      admin.tokens == AdminAuth.AfterScan(old(admin.tokens), CardUid(read.value), token, now) &&
      !admin.pending
    ensures !pass.AdminScan? ==>
      admin.tokens == old(admin.tokens) && admin.pending == old(admin.pending)
    ensures admin.socketId == old(admin.socketId)
    ensures pass.CardScan? ==>
      pass.card == CardUid(read.value) &&
      Attendance.ScanEffect(old(st.scan1), old(st.activeFile), pass.card, files, known, sharedCamera,
                            cameraOpens, ticks, scanTime, pass.reply, st.scan1, st.activeFile,
                            st.interactionInProgress)
  {
    var rawActive := st.systemActive;
    var active, emit := monitor.Observe(rawActive, now);
    if !active {
      return Asleep;
    }
    if read.None? || read.value == 0 {
      return Idle;
    }
    var cardUid := CardUid(read.value);
    if admin.pending {
      var success, minted, notify := admin.Scan(cardUid, token, now);
      return AdminScan(success);
    }
    var reply := Attendance.HandleScan(st, cardUid, files, known, sharedCamera, cameraOpens, ticks, scanTime);
    return CardScan(cardUid, reply);
  }

  /** The card number the loop passes on is the reader's number in decimal,
      with nothing to strip. */
  lemma CardUidDecimal(n: nat)
    ensures CardUid(n) == NatToText(n)
    ensures AllDigits(CardUid(n)) && DigitsValue(CardUid(n)) == n
  {
    NatTextFacts(n);
    StripClean(NatToText(n));
  }
}
