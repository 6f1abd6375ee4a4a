# Smart attendance kiosk: the sequential core

This project models the sequential logic of a Raspberry-Pi attendance
kiosk in Dafny. A person scans an RFID card at the kiosk. The kiosk
checks their face, including a blink to show the face is live. It then
opens a session for them, closes a break, or asks whether they are taking
a break or leaving. The modelled parts are:

- **The attendance ledger** (`attendance.dfy`, `state.dfy`). The ledger is
  `state.scan1`, a map from card to session that keeps insertion order.
  `handle_scan` changes it after a verified scan, and `handle_user_action`
  changes it on the "break" and "leave" answers. Both are methods on the
  `SharedState` class. Their contracts say exactly which fields change and
  what the new ledger, snapshot file and log file are.
- **The liveness check** (`face_auth.dfy`). This is the loop of
  `verify_face_for_card`. Each camera frame becomes an observation: no
  face, an analysis error, or a face with its nearest label, a
  within-radius flag and an eyes-closed flag. What is left is the loop's
  counters and flags.
- **The main loop pass** (`presence.dfy`, `admin_auth.dfy`, `daemon.dfy`).
  - the wake/sleep grace decision and the status heartbeat;
  - routing a card read either to a pending admin login or to a scan;
  - the lifecycle of the one-time dashboard tokens.
- **Persistence** (`storage.dfy`, `storage_log.dfy`, with `json.dfy` and
  `text.dfy` below them).
  - the JSON payload of a session, with the defaults used on decoding;
  - the `name | card | payload` snapshot file and its legacy two-piece
    lines;
  - the append-only attendance log;
  - the report that adds up each person's net seconds from that log.

Each imperative operation is a method. Its `ensures` ties the result or
the new state to a specification function. Lemmas then prove about those
functions what the program promises: round trips, exactly what changes,
consistency of the break total, the blink requirement, and the grace rule.

Some behaviour of the code that the model keeps as written:

- **Door signal.** The code sets `unlock_event` on the `break` and `leave`
  answers (app.py:347, app.py:368). It does not set it when a new session
  is opened, nor when a break is closed by a scan.
- **Unenrolled card.** A scan of a card with no enrolment photo sets
  `interaction_in_progress` and returns with it still set (app.py:263,
  app.py:272-274).
- **Break flag without a start.** A scan of a session flagged on break but
  with no recorded start clears the flag and asks the kiosk question. It
  still ends the interaction, because only the not-on-break branch returns
  early (app.py:319-328).

Units: scan and ledger times are whole seconds; the loop's clock and the
token ages are milliseconds.

## Model

| member | source | states |
|---|---|---|
| Attendance.Enrollments | app.py:268-270 | a file is an enrolment photo of the card exactly when it is in the listing and its name starts with `<card>_` |
| Attendance.HandleScan | app.py:261-328 | an unenrolled card gives the enrolment request and leaves the ledger, the snapshot and the set interaction flag as they are; a refused face gives "access denied", leaves the ledger alone and clears the flag; a verified face applies the scan to the ledger under the resolved name, rewrites the snapshot unless the kiosk question is asked, and leaves the flag set only for a card that is inside and not on break; the log file and the door signal never change |
| Attendance.RecordScan | app.py:297-328 | after verification: a new card gets a session and a "checked in" reply, a known card is rescanned; the reply, the new ledger and the snapshot are given by `ScanReply`, `Scanned` and `SnapshotText` |
| Attendance.RescanCard | app.py:305-328 | a card with a session gets `Rescan` applied in place and keeps its position; the snapshot is rewritten only when a break was closed |
| Attendance.ScanAdmits | app.py:298-303 | a card without a session gets exactly one new session at the end of the order: entered now, not on break, no break start, total 0, no breaks, the resolved name; every other session is unchanged |
| Attendance.ScanClosesBreak | app.py:309-318 | a session on a recorded break gets exactly one interval from its start to now appended, that length added to the total, both break fields cleared, and its entry time kept |
| Attendance.ScanRepairsFlag | app.py:319-321 | a break flag with no start is only cleared; breaks and total stay |
| Attendance.ScanRenames | app.py:306-324 | a session not on break only has its name replaced |
| Attendance.RescanConsistent | app.py:309-316 | a session whose total equals the sum of its breaks, and which is on break exactly when a start is recorded, stays so after a scan |
| Attendance.ScanKeepsLedger | app.py:297-324 | a scan keeps every session consistent, keeps every other card's session, and keeps a present card's position |
| Attendance.ResolvePrefixed | app.py:294 | the display name of the label `<card>_<rest>` is `rest` when `rest` holds no further `<card>_` |
| Attendance.ResolveRemovesEvery | app.py:294 | every occurrence of `<card>_` is removed, not only the prefix: `<card>_a<card>_b` is shown as `ab` |
| Attendance.NetSeconds | app.py:360-361 | the net time is never negative, is at least the time inside minus the breaks, and is either zero or exactly that difference |
| Attendance.HandleUserAction | app.py:331-373 | a missing or unknown card changes nothing, not even the interaction flag; for a known card the flag is cleared; `break` starts a break now, rewrites the snapshot and sets the door signal; `leave` pops the session, appends its log block, rewrites the snapshot and sets the door signal; any other action changes nothing else |
| Attendance.TakeBreak | app.py:342-347 | the session is marked on break from now, the snapshot rewritten, the door signalled, the log untouched |
| Attendance.Leave | app.py:349-368 | the session is removed, the log grows by the block of this visit with its net seconds, the snapshot is rewritten and the door signalled |
| Attendance.StartBreakConsistent | app.py:342-344 | starting a break keeps the session consistent and keeps its entry, breaks and total |
| Attendance.BreakThenReturn | app.py:309-344 | a break started at `t0` and closed by a scan at `t1` adds the interval `(t0, t1)` and its length to the total |
| Attendance.LeaveRemoves | app.py:349-363 | leaving removes exactly that card and keeps the others; the logged net time is non-negative and equals the time inside less the breaks whenever that is non-negative |
| Attendance.LeaveCounted | app.py:349-365 | after a visit ends with `leave`, the attendance report over a log of well-formed blocks has a row for that person whose total is their earlier sum plus this visit's net seconds |
| FaceAuth.VerifyFace | face_auth.py:112-126 | with no known faces the result is `no_known_faces`, before any camera use |
| FaceAuth.VerifyFaceForCard | face_auth.py:107-291 | the loop returns the result of the per-frame machine `Run`, and refuses before the loop when there are no known faces or a private camera does not open |
| FaceAuth.OnlyEvenFramesAnalysed | face_auth.py:162-172 | a failed read changes nothing, not even the frame count; a read frame is counted, and only a frame that makes the count even is analysed |
| FaceAuth.FaceResetsMisses | face_auth.py:178-181 | an analysed frame with a face sets the miss count to zero |
| FaceAuth.MissRule | face_auth.py:227-235 | a frame without a face adds one miss; at 15 misses the identity and the blink counter are reset, below that nothing else changes |
| FaceAuth.IdentityRule | face_auth.py:186-196 | the identity becomes verified only when none was, the nearest label is within radius, and it starts with `<card>_`; the matched name is then that label |
| FaceAuth.BlinkRule | face_auth.py:207-225 | closed eyes add one to the blink counter; open eyes detect a blink exactly when the counter is at least 1, then reset it |
| FaceAuth.StepKeepsMatched | face_auth.py:186-225 | every step keeps the matched name a label for this card, and a newly detected blink comes with a verified identity |
| FaceAuth.RunVerifiedName | face_auth.py:271-273 | a success carries a known label that starts with `<card>_` |
| FaceAuth.StepCounter | face_auth.py:213-224 | a positive blink counter after a step comes from a closed-eye frame, and a newly detected blink from an open-eye frame after a positive counter |
| FaceAuth.RunNeedsBlink | face_auth.py:207-225 | a success needs a closed-eye frame followed later by an open-eye frame |
| FaceAuth.VerifiedMeansBlink | face_auth.py:271-273 | a success has a matched label for this card among the known ones, and an earlier closed-eye frame followed by an open-eye frame |
| FaceAuth.TimeoutWins | face_auth.py:154 | once the time bound has passed the result is `timeout`, whatever was verified before |
| Presence.NextSleepStart | app.py:204-210 | the sleep start is cleared exactly when the flag is on, and is kept once set while the flag stays off |
| Presence.StatusMonitor.constructor | app.py:188-193 | no state reported yet, no sleep start, counter zero |
| Presence.StatusMonitor.Observe | app.py:198-223 | the reported state is active while the flag is on or within 5 s of the sleep start; a status is sent exactly when the state changed or the counter reached 20, and the counter then restarts |
| Presence.ReplayQuiet | app.py:204-210 | over any run of passes, the sleep start is the time of the first pass of the current run with the flag off, and none while the flag is on |
| Presence.SleepRule | app.py:204-216 | the kiosk is reported asleep exactly when the flag has been off for more than 5 s since the first pass of the current quiet run |
| Presence.WakeResetsTimer | app.py:205-207 | a pass with the flag on clears the timer, so the next quiet run starts the grace period afresh |
| AdminAuth.AdminLogin.constructor | app.py:41-43 | no login pending, no page, no tokens |
| AdminAuth.AdminLogin.Request | app.py:376-381 | the next card read is an admin login for this page |
| AdminAuth.AdminLogin.Cancel | app.py:383-386 | the pending login is dropped; the tokens stay |
| AdminAuth.AdminLogin.Scan | app.py:238-253 | success exactly for an allow-listed card, which mints a token stamped now; the page is told only if one is recorded; the pending login ends either way |
| AdminAuth.AdminLogin.Dashboard | app.py:459-472 | a token is accepted exactly when it is non-empty, present and younger than 60 s, and is then deleted; the dashboard is shown for an accepted token or a logged-in session |
| AdminAuth.MintOnlyForAdmins | app.py:238-243 | a card outside the allow-list adds no token; an admin card's token is redeemable at once; the allow-list is the single card of app.py:39 |
| AdminAuth.SingleUse | app.py:462-466 | a redeemed token cannot be redeemed again |
| AdminAuth.TokenWindow | app.py:462-464 | a minted token is accepted exactly while less than 60 s old |
| AdminAuth.ExpiredKept | app.py:462-467 | an expired token is refused and stays in the table |
| AdminAuth.RedeemRemovesOne | app.py:466 | a redemption removes that token and no other |
| Daemon.LoopPass | app.py:195-255 | the sleep timer follows the grace rule, and the status counter restarts with the state recorded exactly when a status is sent, otherwise it counts one more pass; an asleep pass reads no card; an awake pass with no card, or card 0, does nothing; a card goes to the admin login exactly when one is pending, otherwise to `handle_scan`, whose reply, ledger, snapshot and interaction flag are those of `Attendance.ScanEffect`; the log file, the door signal and the admin page's socket never change, and each path changes only its own state |
| Daemon.CardUidDecimal | app.py:234-236 | the card text is the reader's number in decimal, with nothing for `strip` to remove |
| State.TotalDurationAppend | app.py:312-314 | closing one more break adds its length to the summed break time |
| State.Put | app.py:298-307 | assigning a key keeps the ledger well formed; a new card goes last and an existing card keeps its place |
| State.Pop | app.py:350 | popping a card removes exactly that card and keeps the ledger well formed |
| State.WithoutKeepsOrder | app.py:350 | popping a card keeps the other cards in their order: an absent card changes nothing, and a present one is cut out where it stands |
| Storage.SerializeScanEntry | storage.py:7-18 | the payload is a JSON object text |
| Storage.BreaksRoundTrip | storage.py:14-16 | the break list decodes back to the same intervals in order |
| Storage.BreakStartRoundTrip | storage.py:12-26 | a break start, or its absence, decodes back unchanged |
| Storage.SerializeRoundTrip | storage.py:7-32 | decoding an encoded session gives back its entry, name, flag, break start, total and breaks |
| Storage.EntryDefaults | storage.py:22-31 | a payload with only `entry` decodes with name "Unknown", not on break, no break start, total 0 and no breaks |
| Storage.ParseThree | storage.py:48-51 | a three-piece line restores the session decoded under the display piece's name under the middle piece's card |
| Storage.DisplayNameWins | storage.py:48-51 | decoding under the display name gives the payload's session renamed, and whether a payload decodes does not depend on the display name |
| Storage.NameIgnored | storage.py:48-51 | under a display name, a `name` field of any kind, `null` included, changes nothing |
| Storage.EntryOnlyAnyName | storage.py:22-31 | a payload with only `entry` and a `name` of any kind decodes under a display name with every other field at its default |
| Storage.ParseTwo | storage.py:53-56 | a two-piece legacy line restores the session with the payload's own name |
| Storage.ParseMany | storage.py:57-58 | a line of four or more pieces is skipped |
| Storage.SkippedLines | storage.py:43-64 | blank lines, lines not of two or three pieces, and lines whose payload does not decode (under the display name, for three pieces) are skipped and leave the sessions as they were |
| Storage.LastLineWins | storage.py:60 | a later line for the same card overwrites an earlier one |
| Storage.LaterResultsKeep | storage.py:60 | lines for other cards leave a restored session as it is |
| Storage.SnapshotLineRoundTrip | storage.py:45-71 | a written snapshot line reads back as the same card and session |
| Storage.LegacyLineRoundTrip | storage.py:53-56 | a legacy two-piece line of card and payload reads back as the same card and session |
| Storage.BarInNameSkipped | storage.py:45-58 | a name containing the piece separator makes its snapshot line split into four pieces, and it is skipped |
| Storage.SnapshotRoundTrip | storage.py:34-71 | loading the snapshot into an empty ledger rebuilds the same ledger, order included, when every name is non-empty, does not start with whitespace and holds no bar or line break, and no card holds a bar or line break |
| Storage.PayloadClean | storage.py:69-71 | a payload holds no bar and no line break, so it stays on its line |
| Storage.LoadActiveScans | storage.py:34-64 | a missing file leaves the sessions as they were; otherwise every line is applied in order |
| Storage.SaveActiveScansFile | storage.py:66-71 | the file becomes one line per session in ledger order; nothing else changes |
| Storage.WriteSnapshot | storage.py:67-71 | the text written line by line is the snapshot text |
| StorageLog.SaveToLog | storage.py:73-87 | the log grows by exactly this visit's block, and a missing log is created with it; nothing else changes |
| StorageLog.WriteHeader | storage.py:75-81 | the seven header lines are written in order |
| StorageLog.WriteTrailer | storage.py:82-87 | the break section and the closing empty line are written |
| StorageLog.WriteBreaks | storage.py:84-86 | one line per break, in order |
| StorageLog.BreaksSection | storage.py:82-87 | "Breaks:" appears only for a visit with breaks, followed by one line per break in order and then the empty line |
| StorageLog.LogTextSnoc | storage.py:74 | appending a block to a log of blocks gives the log of one more block |
| StorageLog.NetSumSnoc | storage.py:119-120 | one more block adds its net seconds to its person's sum only |
| StorageLog.ClassifyName | storage.py:107-108 | a written name line is read as that name |
| StorageLog.SecondsOfTotal | storage.py:113-118 | the number written on the net-time line is the number read back |
| StorageLog.CreditRule | storage.py:113-122 | a net-time line is added to the person of the latest name line, and ignored before any name line or when its number does not parse |
| StorageLog.ReadLinesOk | storage.py:104-110 | each name is listed once, exactly the names with a total |
| StorageLog.CheckAttendanceThreshold | storage.py:90-135 | the loop computes the report of the log, none when the log is missing |
| StorageLog.ReadBlock | storage.py:73-120 | reading a written block credits its net seconds to its name |
| StorageLog.ReadLog | storage.py:103-120 | reading a log of blocks credits every block in order |
| StorageLog.CreditsTotals | storage.py:107-120 | a person has a total exactly when they own a block, and it is the sum of their blocks' net seconds |
| StorageLog.ReportOfLog | storage.py:90-135 | the report over a log of blocks has a row for every person who owns a block and for no one else, one row per person; each row's total is the sum of that person's net seconds, and it is valid exactly when that sum reaches the threshold |
| StorageLog.ReportAfterAppend | storage.py:73-135 | after one more block, its person's row total is their earlier sum plus the block's net seconds |
| Json.LoadsDumps | storage.py:18-21 | `json.loads` of `json.dumps(v)` is `v` for every value the payload uses |
| Json.BmpEscape | storage.py:18-21 | a character up to U+FFFF outside printable ASCII is written as one `\uXXXX` escape and read back as itself |
| Json.AstralText | storage.py:18 | a character above U+FFFF is written as the escapes of the high and then the low surrogate of any pair that encodes it in UTF-16 |
| Json.PairEscapeRead | storage.py:18-21 | the escaped surrogate pair of a code point above U+FFFF is read back as that one character |
| Text.PlusSign | storage.py:27 | `float` reads a number with a leading plus sign as the number, and refuses a second sign |

## Left out

- Camera, face encodings, `face_distance`, `np.argmin` and the eye-aspect
  ratio: floating-point numerics in foreign libraries. Each processed
  frame is an observation `Sight`: no face, an analysis error, or a face
  with its nearest label index, a within-0.65 flag and a below-0.22 flag.
- Time: the clock of `verify_face_for_card` is the `elapsed` second
  stamped on each loop iteration. A list of iterations that runs out means
  the bound was reached. `time.sleep` calls are not modelled.
- Floats: durations, totals and net times are whole seconds, and
  `float(threshold_hours)` is a whole number of hours. Rounding and the
  two-decimal report formatting are not modelled.
- Dates: `datetime.isoformat`/`fromisoformat` are replaced by the integer
  text of a second count. An unparsable date in a payload is an undecodable
  payload, which is skipped like any other.
- JSON: `json.dumps`/`json.loads` are modelled for the values a payload
  uses: strings with their escapes, integers, booleans, null, arrays and
  objects. Floats and exponents are not modelled. Strings are written with
  ASCII escapes, as the default `ensure_ascii` does, and a character above
  U+FFFF as a surrogate pair, which the reader joins back. An escaped
  surrogate that is not part of such a pair is refused, while Python
  would keep it as a lone surrogate. A Dafny `char` cannot hold one.
- Concurrency: `state.lock`, `face_frame_lock`, `camera_lock`, the threads
  and the socket tasks. Each lock-held compound operation is one atomic
  method. `unlock_event` is a boolean that is set; the door sequence that
  consumes it is not modelled.
- Socket and console messages: a scan's outcome is the `Reply` it returns.
  An admin scan reports whether the page is told. Other emits and all
  prints are not modelled.
- `cloud_sync.log_attendance` is an external best-effort call whose
  failures are swallowed, so it is not modelled.
- Hardware (GPIO, ultrasonic ranging, servo), the video stream and overlay
  drawing, enrolment (`enroll_face_for_card`, `enroll_user_face`),
  `load_known_faces`, the Flask page routes other than the dashboard
  token check, and the password login and settings file: I/O and UI.
  `known` is the list of `KNOWN_NAMES`; `files` is the directory listing.
- The exception handler of `background_loop` is not modelled. The modelled
  operations raise only where the model has an explicit outcome: an
  unreadable card is "no card", an analysis error is `error`, and an
  undecodable line is skipped.
- Storage.ParseTwo: a legacy two-piece line whose payload holds a `name`
  that is not a string (a number, `null`, a list) is skipped, while Python
  restores the session with that value as its name. A session's name here
  is a string. Storage.SkippedLines states the same skip. Three-piece
  lines do not read the payload's `name`, so they are not affected.
- Storage.DeserializeScanEntry: refuses a non-string `name` for the same
  reason, so Storage.SerializeRoundTrip covers string names only, which is
  all the writer produces.
- Storage.DecodeFlag: a non-boolean `on_break` (`1`, `null`, `"x"`) is
  kept by its truth value only, so a rewritten snapshot writes `true` or
  `false` where Python writes the original value back. Every decision on
  the flag uses only its truth value, so the ledger is the same.
- `entry_rec.get("name", "User")` and the other `get` defaults of the
  handlers: every session the model builds or loads has all six fields, so
  the defaults cannot apply.
- Daemon.LoopPass: `handle_scan` uses its own clock (`scanTime`, seconds)
  and the loop uses `now` (milliseconds), one reading each per pass.
- Storage.SerializeScanEntry: its own contract states only that the result
  is a JSON object text; what it encodes is stated by
  Storage.SerializeRoundTrip.
- Storage.SnapshotRoundTrip: holds for names that are non-empty, do not
  start with whitespace and hold no `|` or line break, and for cards with
  no `|` or line break. A name with `" | "` is shown to be skipped (Storage.BarInNameSkipped). A name starting
  with whitespace loses it to the `strip` of the whole line. An empty name
  makes the line start with `" | "`, so after `strip` it splits into two
  pieces and is read as a legacy line whose card begins with `"| "`.
  Trailing whitespace in a name survives, since the pieces are not
  stripped.
- StorageLog.ReportOfLog: holds for blocks whose name is non-empty, has no
  line break and does not end in whitespace. Otherwise the reader's
  `strip` and line splitting change what is read back.
