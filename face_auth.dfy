/**
  `verify_face_for_card`: the liveness check a card holder passes before the
  door opens. The camera, the face encodings and the eye-aspect ratio are
  not modelled; what each loop iteration sees is given as an observation,
  and what remains is the counters and flags the loop keeps.
*/
module FaceAuth {
  import opened Wrappers
  import opened Text

  /** Blink frames needed before an open-eye frame counts as a blink. */
  const ConsecFrames: nat := 1
  /** Processed frames without a face before the identity is forgotten. */
  const MaxMisses: nat := 15
  /** Seconds the check may run. */
  const MaxVerificationTime: int := 45

  /** The second element of the `(False, reason)` results. */
  const NoKnownFaces: string := "no_known_faces"
  const CameraUnavailable: string := "camera_unavailable"
  const Failure: string := "error"
  const Timeout: string := "timeout"

  /** What the face analysis of one processed frame finds: no face, a face,
      or an exception from the analysis. For a face: `best` is the index of
      the nearest known encoding, `within` says that its distance is at most
      0.65, and `eyesClosed` that the average eye-aspect ratio is below 0.22. */
  datatype Sight = NoFace | Faulty | Face(best: nat, within: bool, eyesClosed: bool)

  /** One camera read: `cam.read()` failing, or a frame. */
  datatype Frame = Unreadable | Captured(sight: Sight)

  /** One pass of the `while` loop: the seconds since the start when the
      loop condition is tested, and the frame then read. */
  datatype Tick = Tick(elapsed: int, frame: Frame)

  /** `(True, matched_name)` or `(False, reason)`. */
  datatype Verdict = Verified(name: Option<string>) | Refused(reason: string)

  /** The loop's local variables. */
  datatype Verifier = Verifier(
    frameCount: nat,
    missCount: nat,
    identityVerified: bool,
    matchedName: Option<string>,
    blinkCounter: nat,
    blinkDetected: bool)

  function Initial(): Verifier {
    Verifier(0, 0, false, None, 0, false)
  }

  /** `np.argmin` always names one of the known encodings. */
  predicate InRange(known: seq<string>, ticks: seq<Tick>) {
    forall i :: 0 <= i < |ticks| && ticks[i].frame.Captured? && ticks[i].frame.sight.Face? ==>
      ticks[i].frame.sight.best < |known|
  }

  /** The identity check, made only while no identity is verified: the
      nearest known face must be close enough and be labelled for this card. */
  function Identify(known: seq<string>, card: string, v: Verifier, best: nat, within: bool): Verifier
    requires best < |known|
  {
    if v.identityVerified then v
    else if within && StartsWith(known[best], card + "_") then
      v.(identityVerified := true, matchedName := Some(known[best]))
    else v
  }

  /** The blink check, made only once the identity is verified. */
  function Blink(v: Verifier, eyesClosed: bool): Verifier {
    if eyesClosed then v.(blinkCounter := v.blinkCounter + 1)
    else v.(blinkDetected := v.blinkDetected || v.blinkCounter >= ConsecFrames, blinkCounter := 0)
  }

  /** What a processed frame does; `None` when the analysis raises. */
  function Look(known: seq<string>, card: string, v: Verifier, sight: Sight): Option<Verifier>
    requires sight.Face? ==> sight.best < |known|
  {
    match sight
    case Faulty => None
    case NoFace =>
      var misses := v.missCount + 1;
      if misses >= MaxMisses then Some(v.(missCount := misses, identityVerified := false, blinkCounter := 0))
      else Some(v.(missCount := misses))
    case Face(best, within, eyesClosed) =>
      var w := Identify(known, card, v.(missCount := 0), best, within);
      Some(if w.identityVerified then Blink(w, eyesClosed) else w)
  }

  /** One loop iteration after the time test: a failed read changes nothing,
      a frame is counted, and only every second frame is analysed. */
  function Step(known: seq<string>, card: string, v: Verifier, f: Frame): Option<Verifier>
    requires f.Captured? && f.sight.Face? ==> f.sight.best < |known|
  {
    match f
    case Unreadable => Some(v)
    case Captured(sight) =>
      var counted := v.(frameCount := v.frameCount + 1);
      if counted.frameCount % 2 == 0 then Look(known, card, counted, sight) else Some(counted)
  }

  /** The loop from state `v` over the remaining iterations. When the
      iterations run out the clock has passed the bound. */
  function Run(known: seq<string>, card: string, v: Verifier, ticks: seq<Tick>): Verdict
    requires InRange(known, ticks)
    decreases |ticks|
  {
    if ticks == [] || ticks[0].elapsed >= MaxVerificationTime then Refused(Timeout)
    else
      match Step(known, card, v, ticks[0].frame)
      case None => Refused(Failure)
      case Some(next) =>
        if next.blinkDetected then Verified(next.matchedName)
        else Run(known, card, next, ticks[1..])
  }

  /** The whole check: no known faces and an unopenable private camera are
      refused before the loop starts. */
  function VerifyFace(known: seq<string>, card: string, sharedCamera: bool, cameraOpens: bool,
                      ticks: seq<Tick>): (r: Verdict)
    requires InRange(known, ticks)
    ensures known == [] ==> r == Refused(NoKnownFaces)
  {
    if known == [] then Refused(NoKnownFaces)
    else if !sharedCamera && !cameraOpens then Refused(CameraUnavailable)
    else Run(known, card, Initial(), ticks)
  }

  /** `verify_face_for_card`, with its loop over the iterations. */
  method VerifyFaceForCard(known: seq<string>, card: string, sharedCamera: bool, cameraOpens: bool,
                           ticks: seq<Tick>) returns (verdict: Verdict)
    requires InRange(known, ticks)
    ensures verdict == VerifyFace(known, card, sharedCamera, cameraOpens, ticks)
  {
    if known == [] {
      return Refused(NoKnownFaces);
    }
    if !sharedCamera && !cameraOpens {
      return Refused(CameraUnavailable);
    }
    var blinkCounter: nat := 0;
    var blinkDetected := false;
    var identityVerified := false;
    var matchedName: Option<string> := None;
    var frameCount: nat := 0;
    var missCount: nat := 0;
    var i := 0;
    while i < |ticks| && ticks[i].elapsed < MaxVerificationTime
      invariant 0 <= i <= |ticks| && !blinkDetected
      invariant Run(known, card, Verifier(frameCount, missCount, identityVerified, matchedName,
                                           blinkCounter, blinkDetected), ticks[i..])
             == Run(known, card, Initial(), ticks)
      decreases |ticks| - i
    {
      assert ticks[i..][1..] == ticks[i + 1..];
      var frame := ticks[i].frame;
      i := i + 1;
      match frame {
        case Unreadable =>
        case Captured(sight) =>
          frameCount := frameCount + 1;
          if frameCount % 2 == 0 {
            match sight {
              case Faulty =>
                return Refused(Failure);
              case NoFace =>
                missCount := missCount + 1;
                if missCount >= MaxMisses {
                  identityVerified := false;
                  blinkCounter := 0;
                }
              case Face(best, within, eyesClosed) =>
                missCount := 0;
                if !identityVerified && within {
                  var name := known[best];
                  if StartsWith(name, card + "_") {
                    identityVerified := true;
                    matchedName := Some(name);
                  }
                }
                if identityVerified {
                  if eyesClosed {
                    blinkCounter := blinkCounter + 1;
                  } else {
                    if blinkCounter >= ConsecFrames {
                      blinkDetected := true;
                    }
                    blinkCounter := 0;
                  }
                }
            }
          }
      }
      if blinkDetected {
        return Verified(matchedName);
      }
    }
    return Refused(Timeout);
  }

  // ---------------------------------------------------------------------
  // Properties of one iteration
  // ---------------------------------------------------------------------

  /** A failed read does not count as a frame; of the frames read, only
      those that bring the count to an even number are analysed, and the
      others change nothing but the count. */
  lemma OnlyEvenFramesAnalysed(known: seq<string>, card: string, v: Verifier, f: Frame)
    requires f.Captured? && f.sight.Face? ==> f.sight.best < |known|
    ensures f.Unreadable? ==> Step(known, card, v, f) == Some(v)
    ensures f.Captured? && v.frameCount % 2 == 0 ==>
      Step(known, card, v, f) == Some(v.(frameCount := v.frameCount + 1))
    ensures f.Captured? && v.frameCount % 2 == 1 ==>
      Step(known, card, v, f) == Look(known, card, v.(frameCount := v.frameCount + 1), f.sight)
  {
  }

  /** An analysed frame with a face resets the miss count. */
  lemma FaceResetsMisses(known: seq<string>, card: string, v: Verifier, sight: Sight)
    requires sight.Face? && sight.best < |known|
    ensures Look(known, card, v, sight).Some? && Look(known, card, v, sight).value.missCount == 0
    ensures Look(known, card, v, sight).value.frameCount == v.frameCount
  {
  }

  /** An analysed frame without a face counts a miss; below fifteen misses
      nothing else changes, and at fifteen the identity and the blink count
      are dropped (the matched name and the blink flag stay). */
  lemma MissRule(known: seq<string>, card: string, v: Verifier)
    ensures var r := Look(known, card, v, NoFace);
      r.Some? && r.value.missCount == v.missCount + 1 &&
      r.value.frameCount == v.frameCount && r.value.matchedName == v.matchedName &&
      r.value.blinkDetected == v.blinkDetected &&
      (v.missCount + 1 < MaxMisses ==> r.value == v.(missCount := v.missCount + 1)) &&
      (v.missCount + 1 >= MaxMisses ==> !r.value.identityVerified && r.value.blinkCounter == 0)
  {
  }

  /** An identity is accepted only for a close match whose label starts
      with the card number and an underscore; an accepted identity is kept. */
  lemma IdentityRule(known: seq<string>, card: string, v: Verifier, best: nat, within: bool)
    requires best < |known|
    ensures var w := Identify(known, card, v, best, within);
      (w.identityVerified <==> v.identityVerified || (within && StartsWith(known[best], card + "_"))) &&
      (!v.identityVerified && w.identityVerified ==> w.matchedName == Some(known[best])) &&
      w.blinkCounter == v.blinkCounter && w.blinkDetected == v.blinkDetected
  {
  }

  /** A closed-eye frame adds to the blink count; an open-eye frame ends a
      blink when at least one closed-eye frame preceded it, and resets the count. */
  lemma BlinkRule(v: Verifier, eyesClosed: bool)
    ensures eyesClosed ==> Blink(v, eyesClosed) == v.(blinkCounter := v.blinkCounter + 1)
    ensures !eyesClosed ==>
      Blink(v, eyesClosed).blinkCounter == 0 &&
      (Blink(v, eyesClosed).blinkDetected <==> v.blinkDetected || v.blinkCounter >= 1)
    ensures Blink(v, eyesClosed).identityVerified == v.identityVerified
    ensures Blink(v, eyesClosed).matchedName == v.matchedName
  {
  }

  // ---------------------------------------------------------------------
  // What a success says
  // ---------------------------------------------------------------------

  /** A matched name is a known label for this card, and a verified
      identity has a matched name. */
  predicate Matched(known: seq<string>, card: string, v: Verifier) {
    (v.matchedName.Some? ==> v.matchedName.value in known && StartsWith(v.matchedName.value, card + "_")) &&
    (v.identityVerified ==> v.matchedName.Some?)
  }

  lemma StepKeepsMatched(known: seq<string>, card: string, v: Verifier, f: Frame)
    requires f.Captured? && f.sight.Face? ==> f.sight.best < |known|
    requires Matched(known, card, v)
    ensures Step(known, card, v, f).Some? ==> Matched(known, card, Step(known, card, v, f).value)
    ensures Step(known, card, v, f).Some? && Step(known, card, v, f).value.blinkDetected && !v.blinkDetected ==>
      Step(known, card, v, f).value.identityVerified
  {
  }

  /** A success names a known label that starts with the card number. */
  lemma {:induction false} RunVerifiedName(known: seq<string>, card: string, v: Verifier, ticks: seq<Tick>)
    requires InRange(known, ticks) && Matched(known, card, v) && !v.blinkDetected
    ensures Run(known, card, v, ticks).Verified? ==>
      var n := Run(known, card, v, ticks).name;
      n.Some? && n.value in known && StartsWith(n.value, card + "_")
    decreases |ticks|
  {
    if ticks != [] && ticks[0].elapsed < MaxVerificationTime {
      StepKeepsMatched(known, card, v, ticks[0].frame);
      var r := Step(known, card, v, ticks[0].frame);
      if r.Some? && !r.value.blinkDetected {
        RunVerifiedName(known, card, r.value, ticks[1..]);
      }
    }
  }

  predicate OpenEyes(f: Frame) {
    f.Captured? && f.sight.Face? && !f.sight.eyesClosed
  }

  predicate ClosedEyes(f: Frame) {
    f.Captured? && f.sight.Face? && f.sight.eyesClosed
  }

  /** The blink count grows only on a closed-eye frame. */
  lemma StepCounter(known: seq<string>, card: string, v: Verifier, f: Frame)
    requires f.Captured? && f.sight.Face? ==> f.sight.best < |known|
    ensures Step(known, card, v, f).Some? && Step(known, card, v, f).value.blinkCounter > 0 ==>
      v.blinkCounter > 0 || ClosedEyes(f)
    ensures Step(known, card, v, f).Some? && Step(known, card, v, f).value.blinkDetected && !v.blinkDetected ==>
      OpenEyes(f) && v.blinkCounter >= ConsecFrames
  {
  }

  /** Before a success the camera saw an open-eye face after a closed-eye
      one (or after the blink count the loop started with). */
  lemma {:induction false} RunNeedsBlink(known: seq<string>, card: string, v: Verifier, ticks: seq<Tick>)
    requires InRange(known, ticks) && !v.blinkDetected
    ensures Run(known, card, v, ticks).Verified? ==>
      exists j :: 0 <= j < |ticks| && OpenEyes(ticks[j].frame) &&
        (v.blinkCounter > 0 || exists i :: 0 <= i < j && ClosedEyes(ticks[i].frame))
    decreases |ticks|
  {
    if ticks != [] && ticks[0].elapsed < MaxVerificationTime {
      StepCounter(known, card, v, ticks[0].frame);
      var r := Step(known, card, v, ticks[0].frame);
      if r.Some? && !r.value.blinkDetected && Run(known, card, r.value, ticks[1..]).Verified? {
        var rest := ticks[1..];
        RunNeedsBlink(known, card, r.value, rest);
        var j :| 0 <= j < |rest| && OpenEyes(rest[j].frame) &&
          (r.value.blinkCounter > 0 || exists i :: 0 <= i < j && ClosedEyes(rest[i].frame));
        assert ticks[j + 1] == rest[j];
        if r.value.blinkCounter == 0 {
          var i :| 0 <= i < j && ClosedEyes(rest[i].frame);
          assert ticks[i + 1] == rest[i];
        } else if v.blinkCounter == 0 {
          assert ClosedEyes(ticks[0].frame);
        }
      }
    }
  }

  /** The check succeeds only for a known label of this card, and only
      after a blink: a closed-eye frame followed by an open-eye one. Past
      the time bound it is a timeout even with the identity verified. */
  lemma VerifiedMeansBlink(known: seq<string>, card: string, sharedCamera: bool, cameraOpens: bool,
                           ticks: seq<Tick>)
    requires InRange(known, ticks)
    ensures var r := VerifyFace(known, card, sharedCamera, cameraOpens, ticks);
      r.Verified? ==>
        r.name.Some? && r.name.value in known && StartsWith(r.name.value, card + "_") &&
        exists i, j :: 0 <= i < j < |ticks| && ClosedEyes(ticks[i].frame) && OpenEyes(ticks[j].frame)
  {
    if known != [] && (sharedCamera || cameraOpens) {
      RunVerifiedName(known, card, Initial(), ticks);
      RunNeedsBlink(known, card, Initial(), ticks);
    }
  }

  /** Once the clock has passed the bound the check times out, whatever
      the identity and blink state. */
  lemma TimeoutWins(known: seq<string>, card: string, v: Verifier, ticks: seq<Tick>)
    requires InRange(known, ticks) && ticks != [] && ticks[0].elapsed >= MaxVerificationTime
    ensures Run(known, card, v, ticks) == Refused(Timeout)
  {
  }
}
