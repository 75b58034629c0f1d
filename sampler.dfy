/** The frame sampler: what one captured frame contributes to a detection, that is,
    whether someone is present and, when present, the emotion and its confidence.
    The camera, the cascade face detector, the drawing and the JPEG encoding are outside
    the model: their outcomes are inputs. The simulated samplers (the demo generator and
    the mock detector of the simple server) draw their values from parameters in [0, 1). */
module Sampler {
  import opened Wrappers
  import opened Ordering

  /** A face box as the cascade reports it: corner, width and height. */
  datatype Rect = Rect(x: int, y: int, w: int, h: int)

  function Area(f: Rect): real {
    (f.w * f.h) as real
  }

  /** What a sample says: `(is_present, emotion, confidence)`. */
  datatype Observation = Observation(isPresent: bool, emotion: Option<string>,
                                     confidence: Option<real>)

  /** `(False, None, None)`. */
  const Absent: Observation := Observation(false, None, None)

  /** Emotion and confidence are given exactly when someone is present. */
  predicate WellFormed(o: Observation) {
    (o.emotion.Some? <==> o.isPresent) && (o.confidence.Some? <==> o.isPresent)
  }

  /** The face the sampler analyses: `max(faces, key=w * h)`, so the first of the largest. */
  function LargestFace(faces: seq<Rect>): (f: Rect)
    requires |faces| > 0
    ensures f in faces
    ensures forall g :: g in faces ==> Area(g) <= Area(f)
    ensures exists i :: 0 <= i < |faces| && faces[i] == f
                        && forall j :: 0 <= j < i ==> Area(faces[j]) < Area(f)
  {
    faces[ArgMax(faces, Area)]
  }

  /** What the cascade gave for the frame. */
  datatype Scan =
    | ScanRaised              // the grey conversion or the cascade raised
    | Faces(faces: seq<Rect>) // the boxes found, possibly none

  /** `detect_face_and_emotion`. `emotionOf` is the emotion detector's answer for the crop
      of a face, `None` when analysing or annotating that face raised. */
  function DetectFaceAndEmotion(cvAvailable: bool, scan: Scan,
                                emotionOf: Rect -> Option<(string, real)>): (o: Observation)
    ensures WellFormed(o)
    ensures o.isPresent <==>
              cvAvailable && scan.Faces? && |scan.faces| > 0
              && emotionOf(LargestFace(scan.faces)).Some?
    ensures o.isPresent ==>
              var e := emotionOf(LargestFace(scan.faces)).value;
              o.emotion == Some(e.0) && o.confidence == Some(e.1)
  {
    if !cvAvailable then Absent
    else match scan
      case ScanRaised => Absent
      case Faces(faces) =>
        if |faces| == 0 then Absent
        else match emotionOf(LargestFace(faces))
          case None => Absent
          case Some(e) => Observation(true, Some(e.0), Some(e.1))
  }

  /** The result of `get_frame`: whether frame bytes came back, and the observation. */
  datatype FrameResult = FrameResult(hasFrame: bool, observation: Observation)

  /** `(None, False, None, None)`. */
  const NoFrame: FrameResult := FrameResult(false, Absent)

  /** What the camera did for one `get_frame` call. */
  datatype Camera =
    | Unavailable                        // no camera could be opened
    | ReadFailed                         // `read` reported no frame
    | Captured(scan: Scan, encoded: bool) // a frame, what the cascade found, whether encoding succeeded

  /** The draws of a simulated sample: the presence coin, the index `random.choice` picks
      and the `random.uniform(70, 95)` level. */
  datatype SimDraws = SimDraws(presence: real, pick: nat, level: real)

  predicate ValidSimDraws(d: SimDraws, labels: seq<string>) {
    0.0 <= d.presence < 1.0 && d.pick < |labels| && 0.0 <= d.level < 1.0
  }

  /** The simulated sample both generators compute: present with a 70 % chance, then a
      random label and a confidence `random.uniform(70, 95)`; nothing otherwise. */
  function Simulate(labels: seq<string>, d: SimDraws): (o: Observation)
    requires ValidSimDraws(d, labels)
    ensures WellFormed(o)
    ensures o.isPresent <==> d.presence > 0.3
    ensures o.isPresent ==> o.emotion.value in labels && 70.0 <= o.confidence.value <= 95.0
  {
    if d.presence > 0.3 then
      assert 0.0 <= 25.0 * d.level <= 25.0;
      Observation(true, Some(labels[d.pick]), Some(70.0 + 25.0 * d.level))
    else Absent
  }

  /** The demo generator's labels. */
  const DemoLabels: seq<string> := ["happy", "sad", "neutral", "angry", "surprise", "fear", "disgust"]

  /** The mock detector's labels. */
  const MockLabels: seq<string> := ["happy", "neutral", "sad", "surprise"]

  /** `_get_demo_frame` as written. The simulated values are drawn, but building the demo
      picture calls the image libraries, and this generator only runs when importing them
      failed, so their names are unbound there; the bare handler turns the error into the
      failure tuple. */
  function DemoFrame(d: SimDraws): FrameResult {
    NoFrame
  }

  /** `_get_demo_frame` as intended: a picture and the simulated observation. */
  function DemoFrameIntended(d: SimDraws): (r: FrameResult)
    requires ValidSimDraws(d, DemoLabels)
    ensures r.hasFrame && WellFormed(r.observation)
    ensures r.observation.isPresent <==> d.presence > 0.3
    ensures r.observation.isPresent ==>
              r.observation.emotion.value in DemoLabels
              && 70.0 <= r.observation.confidence.value <= 95.0
  {
    FrameResult(true, Simulate(DemoLabels, d))
  }

  /** The rest of `get_frame`, once the vision libraries are known to be loaded. */
  function CameraFrame(camera: Camera, emotionOf: Rect -> Option<(string, real)>): FrameResult {
    match camera
    case Unavailable => NoFrame
    case ReadFailed => NoFrame
    case Captured(scan, encoded) =>
      var o := DetectFaceAndEmotion(true, scan, emotionOf);
      if encoded then FrameResult(true, o) else NoFrame
  }

  /** `get_frame` as written: without the vision libraries it falls to the demo generator,
      which always fails. */
  function GetFrameAsWritten(cvAvailable: bool, camera: Camera,
                             emotionOf: Rect -> Option<(string, real)>, d: SimDraws)
    : (r: FrameResult)
    ensures WellFormed(r.observation)
    ensures !cvAvailable ==> r == NoFrame
  {
    if !cvAvailable then DemoFrame(d) else CameraFrame(camera, emotionOf)
  }

  /** `get_frame`, with the demo generator as intended. */
  function GetFrame(cvAvailable: bool, camera: Camera, emotionOf: Rect -> Option<(string, real)>,
                    d: SimDraws): (r: FrameResult)
    requires ValidSimDraws(d, DemoLabels)
    ensures WellFormed(r.observation)
    ensures r.observation.isPresent ==> r.hasFrame
    ensures !cvAvailable ==> r.hasFrame && (r.observation.isPresent <==> d.presence > 0.3)
  {
    if !cvAvailable then DemoFrameIntended(d) else CameraFrame(camera, emotionOf)
  }

  /** Every failure of `get_frame` (no camera, no frame read, a failed encoding) yields no
      frame and nobody present; a captured, encoded frame reports the face detector's
      observation unchanged. The demo generator plays no part here, so the code as written
      behaves the same. */
  lemma GetFrameOutcomes(camera: Camera, emotionOf: Rect -> Option<(string, real)>, d: SimDraws)
    requires ValidSimDraws(d, DemoLabels)
    ensures var r := GetFrame(true, camera, emotionOf, d);
      && r == GetFrameAsWritten(true, camera, emotionOf, d)
      && (!(camera.Captured? && camera.encoded) ==> r == NoFrame)
      && (camera.Captured? && camera.encoded ==>
            r == FrameResult(true, DetectFaceAndEmotion(true, camera.scan, emotionOf)))
  {
  }

  /** Without the vision libraries `get_frame` as written never reports anyone present,
      whatever the draws, while the intended one reports presence for every presence draw
      above 0.3. */
  lemma DemoModeNeverReportsPresence(camera: Camera, emotionOf: Rect -> Option<(string, real)>,
                                     d: SimDraws)
    requires ValidSimDraws(d, DemoLabels) && d.presence > 0.3
    ensures !GetFrameAsWritten(false, camera, emotionOf, d).observation.isPresent
    ensures GetFrame(false, camera, emotionOf, d).observation.isPresent
  {
  }

  /** `MockEmotionDetector.get_detection`. */
  function MockDetection(d: SimDraws): (o: Observation)
    requires ValidSimDraws(d, MockLabels)
    ensures WellFormed(o)
    ensures o.isPresent <==> d.presence > 0.3
    ensures o.isPresent ==> o.emotion.value in MockLabels && 70.0 <= o.confidence.value <= 95.0
  {
    Simulate(MockLabels, d)
  }
}
