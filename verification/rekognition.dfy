/** The analysis engine's wrapper around the face-detection service: whether
    the service client can be built, and how a detection response is reduced
    to a per-face summary. The service call itself is an input. */
module Rekognition {
  import opened Base

  const DefaultRegion: string := "us-west-2"
  const NotAvailable: string := "AWS Rekognition not available"
  const UnknownEmotion: string := "Unknown"

  /** The environment variables the analyzer reads; None when unset. */
  datatype Env = Env(accessKeyId: Option<string>, secretAccessKey: Option<string>, region: Option<string>)

  /** Python truthiness of an environment lookup: unset and empty are false. */
  predicate Truthy(v: Option<string>) {
    v.Some? && v.value != ""
  }

  /** `os.environ.get('AWS_REGION', 'us-west-2')`: the default applies only
      when the variable is unset. */
  function RegionOf(env: Env): (r: string)
    ensures env.region.None? ==> r == DefaultRegion
    ensures env.region.Some? ==> r == env.region.value
  {
    env.region.GetOr(DefaultRegion)
  }

  /** Coordinates of a face, carried through unchanged. */
  datatype BoundingBox = BoundingBox(width: real, height: real, left: real, top: real)

  /** A `Smile` or `Beard` entry of a detection: each key may be missing. */
  datatype Attribute = Attribute(value: Option<bool>, confidence: Option<real>)

  /** An `Emotions` entry; `kind` is its `Type` key. */
  datatype Emotion = Emotion(kind: Option<string>, confidence: Option<real>)

  /** One element of `FaceDetails`; every key may be missing. */
  datatype FaceDetail = FaceDetail(
    confidence: Option<real>,
    boundingBox: Option<BoundingBox>,
    smile: Option<Attribute>,
    beard: Option<Attribute>,
    emotions: Option<seq<Emotion>>)

  datatype DetectResponse = DetectResponse(faceDetails: Option<seq<FaceDetail>>)

  /** What decoding the image and calling `detect_faces` did: returned a
      response, or raised an exception with the given `str(e)`. */
  datatype DetectOutcome = Returned(response: DetectResponse) | Raised(message: string)

  /** One entry of the `faces` list the engine reports. `primaryEmotion` is
      None when the first emotion has no `Type`. */
  datatype FaceSummary = FaceSummary(
    confidence: real,
    smiling: bool,
    smileConfidence: real,
    hasBeard: bool,
    primaryEmotion: Option<string>,
    boundingBox: BoundingBox)

  /** The dictionary `analyze_face` returns: `{'available': False, 'error': …}`
      or `{'available': True, 'face_count': …, 'faces': …}`. */
  datatype Report = Failure(error: string) | Analysis(faceCount: nat, faces: seq<FaceSummary>)

  /** `str(KeyError(key))`: the key in single quotes. */
  function KeyErrorText(key: string): string {
    "'" + key + "'"
  }

  /** The face has both keys that the summary indexes without a default. */
  predicate Complete(face: FaceDetail) {
    face.confidence.Some? && face.boundingBox.Some?
  }

  /** The summary dictionary built for one face. Its entries are evaluated in
      order, so a face missing both `Confidence` and `BoundingBox` reports the
      `Confidence` key. */
  function Summarize(face: FaceDetail): (r: Result<FaceSummary, string>)
    ensures r.Err? <==> face.confidence.None? || face.boundingBox.None?
    ensures face.confidence.None? ==> r == Err(KeyErrorText("Confidence"))
    ensures face.confidence.Some? && face.boundingBox.None? ==> r == Err(KeyErrorText("BoundingBox"))
    ensures r.Ok? ==>
      && r.value.confidence == face.confidence.value
      && r.value.boundingBox == face.boundingBox.value
      && (face.smile.None? ==> !r.value.smiling && r.value.smileConfidence == 0.0)
      && (face.smile.Some? ==>
            && r.value.smiling == face.smile.value.value.GetOr(false)
            && r.value.smileConfidence == face.smile.value.confidence.GetOr(0.0))
      && (face.beard.None? ==> !r.value.hasBeard)
      && (face.beard.Some? ==> r.value.hasBeard == face.beard.value.value.GetOr(false))
      && (face.emotions.None? || face.emotions.value == [] ==> r.value.primaryEmotion == Some(UnknownEmotion))
      && (face.emotions.Some? && face.emotions.value != [] ==> r.value.primaryEmotion == face.emotions.value[0].kind)
  {
    if face.confidence.None? then Err(KeyErrorText("Confidence"))
    else
      var smile := face.smile.GetOr(Attribute(None, None));
      var beard := face.beard.GetOr(Attribute(None, None));
      var emotions := face.emotions.GetOr([]);
      if face.boundingBox.None? then Err(KeyErrorText("BoundingBox"))
      else Ok(FaceSummary(
        face.confidence.value,
        smile.value.GetOr(false),
        smile.confidence.GetOr(0.0),
        beard.value.GetOr(false),
        if emotions != [] then emotions[0].kind else Some(UnknownEmotion),
        face.boundingBox.value))
  }

  /** The loop over `FaceDetails`: one summary per face in the same order, or
      the error of the first face whose summary raises. */
  function SummarizeAll(faces: seq<FaceDetail>): (r: Result<seq<FaceSummary>, string>)
    ensures r.Ok? ==> |r.value| == |faces|
    ensures r.Ok? ==> forall i :: 0 <= i < |faces| ==> Summarize(faces[i]) == Ok(r.value[i])
    ensures r.Err? ==> exists i :: 0 <= i < |faces| && Summarize(faces[i]) == Err(r.error)
                                   && forall k :: 0 <= k < i ==> Summarize(faces[k]).Ok?
    ensures r.Ok? <==> forall i :: 0 <= i < |faces| ==> Summarize(faces[i]).Ok?
  {
    if faces == [] then Ok([])
    else
      match Summarize(faces[0])
      case Err(e) => Err(e)
      case Ok(s) =>
        match SummarizeAll(faces[1..])
        case Err(e) =>
          ghost var i :| 0 <= i < |faces[1..]| && Summarize(faces[1..][i]) == Err(e)
                         && forall k :: 0 <= k < i ==> Summarize(faces[1..][k]).Ok?;
          assert Summarize(faces[i + 1]) == Err(e);
          Err(e)
        case Ok(rest) =>
          assert forall i :: 1 <= i < |faces| ==> faces[i] == faces[1..][i - 1];
          Ok([s] + rest)
  }

  /** The report `analyze_face` builds from a detection outcome once the
      availability guard has passed. */
  function ReportOf(detect: DetectOutcome): (r: Report)
    ensures detect.Raised? ==> r == Failure(detect.message)
    ensures detect.Returned? && detect.response.faceDetails.None? ==> r == Failure(KeyErrorText("FaceDetails"))
    ensures r.Analysis? ==>
      && detect.Returned? && detect.response.faceDetails.Some?
      && r.faceCount == |r.faces| == |detect.response.faceDetails.value|
      && forall i :: 0 <= i < |r.faces| ==> Summarize(detect.response.faceDetails.value[i]) == Ok(r.faces[i])
    ensures detect.Returned? && detect.response.faceDetails.Some? ==>
      var faces := detect.response.faceDetails.value;
      && (r.Analysis? <==> forall i :: 0 <= i < |faces| ==> Summarize(faces[i]).Ok?)
      && (r.Failure? ==> exists i :: 0 <= i < |faces| && Summarize(faces[i]) == Err(r.error)
                                     && forall k :: 0 <= k < i ==> Summarize(faces[k]).Ok?)
  {
    match detect
    case Raised(m) => Failure(m)
    case Returned(response) =>
      match response.faceDetails
      case None => Failure(KeyErrorText("FaceDetails"))
      case Some(faces) =>
        match SummarizeAll(faces)
        case Err(e) => Failure(e)
        case Ok(summaries) => Analysis(|faces|, summaries)
  }

  /** A face missing `Confidence` or `BoundingBox` turns the whole report into
      an error, whatever the other faces hold; when it is the first such face,
      the error is the `KeyError` text of the key it lacks. */
  lemma {:induction false} IncompleteFaceFailsReport(response: DetectResponse, i: nat)
    requires response.faceDetails.Some? && i < |response.faceDetails.value|
    requires response.faceDetails.value[i].confidence.None? || response.faceDetails.value[i].boundingBox.None?
    ensures ReportOf(Returned(response)).Failure?
    ensures (forall k :: 0 <= k < i ==> Complete(response.faceDetails.value[k])) ==>
      ReportOf(Returned(response)).error ==
        KeyErrorText(if response.faceDetails.value[i].confidence.None? then "Confidence" else "BoundingBox")
  {
    var faces := response.faceDetails.value;
    assert Summarize(faces[i]).Err?;
    if forall k :: 0 <= k < i ==> Complete(faces[k]) {
      var r := ReportOf(Returned(response));
      var j :| 0 <= j < |faces| && Summarize(faces[j]) == Err(r.error)
               && forall k :: 0 <= k < j ==> Summarize(faces[k]).Ok?;
      assert j == i;
    }
  }

  /** The engine's analyzer. `hasClient` stands for `rekognition_client` not
      being None. */
  class RekognitionAnalyzer {
    var hasClient: bool
    var isAvailable: bool
    var clientRegion: Option<string>   // the region the client was built for

    ghost predicate Valid()
      reads this
    {
      && (isAvailable ==> hasClient)
      && (hasClient <==> clientRegion.Some?)
    }

    /** `__init__`: the client is built only when both credentials are set,
        and the analyzer is available only when building it did not raise
        (`clientFails`). */
    constructor (env: Env, clientFails: bool)
      ensures Valid()
      ensures isAvailable <==> Truthy(env.accessKeyId) && Truthy(env.secretAccessKey) && !clientFails
      ensures hasClient == isAvailable
      ensures isAvailable ==> clientRegion == Some(RegionOf(env))
    {
      hasClient, isAvailable, clientRegion := false, false, None;
      if Truthy(env.accessKeyId) && Truthy(env.secretAccessKey) {
        if !clientFails {
          hasClient, clientRegion := true, Some(RegionOf(env));
          isAvailable := true;
        }
      }
    }

    /** `analyze_face`. `detect` is what the service call does when it is
        made; `echoed` is the response that the method prints to stdout
        before building the report (None when no response was obtained). The
        summaries are appended one face at a time. */
    method AnalyzeFace(detect: DetectOutcome) returns (report: Report, echoed: Option<DetectResponse>)
      requires Valid()
      ensures !isAvailable ==> report == Failure(NotAvailable) && echoed.None?
      ensures isAvailable ==> report == ReportOf(detect)
      ensures echoed.Some? <==> isAvailable && detect.Returned?
      ensures echoed.Some? ==> echoed.value == detect.response
    {
      if !isAvailable || !hasClient {
        return Failure(NotAvailable), None;
      }
      match detect
      case Raised(m) =>
        return Failure(m), None;
      case Returned(response) =>
        echoed := Some(response);
        if response.faceDetails.None? {
          return Failure(KeyErrorText("FaceDetails")), echoed;
        }
        var faces := response.faceDetails.value;
        var summaries: seq<FaceSummary> := [];
        var i := 0;
        while i < |faces|
          invariant 0 <= i <= |faces| && |summaries| == i
          invariant forall k :: 0 <= k < i ==> Summarize(faces[k]) == Ok(summaries[k])
        {
          var summary := Summarize(faces[i]);
          if summary.Err? {
            assert SummarizeAll(faces).Err?;
            return Failure(summary.error), echoed;
          }
          summaries := summaries + [summary.value];
          i := i + 1;
        }
        report := Analysis(|faces|, summaries);
    }
  }
}
