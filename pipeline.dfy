/** logic/pipeline.py: drawing the detections, and `run_pipeline`, the
    request flow detect -> extract keywords -> remote match -> crop -> caption
    with its early error exits.

    Every collaborator (image decoding, the detector, painting and JPEG/base64
    encoding, the remote match service, cropping, the captioner) is a field of
    `Collaborators`; one that can raise returns an `Option`, `None` standing for
    the exception. */
module Pipeline {
  import opened Wrappers
  import opened Text
  import opened Detections
  import SemanticMatcher

  newtype byte = x: int | 0 <= x < 256

  // ---------------------------------------------------------------------------
  // _draw_detections
  // ---------------------------------------------------------------------------

  /** The two PIL colour names the annotator uses, "blue" and "green". */
  datatype Color = Blue | Green

  /** `ImageFont.truetype("arial.ttf", 20)`, or `ImageFont.load_default()` when that raises. */
  datatype Font = Arial20 | DefaultFont

  /** One call on the `ImageDraw` object. */
  datatype DrawOp =
    | DrawRectangle(box: Box, outline: Color, width: nat)
    | DrawText(x: real, y: real, text: string, fill: Color, font: Font)

  function ColorFor(name: string): Color {
    if name == "car" then Blue else Green
  }

  function FontFor(arialAvailable: bool): Font {
    if arialAvailable then Arial20 else DefaultFont
  }

  /** The two calls drawn for one detection: its box, then its label 25 pixels above the box. */
  function OpsFor(det: Detection, font: Font): seq<DrawOp> {
    var color := ColorFor(det.name);
    [DrawRectangle(det.box, color, 3), DrawText(det.box.x1, det.box.y1 - 25.0, det.name, color, font)]
  }

  /** The drawing calls for a list of detections, in list order. */
  function DrawOps(dets: seq<Detection>, font: Font): (ops: seq<DrawOp>)
    ensures |ops| == 2 * |dets|
  {
    if dets == [] then [] else DrawOps(dets[..|dets| - 1], font) + OpsFor(dets[|dets| - 1], font)
  }

  /** What is drawn for the `i`-th detection: a width-3 rectangle on its box,
      then its label at `(x1, y1 - 25)`, both blue exactly when the label is
      "car" and green otherwise. */
  lemma {:induction false} DrawOpsAt(dets: seq<Detection>, font: Font, i: nat)
    requires i < |dets|
    ensures var color := if dets[i].name == "car" then Blue else Green;
            && DrawOps(dets, font)[2 * i] == DrawRectangle(dets[i].box, color, 3)
            && DrawOps(dets, font)[2 * i + 1] == DrawText(dets[i].box.x1, dets[i].box.y1 - 25.0, dets[i].name, color, font)
  {
    var n := |dets| - 1;
    if i < n {
      DrawOpsAt(dets[..n], font, i);
      assert dets[..n][i] == dets[i];
    }
  }

  /** An image as the sequence of drawing calls made on it. */
  class Canvas {
    var ops: seq<DrawOp>

    constructor ()
      ensures ops == []
    {
      ops := [];
    }

    /** `draw.rectangle(box, outline=color, width=width)`. */
    method Rectangle(box: Box, outline: Color, width: nat)
      modifies this
      ensures ops == old(ops) + [DrawRectangle(box, outline, width)]
    {
      ops := ops + [DrawRectangle(box, outline, width)];
    }

    /** `draw.text((x, y), text, fill=color, font=font)`. */
    method WriteText(x: real, y: real, text: string, fill: Color, font: Font)
      modifies this
      ensures ops == old(ops) + [DrawText(x, y, text, fill, font)]
    {
      ops := ops + [DrawText(x, y, text, fill, font)];
    }
  }

  /** `_draw_detections(image, detections)`: draws on `image` in place and returns it. */
  method DrawDetections(image: Canvas, dets: seq<Detection>, arialAvailable: bool) returns (r: Canvas)
    modifies image
    ensures r == image
    ensures image.ops == old(image.ops) + DrawOps(dets, FontFor(arialAvailable))
  {
    var font := FontFor(arialAvailable);
    for k := 0 to |dets|
      invariant image.ops == old(image.ops) + DrawOps(dets[..k], font)
    {
      var det := dets[k];
      var color := ColorFor(det.name);
      image.Rectangle(det.box, color, 3);
      image.WriteText(det.box.x1, det.box.y1 - 25.0, det.name, color, font);
      assert dets[..k + 1][..k] == dets[..k];
    }
    assert dets[..|dets|] == dets;
    r := image;
  }

  // ---------------------------------------------------------------------------
  // run_pipeline
  // ---------------------------------------------------------------------------

  /** What `response.json()` of the match service gives. */
  datatype MatchBody =
    | Unparseable                                   // `response.json()` raises
    | Falsy                                         // null, false, 0, "", [] or {}
    | Entry(box: Option<Box>, name: Option<string>)  // any other value: its "box" and "label", None when missing

  /** The outcome of `requests.post` to the match service. */
  datatype MatchCall = Raised | Responded(status: nat, body: MatchBody)

  datatype Collaborators<!Img> = Collaborators(
    decode: seq<byte> -> Option<Img>,                      // Image.open(...).convert("RGB")
    detect: Img -> seq<Detection>,                         // models.detector.detect_objects
    arialAvailable: bool,                                  // whether arial.ttf loads
    paint: (Img, seq<DrawOp>) -> Img,                      // the drawing calls applied to image.copy()
    encode: Img -> string,                                 // JPEG save, then base64
    matchService: (seq<string>, seq<Detection>) -> MatchCall,
    crop: (Img, Box) -> Option<Img>,                       // image.crop(box)
    caption: Img -> Option<string>)                        // models.captioner.generate

  const NoObjectsMessage := "No objects were detected in the image."
  const MatchFailedPrefix := "Match API failed: "
  const NoMatchMessage := "Could not find a confident match for the prompt."
  const InternalMessage := "An internal error occurred during processing."

  const SuccessKeys: set<string> := {"matched_object", "caption", "annotated_image_base64", "cropped_image_base64"}

  function ErrorResult(message: string): map<string, string> {
    map["error" := message]
  }

  /** The messages `run_pipeline` can put under "error". */
  predicate IsPipelineError(message: string) {
    || message == NoObjectsMessage
    || message == NoMatchMessage
    || message == InternalMessage
    || (|message| > |MatchFailedPrefix| && message[..|MatchFailedPrefix|] == MatchFailedPrefix &&
        forall i :: |MatchFailedPrefix| <= i < |message| ==> IsDigit(message[i]))
  }

  /** `run_pipeline(image_bytes, text_prompt, vehicle_parts_vocab)`. The vocabulary
      set is given in its iteration order. */
  function RunPipeline<Img>(imageBytes: seq<byte>, prompt: string, vocab: seq<string>, c: Collaborators<Img>)
    : (r: map<string, string>)
    ensures "error" in r ==> r.Keys == {"error"} && IsPipelineError(r["error"])
    ensures "error" !in r ==> r.Keys == SuccessKeys
  {
    match c.decode(imageBytes)
    case None => ErrorResult(InternalMessage)
    case Some(image) =>
      var dets := c.detect(image);
      if |dets| == 0 then ErrorResult(NoObjectsMessage)
      else
        var annotated := c.encode(c.paint(image, DrawOps(dets, FontFor(c.arialAvailable))));
        var keywords := SemanticMatcher.ExtractKeywords(prompt, vocab);
        match c.matchService(keywords, dets)
        case Raised => ErrorResult(InternalMessage)
        case Responded(status, body) =>
          if status != 200 then ErrorResult(MatchFailedPrefix + NatToString(status))
          else
            match body
            case Unparseable => ErrorResult(InternalMessage)
            case Falsy => ErrorResult(NoMatchMessage)
            case Entry(box, name) =>
              if box.None? then ErrorResult(InternalMessage)
              else
                match c.crop(image, box.value)
                case None => ErrorResult(InternalMessage)
                case Some(cropped) =>
                  match c.caption(cropped)
                  case None => ErrorResult(InternalMessage)
                  case Some(caption) =>
                    if name.None? then ErrorResult(InternalMessage)
                    else
                      map[
                        "matched_object" := name.value,
                        "caption" := caption,
                        "annotated_image_base64" := annotated,
                        "cropped_image_base64" := c.encode(cropped)]
  }

  /** Bytes that do not decode give the internal error, whatever the other
      collaborators would have done. */
  lemma DecodeFailure<Img>(imageBytes: seq<byte>, prompt: string, vocab: seq<string>, c: Collaborators<Img>,
                           detect: Img -> seq<Detection>, matchService: (seq<string>, seq<Detection>) -> MatchCall,
                           caption: Img -> Option<string>)
    requires c.decode(imageBytes) == None
    ensures RunPipeline(imageBytes, prompt, vocab, c) == ErrorResult(InternalMessage)
    ensures RunPipeline(imageBytes, prompt, vocab, c.(detect := detect, matchService := matchService, caption := caption))
         == RunPipeline(imageBytes, prompt, vocab, c)
  {
  }

  /** No detections: exactly the "no objects" error, and neither the match
      service, the crop nor the captioner affects the result. */
  lemma NoObjects<Img>(imageBytes: seq<byte>, prompt: string, vocab: seq<string>, c: Collaborators<Img>,
                       matchService: (seq<string>, seq<Detection>) -> MatchCall,
                       crop: (Img, Box) -> Option<Img>, caption: Img -> Option<string>)
    requires c.decode(imageBytes).Some? && c.detect(c.decode(imageBytes).value) == []
    ensures RunPipeline(imageBytes, prompt, vocab, c) == map["error" := "No objects were detected in the image."]
    ensures RunPipeline(imageBytes, prompt, vocab, c.(matchService := matchService, crop := crop, caption := caption))
         == RunPipeline(imageBytes, prompt, vocab, c)
  {
  }

  /** A status other than 200: exactly "Match API failed: <status>", and
      neither the crop nor the captioner affects the result. */
  lemma MatchServiceFailed<Img>(imageBytes: seq<byte>, prompt: string, vocab: seq<string>, c: Collaborators<Img>,
                                status: nat, body: MatchBody,
                                crop: (Img, Box) -> Option<Img>, caption: Img -> Option<string>)
    requires c.decode(imageBytes).Some?
    requires |c.detect(c.decode(imageBytes).value)| > 0
    requires c.matchService(SemanticMatcher.ExtractKeywords(prompt, vocab), c.detect(c.decode(imageBytes).value)) == Responded(status, body)
    requires status != 200
    ensures RunPipeline(imageBytes, prompt, vocab, c) == map["error" := "Match API failed: " + NatToString(status)]
    ensures RunPipeline(imageBytes, prompt, vocab, c.(crop := crop, caption := caption))
         == RunPipeline(imageBytes, prompt, vocab, c)
  {
  }

  /** A falsy match body: exactly the "no confident match" error, and neither
      the crop nor the captioner affects the result. */
  lemma NoConfidentMatch<Img>(imageBytes: seq<byte>, prompt: string, vocab: seq<string>, c: Collaborators<Img>,
                              crop: (Img, Box) -> Option<Img>, caption: Img -> Option<string>)
    requires c.decode(imageBytes).Some?
    requires |c.detect(c.decode(imageBytes).value)| > 0
    requires c.matchService(SemanticMatcher.ExtractKeywords(prompt, vocab), c.detect(c.decode(imageBytes).value)) == Responded(200, Falsy)
    ensures RunPipeline(imageBytes, prompt, vocab, c) == map["error" := "Could not find a confident match for the prompt."]
    ensures RunPipeline(imageBytes, prompt, vocab, c.(crop := crop, caption := caption))
         == RunPipeline(imageBytes, prompt, vocab, c)
  {
  }

  /** A service call that raises, a body that is not JSON, and a body without
      a usable "box" or "label" all end in the internal error. */
  lemma UnusableMatchResponse<Img>(imageBytes: seq<byte>, prompt: string, vocab: seq<string>, c: Collaborators<Img>)
    requires c.decode(imageBytes).Some?
    requires |c.detect(c.decode(imageBytes).value)| > 0
    requires var call := c.matchService(SemanticMatcher.ExtractKeywords(prompt, vocab), c.detect(c.decode(imageBytes).value));
             || call == Raised
             || call == Responded(200, Unparseable)
             || (call.Responded? && call.status == 200 && call.body.Entry? && (call.body.box.None? || call.body.name.None?))
    ensures RunPipeline(imageBytes, prompt, vocab, c) == map["error" := "An internal error occurred during processing."]
  {
  }

  /** A crop or a caption that raises ends in the internal error. */
  lemma CropOrCaptionFailure<Img>(imageBytes: seq<byte>, prompt: string, vocab: seq<string>, c: Collaborators<Img>,
                                  image: Img, box: Box, name: Option<string>)
    requires c.decode(imageBytes) == Some(image)
    requires |c.detect(image)| > 0
    requires c.matchService(SemanticMatcher.ExtractKeywords(prompt, vocab), c.detect(image)) == Responded(200, Entry(Some(box), name))
    requires c.crop(image, box).None? || c.caption(c.crop(image, box).value).None?
    ensures RunPipeline(imageBytes, prompt, vocab, c) == map["error" := "An internal error occurred during processing."]
  {
  }

  /** When every stage succeeds, the result holds exactly the four keys: the
      service's label, the caption of the crop at the service's box, and the
      encodings of the annotated image and of the crop. */
  lemma SuccessPath<Img>(imageBytes: seq<byte>, prompt: string, vocab: seq<string>, c: Collaborators<Img>,
                         image: Img, box: Box, name: string, cropped: Img, caption: string)
    requires c.decode(imageBytes) == Some(image)
    requires |c.detect(image)| > 0
    requires c.matchService(SemanticMatcher.ExtractKeywords(prompt, vocab), c.detect(image)) == Responded(200, Entry(Some(box), Some(name)))
    requires c.crop(image, box) == Some(cropped)
    requires c.caption(cropped) == Some(caption)
    ensures RunPipeline(imageBytes, prompt, vocab, c) == map[
      "matched_object" := name,
      "caption" := caption,
      "annotated_image_base64" := c.encode(c.paint(image, DrawOps(c.detect(image), FontFor(c.arialAvailable)))),
      "cropped_image_base64" := c.encode(cropped)]
  {
  }

  /** A result without "error" only comes from that path: every stage
      succeeded, and "matched_object" and "caption" are the service's label
      and the captioner's text for the crop at the service's box. */
  lemma OnlySuccessPath<Img>(imageBytes: seq<byte>, prompt: string, vocab: seq<string>, c: Collaborators<Img>)
    requires "error" !in RunPipeline(imageBytes, prompt, vocab, c)
    ensures c.decode(imageBytes).Some?
    ensures var image := c.decode(imageBytes).value;
            var dets := c.detect(image);
            && |dets| > 0
            && var call := c.matchService(SemanticMatcher.ExtractKeywords(prompt, vocab), dets);
            && call.Responded? && call.status == 200
            && call.body.Entry? && call.body.box.Some? && call.body.name.Some?
            && c.crop(image, call.body.box.value).Some?
            && c.caption(c.crop(image, call.body.box.value).value).Some?
            && RunPipeline(imageBytes, prompt, vocab, c)["matched_object"] == call.body.name.value
            && RunPipeline(imageBytes, prompt, vocab, c)["caption"] == c.caption(c.crop(image, call.body.box.value).value).value
  {
  }

  /** The live code asks the remote service, so the matched label need not be
      the label of any detection. */
  lemma MatchedLabelNotFromDetections(prompt: string, vocab: seq<string>)
    ensures var det := Detection(Box(0.0, 0.0, 10.0, 10.0), "car", 0.9);
            var c: Collaborators<int> := Collaborators(
              _ => Some(0), _ => [det], true, (i, _) => i, _ => "",
              (_, _) => Responded(200, Entry(Some(Box(0.0, 0.0, 5.0, 5.0)), Some("wheel"))),
              (i, _) => Some(i), _ => Some("a black wheel"));
            var r := RunPipeline([], prompt, vocab, c);
            && "error" !in r
            && r["matched_object"] == "wheel"
            && det.name != "wheel"
  {
    var det := Detection(Box(0.0, 0.0, 10.0, 10.0), "car", 0.9);
    var c: Collaborators<int> := Collaborators(
      _ => Some(0), _ => [det], true, (i, _) => i, _ => "",
      (_, _) => Responded(200, Entry(Some(Box(0.0, 0.0, 5.0, 5.0)), Some("wheel"))),
      (i, _) => Some(i), _ => Some("a black wheel"));
    SuccessPath([], prompt, vocab, c, 0, Box(0.0, 0.0, 5.0, 5.0), "wheel", 0, "a black wheel");
  }

  /** A match service that answers with `find_best_match` (the call left
      commented out in the source), returning null when there is no match. */
  function LocalMatchService(sim: SemanticMatcher.Similarity): (seq<string>, seq<Detection>) -> MatchCall {
    (keywords: seq<string>, dets: seq<Detection>) =>
      match SemanticMatcher.FindBestMatch(keywords, dets, sim)
      case None => Responded(200, Falsy)
      case Some(best) => Responded(200, Entry(Some(best.box), Some(best.name)))
  }

  /** With that service in place, a successful result names a detection's label. */
  lemma LocalMatchNamesDetection<Img>(imageBytes: seq<byte>, prompt: string, vocab: seq<string>, c: Collaborators<Img>,
                                      sim: SemanticMatcher.Similarity)
    requires "error" !in RunPipeline(imageBytes, prompt, vocab, c.(matchService := LocalMatchService(sim)))
    ensures c.decode(imageBytes).Some?
    ensures exists i :: (0 <= i < |c.detect(c.decode(imageBytes).value)| &&
      RunPipeline(imageBytes, prompt, vocab, c.(matchService := LocalMatchService(sim)))["matched_object"]
        == c.detect(c.decode(imageBytes).value)[i].name)
  {
    var c' := c.(matchService := LocalMatchService(sim));
    OnlySuccessPath(imageBytes, prompt, vocab, c');
    var dets := c.detect(c.decode(imageBytes).value);
    var best := SemanticMatcher.FindBestMatch(SemanticMatcher.ExtractKeywords(prompt, vocab), dets, sim);
    assert best.Some?;
    var k: nat :| SemanticMatcher.IsFirstMax(
      SemanticMatcher.Scores(SemanticMatcher.MatchTerms(SemanticMatcher.ExtractKeywords(prompt, vocab)), dets, sim), k) && best.value == dets[k];
    assert RunPipeline(imageBytes, prompt, vocab, c')["matched_object"] == dets[k].name;
  }

  // ---------------------------------------------------------------------------
  // The HTTP boundary (main.py)
  // ---------------------------------------------------------------------------

  /** `create_caption`: a result with an "error" key is raised as HTTP 404, anything else is returned with 200. */
  function HttpStatus(result: map<string, string>): (status: nat)
    ensures status == 404 <==> "error" in result
    ensures status == 200 <==> "error" !in result
  {
    if "error" in result then 404 else 200
  }

  /** Every error of the pipeline, the internal one included, reaches the caller as 404. */
  lemma ErrorsAreNotFound<Img>(imageBytes: seq<byte>, prompt: string, vocab: seq<string>, c: Collaborators<Img>)
    ensures var r := RunPipeline(imageBytes, prompt, vocab, c);
            HttpStatus(r) == 404 <==> r.Keys == {"error"}
  {
    var r := RunPipeline(imageBytes, prompt, vocab, c);
    assert "matched_object" in SuccessKeys;
  }
}
