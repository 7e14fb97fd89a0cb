/**
 * The detection round trip as far as the controller decides anything: the
 * request it builds for a frame and the checks that decide whether a reply is
 * used. JPEG and base64 encoding, JSON parsing, base64 decoding and image
 * decoding are foreign calls; they are the fields of a `Codecs` record, each
 * returning `None` where the platform call fails.
 */
module Detection {
  import opened Wrappers

  type Bytes = seq<bv8>

  /** A decoded bitmap; its content is opaque to the controller. */
  datatype Image = Image(bitmap: Bytes)

  /** A parsed JSON value, as far as the controller looks into it. */
  datatype JsonValue =
    | JString(str: string)
    | JArray(elems: seq<JsonValue>)
    | JObject(fields: map<string, JsonValue>)
    | JOther

  /** The platform calls the round trip depends on. */
  datatype Codecs = Codecs(
    jpegEncode: Image -> Option<Bytes>,
    base64Encode: Bytes -> string,
    parseJson: Bytes -> Option<JsonValue>,
    base64Decode: string -> Option<Bytes>,
    decodeImage: Bytes -> Option<Image>)

  /** The endpoint every frame is posted to. */
  const DetectUrl: string := "https://6c73-35-197-19-71.ngrok-free.app/detect"

  /** The HTTP request for one frame. */
  datatype Request = Request(url: string, httpMethod: string, contentType: string, body: JsonValue)

  /**
   * The request for a frame: a POST of `{"image": <base64 JPEG>}` as JSON.
   * There is none when JPEG encoding fails.
   */
  function FrameRequest(image: Image, codecs: Codecs): (r: Option<Request>)
    ensures r.Some? <==> codecs.jpegEncode(image).Some?
    ensures r.Some? ==> r.value.url == DetectUrl && r.value.httpMethod == "POST"
    ensures r.Some? ==> r.value.contentType == "application/json"
    ensures r.Some? ==> r.value.body == JObject(map["image" := JString(codecs.base64Encode(codecs.jpegEncode(image).value))])
  {
    match codecs.jpegEncode(image)
    case None => None
    case Some(jpeg) =>
      Some(Request(DetectUrl, "POST", "application/json", JObject(map["image" := JString(codecs.base64Encode(jpeg))])))
  }

  /** The strings of a JSON array, when every element is a string (Swift's `as? [String]`). */
  function StringArray(elems: seq<JsonValue>): (r: Option<seq<string>>)
    ensures r.Some? <==> forall k :: 0 <= k < |elems| ==> elems[k].JString?
    ensures r.Some? ==> |r.value| == |elems|
    ensures r.Some? ==> forall k :: 0 <= k < |elems| ==> r.value[k] == elems[k].str
  {
    if |elems| == 0 then Some([])
    else if !elems[0].JString? then None
    else
      match StringArray(elems[1..])
      case None => None
      case Some(rest) => Some([elems[0].str] + rest)
  }

  /** The reply's alert list; when the field is missing or is not an array of strings, no alerts. */
  function AlertsField(fields: map<string, JsonValue>): seq<string>
  {
    if "alerts" in fields && fields["alerts"].JArray? then
      match StringArray(fields["alerts"].elems)
      case Some(alerts) => alerts
      case None => []
    else []
  }

  /** What a usable reply delivers. */
  datatype Detected = Detected(image: Image, alerts: seq<string>)

  /** Every step of reading the reply succeeds up to the processed image's bytes. */
  ghost predicate ImageBytes(data: Option<Bytes>, codecs: Codecs, fields: map<string, JsonValue>, bytes: Bytes)
  {
    && data.Some?
    && codecs.parseJson(data.value) == Some(JObject(fields))
    && "processed_image" in fields && fields["processed_image"].JString?
    && codecs.base64Decode(fields["processed_image"].str) == Some(bytes)
  }

  /**
   * The reply the server sent (`None` when the transport delivered no data),
   * read the way the controller reads it: the data must parse as a JSON object,
   * its `processed_image` must be a string, that string must be base64 and
   * decode to an image. Anything else makes the whole reply unusable.
   */
  function DecodeReply(data: Option<Bytes>, codecs: Codecs): (r: Option<Detected>)
    ensures r.Some? <==>
      exists fields, bytes :: ImageBytes(data, codecs, fields, bytes) && codecs.decodeImage(bytes).Some?
    ensures forall fields, bytes :: ImageBytes(data, codecs, fields, bytes) ==>
      r == match codecs.decodeImage(bytes)
           case None => None
           case Some(img) => Some(Detected(img, AlertsField(fields)))
  {
    if data.None? then None
    else
      match codecs.parseJson(data.value)
      case Some(JObject(fields)) =>
        if "processed_image" in fields && fields["processed_image"].JString? then
          match codecs.base64Decode(fields["processed_image"].str)
          case Some(bytes) =>
            (match codecs.decodeImage(bytes)
             case Some(img) =>
               assert ImageBytes(data, codecs, fields, bytes);
               Some(Detected(img, AlertsField(fields)))
             case None => None)
          case None => None
        else None
      case _ => None
  }

  /** A reply whose object has no `processed_image` string is rejected outright, never partly used. */
  lemma MissingImageRejected(data: Bytes, codecs: Codecs, fields: map<string, JsonValue>)
    requires codecs.parseJson(data) == Some(JObject(fields))
    requires "processed_image" !in fields || !fields["processed_image"].JString?
    ensures DecodeReply(Some(data), codecs) == None
  {
  }

  /** The alerts of a reply are those it lists when it lists strings, and otherwise none. */
  lemma AlertsDefault(fields: map<string, JsonValue>)
    ensures "alerts" !in fields ==> AlertsField(fields) == []
    ensures "alerts" in fields && fields["alerts"].JArray? &&
            (forall k :: 0 <= k < |fields["alerts"].elems| ==> fields["alerts"].elems[k].JString?) ==>
              |AlertsField(fields)| == |fields["alerts"].elems| &&
              forall k :: 0 <= k < |AlertsField(fields)| ==> AlertsField(fields)[k] == fields["alerts"].elems[k].str
    ensures "alerts" in fields && fields["alerts"].JArray? &&
            (exists k :: 0 <= k < |fields["alerts"].elems| && !fields["alerts"].elems[k].JString?) ==>
              AlertsField(fields) == []
    ensures "alerts" in fields && !fields["alerts"].JArray? ==> AlertsField(fields) == []
  {
  }
}
