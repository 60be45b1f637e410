/** `report_issue_endpoint` (app.py lines 670-828): validate the form,
    resolve the location, run the image, audio, text and report stages,
    merge the classification and store one complaint. The four Gemini
    services, `json.loads`, `float()`, the geocoder and the clock are
    parameters; every stage runs with the default three attempts. */
module Intake {
  import opened Common
  import opened Text
  import opened JsonValue
  import opened Location
  import opened AiClient
  import opened Http
  import opened Store

  /** The multipart form: whether an `image` part exists, the audio part's
      filename (a part with an empty filename is falsy), the `description`
      field, the three location fields and the session's user id. */
  datatype Request = Request(hasImage: bool, audioFilename: Option<string>, description: Option<string>,
                             location: LocationForm, userId: Option<int>)

  /** The dict handed to the report stage. */
  datatype ReportPayload = ReportPayload(image: Json, voice: Option<string>, text: Json, location: Option<string>)

  /** Everything outside the endpoint: the four API keys, what each service
      answers on each attempt (the text service's answers depend on the
      description it is given, the report service's on the payload), the
      JSON decoder, `float()`, the geocoder and the epoch second. */
  datatype Services = Services(
    imageKey: Option<string>, audioKey: Option<string>, textKey: Option<string>, reportKey: Option<string>,
    imageReply: nat -> Reply, audioReply: nat -> Reply,
    textReply: string -> nat -> Reply, reportReply: ReportPayload -> nat -> Reply,
    parseJson: string -> Result<Json, string>, parseFloat: string -> Option<real>,
    geocoder: Geocoder, now: nat)

  /** The stages the endpoint enters, in order: the geocoder, and the four
      AI stage functions. An AI stage is recorded when it is entered, even
      when a missing API key means no service is contacted. */
  datatype Call = Geocoding | ImageAnalysis | Transcription | TextAnalysis | ReportGeneration

  const ImageRequired: string := "Validation failed: An image file is mandatory."
  const DescriptionRequired: string := "Validation failed: Either a text or voice description is mandatory."
  const ImageFailed: string := "AI processing failed for the image."
  const EmptyDescription: string := "Processing failed: Could not generate a description from the provided input."
  const TextFailed: string := "AI processing failed for the text description."
  const ReportFailed: string := "AI failed to generate the final report."

  /** How the request ends before the database, or the row to insert with
      the `subject` the acknowledgement will carry. */
  datatype Decision = Reject(response: Response) | Commit(row: Row, ackSubject: Json)

  datatype Outcome = Outcome(decision: Decision, calls: seq<Call>)

  /** Where the complaint is, once resolved. */
  datatype Place = Place(location: Option<string>, lat: Option<real>, lng: Option<real>)

  function Prefixed(calls: seq<Call>, o: Outcome): Outcome {
    Outcome(o.decision, calls + o.calls)
  }

  /** `f"GHMC/HYD/{int(datetime.now().timestamp())}"` */
  function GhmcId(now: nat): string {
    "GHMC/HYD/" + Decimal(now)
  }

  /** The image stage's decoded reply. */
  function ImageResult(env: Services): Option<Json> {
    JsonStage(env.imageKey, DefaultMaxRetries, env.imageReply, env.parseJson).result
  }

  /** The voice transcription kept from the audio stage: only when an audio
      part with a filename was sent and the stage produced a non-empty text
      (which may be the stage's fallback text). */
  function Transcript(req: Request, env: Services): Option<string> {
    if !Filled(req.audioFilename) then None
    else
      var t := AudioStage(env.audioKey, DefaultMaxRetries, env.audioReply).result;
      if t.Some? && t.value != "" then t else None
  }

  /** The text the complaint is about: the typed description with the
      transcription appended, stripped. */
  function Narrative(req: Request, env: Services): string {
    Strip(req.description.GetOr("") + VoiceNote(Transcript(req, env)))
  }

  /** `f"\n\n(Voice Note Transcription: {voice_transcription})"`, or nothing. */
  function VoiceNote(voice: Option<string>): string {
    if voice.Some? then "\n\n(Voice Note Transcription: " + voice.value + ")" else ""
  }

  function TextResult(req: Request, env: Services): Option<Json> {
    JsonStage(env.textKey, DefaultMaxRetries, env.textReply(Narrative(req, env)), env.parseJson).result
  }

  function ReportResult(env: Services, payload: ReportPayload): Option<Json> {
    JsonStage(env.reportKey, DefaultMaxRetries, env.reportReply(payload), env.parseJson).result
  }

  /** The classification merge and the row of app.py lines 778-802. A
      result that is not a dict makes `.get` raise; the image result's
      `.get` runs even when the text result has a category, because it is
      the default argument. */
  function Assemble(image: Json, text: Json, report: Json, narrative: string, place: Place,
                    userId: Option<int>, now: nat): Decision
  {
    if !text.JObj? || !image.JObj? then Reject(Unhandled)
    else
      var category := Get(text.fields, "category", Get(image.fields, "category", JStr("Other")));
      var priority := Get(text.fields, "priority", JStr("Medium"));
      if !report.JObj? then Reject(Unhandled)
      else
        Commit(Row(GhmcId(now), category, priority,
                   Get(report.fields, "subject", JStr("Untitled Complaint")),
                   Get(report.fields, "description", JStr(narrative)),
                   place.location,
                   Get(report.fields, "zone", JStr("Unknown")),
                   place.lat, place.lng, userId),
               Get(report.fields, "subject", JNull))
  }

  /** The text and report stages, then the row. */
  function FromText(req: Request, env: Services, place: Place, image: Json): Outcome {
    var text := TextResult(req, env);
    if text.None? || !Truthy(text.value) then Outcome(Reject(Response(500, ErrorBody(TextFailed))), [TextAnalysis])
    else
      var payload := ReportPayload(image, Transcript(req, env), text.value, place.location);
      var report := ReportResult(env, payload);
      if report.None? || !Truthy(report.value) then
        Outcome(Reject(Response(500, ErrorBody(ReportFailed))), [TextAnalysis, ReportGeneration])
      else
        Outcome(Assemble(image, text.value, report.value, Narrative(req, env), place, req.userId, env.now),
                [TextAnalysis, ReportGeneration])
  }

  /** The audio stage and the description check. */
  function FromDescription(req: Request, env: Services, place: Place, image: Json): Outcome {
    var audio := if Filled(req.audioFilename) then [Transcription] else [];
    if Narrative(req, env) == "" then Outcome(Reject(Response(500, ErrorBody(EmptyDescription))), audio)
    else Prefixed(audio, FromText(req, env, place, image))
  }

  /** The image stage. */
  function FromImage(req: Request, env: Services, place: Place): Outcome {
    var image := ImageResult(env);
    if image.None? || !Truthy(image.value) then Outcome(Reject(Response(500, ErrorBody(ImageFailed))), [ImageAnalysis])
    else Prefixed([ImageAnalysis], FromDescription(req, env, place, image.value))
  }

  /** Everything from the description check of app.py line 694 on. */
  function ProcessSubmission(req: Request, env: Services): Outcome {
    if !Filled(req.description) && !Filled(req.audioFilename) then
      Outcome(Reject(Response(400, ErrorBody(DescriptionRequired))), [])
    else
      match ResolveLocation(req.location, env.parseFloat, env.geocoder)
      case NoLocation => Outcome(Reject(Response(400, LocationErrorBody)), [])
      case BadCoordinate => Outcome(Reject(Unhandled), [])
      case Resolved(location, lat, lng, geocoded) =>
        Prefixed(if geocoded then [Geocoding] else [], FromImage(req, env, Place(location, lat, lng)))
  }

  /** The endpoint as written: the image check, then the log line of app.py
      line 690, which slices the description and so raises when the form has
      no `description` field, then the rest. */
  function IntakeAsWritten(req: Request, env: Services): Outcome {
    if !req.hasImage then Outcome(Reject(Response(400, ErrorBody(ImageRequired))), [])
    else if req.description.None? then Outcome(Reject(Unhandled), [])
    else ProcessSubmission(req, env)
  }

  /** The endpoint as its validation message describes it: text or voice is
      enough. */
  function IntakeIntended(req: Request, env: Services): Outcome {
    if !req.hasImage then Outcome(Reject(Response(400, ErrorBody(ImageRequired))), [])
    else ProcessSubmission(req, env)
  }

  /** The database step: an INSERT in its own transaction, answered with the
      acknowledgement or, after a rollback, the database error. */
  function Respond(db: Db, decision: Decision, now: nat): (Db, Response) {
    match decision
    case Reject(response) => (db, response)
    case Commit(row, subject) =>
      var (db', id) := InsertSpec(db, row, now);
      if id.None? then (db, Response(500, DatabaseErrorBody))
      else (db', Response(201, SubmittedBody(Acknowledgement(id.value, row.ghmcId, subject, row.category, row.priority))))
  }

  /** The endpoint step by step, as app.py lines 677-828 perform it:
      validation and location here, the stages in the methods below. */
  method ReportIssue(store: ComplaintStore, req: Request, env: Services) returns (resp: Response, calls: seq<Call>)
    requires store.Valid()
    modifies store
    ensures store.Valid()
    ensures (store.State(), resp) == Respond(old(store.State()), IntakeAsWritten(req, env).decision, env.now)
    ensures calls == IntakeAsWritten(req, env).calls
  {
    if !req.hasImage {
      return Response(400, ErrorBody(ImageRequired)), [];
    }
    if req.description.None? {
      return Unhandled, [];
    }
    if req.description.value == "" && !Filled(req.audioFilename) {
      return Response(400, ErrorBody(DescriptionRequired)), [];
    }

    // Device GPS first, the typed address otherwise.
    var finalLat: Option<real> := None;
    var finalLng: Option<real> := None;
    var finalLocation: Option<string> := None;
    var form := req.location;
    if Filled(form.deviceLat) && Filled(form.deviceLng) {
      finalLat := env.parseFloat(form.deviceLat.value);
      finalLng := env.parseFloat(form.deviceLng.value);
      if finalLat.None? || finalLng.None? {
        return Unhandled, [];
      }
    } else if Filled(form.manualAddress) {
      finalLocation := form.manualAddress;
    } else {
      return Response(400, LocationErrorBody), [];
    }
    calls := [];
    var geocoded := finalLat.Some? && finalLat.value != 0.0 && finalLng.Some? && finalLng.value != 0.0;
    if geocoded {
      finalLocation := Some(ReverseGeocode(finalLat, finalLng, env.geocoder));
      calls := [Geocoding];
    }
    assert ResolveLocation(form, env.parseFloat, env.geocoder) == Resolved(finalLocation, finalLat, finalLng, geocoded);
    var stageCalls;
    resp, stageCalls := AnalyseImage(store, req, env, Place(finalLocation, finalLat, finalLng));
    calls := calls + stageCalls;
  }

  /** The image stage (app.py lines 726-731). */
  method AnalyseImage(store: ComplaintStore, req: Request, env: Services, place: Place)
    returns (resp: Response, calls: seq<Call>)
    requires store.Valid()
    modifies store
    ensures store.Valid()
    ensures (store.State(), resp) == Respond(old(store.State()), FromImage(req, env, place).decision, env.now)
    ensures calls == FromImage(req, env, place).calls
  {
    var imageAnalysis, imageAttempts, imageWaits :=
      CallJsonStage(env.imageKey, DefaultMaxRetries, env.imageReply, env.parseJson);
    if imageAnalysis.None? || !Truthy(imageAnalysis.value) {
      return Response(500, ErrorBody(ImageFailed)), [ImageAnalysis];
    }
    var stageCalls;
    resp, stageCalls := Describe(store, req, env, place, imageAnalysis.value);
    calls := [ImageAnalysis] + stageCalls;
  }

  /** The optional voice note and the description check (app.py lines
      733-755). */
  method Describe(store: ComplaintStore, req: Request, env: Services, place: Place, image: Json)
    returns (resp: Response, calls: seq<Call>)
    requires store.Valid()
    modifies store
    ensures store.Valid()
    ensures (store.State(), resp) == Respond(old(store.State()), FromDescription(req, env, place, image).decision, env.now)
    ensures calls == FromDescription(req, env, place, image).calls
  {
    var voice, fullDescription, audioCalls := ComposeDescription(req, env);
    if fullDescription == "" {
      return Response(500, ErrorBody(EmptyDescription)), audioCalls;
    }
    var stageCalls;
    resp, stageCalls := AnalyseText(store, req, env, place, image, voice, fullDescription);
    calls := audioCalls + stageCalls;
  }

  /** The typed description with the voice note appended, stripped (app.py
      lines 733-752). */
  method ComposeDescription(req: Request, env: Services)
    returns (voice: Option<string>, fullDescription: string, calls: seq<Call>)
    ensures voice == Transcript(req, env) && fullDescription == Narrative(req, env)
    ensures calls == if Filled(req.audioFilename) then [Transcription] else []
  {
    fullDescription := req.description.GetOr("");
    voice := None;
    calls := [];
    if Filled(req.audioFilename) {
      var transcription, audioAttempts, audioWaits := CallAudioStage(env.audioKey, DefaultMaxRetries, env.audioReply);
      calls := [Transcription];
      if transcription.Some? && transcription.value != "" {
        voice := transcription;
        fullDescription := fullDescription + VoiceNote(voice);
      }
    }
    assert voice == Transcript(req, env);
    assert fullDescription == req.description.GetOr("") + VoiceNote(voice);
    fullDescription := Strip(fullDescription);
  }

  /** The text and report stages, the classification merge and the INSERT
      (app.py lines 757-828). */
  method AnalyseText(store: ComplaintStore, req: Request, env: Services, place: Place, image: Json,
                     voice: Option<string>, fullDescription: string)
    returns (resp: Response, calls: seq<Call>)
    requires store.Valid()
    requires voice == Transcript(req, env) && fullDescription == Narrative(req, env)
    modifies store
    ensures store.Valid()
    ensures (store.State(), resp) == Respond(old(store.State()), FromText(req, env, place, image).decision, env.now)
    ensures calls == FromText(req, env, place, image).calls
  {
    var textAnalysis, textAttempts, textWaits :=
      CallJsonStage(env.textKey, DefaultMaxRetries, env.textReply(fullDescription), env.parseJson);
    calls := [TextAnalysis];
    if textAnalysis.None? || !Truthy(textAnalysis.value) {
      return Response(500, ErrorBody(TextFailed)), calls;
    }
    var text := textAnalysis.value;

    var payload := ReportPayload(image, voice, text, place.location);
    var formalReport, reportAttempts, reportWaits :=
      CallJsonStage(env.reportKey, DefaultMaxRetries, env.reportReply(payload), env.parseJson);
    calls := calls + [ReportGeneration];
    if formalReport.None? || !Truthy(formalReport.value) {
      return Response(500, ErrorBody(ReportFailed)), calls;
    }
    var report := formalReport.value;

    if !text.JObj? || !image.JObj? {
      return Unhandled, calls;
    }
    var finalCategory := Get(text.fields, "category", Get(image.fields, "category", JStr("Other")));
    var finalPriority := Get(text.fields, "priority", JStr("Medium"));
    var ghmcId := "GHMC/HYD/" + Decimal(env.now);
    if !report.JObj? {
      return Unhandled, calls;
    }
    var row := Row(ghmcId, finalCategory, finalPriority,
                   Get(report.fields, "subject", JStr("Untitled Complaint")),
                   Get(report.fields, "description", JStr(fullDescription)),
                   place.location,
                   Get(report.fields, "zone", JStr("Unknown")),
                   place.lat, place.lng, req.userId);
    var id := store.Insert(row, env.now);
    if id.None? {
      return Response(500, DatabaseErrorBody), calls;
    }
    resp := Response(201, SubmittedBody(Acknowledgement(id.value, ghmcId, Get(report.fields, "subject", JNull),
                                                        finalCategory, finalPriority)));
  }
}
