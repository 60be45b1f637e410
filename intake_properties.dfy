/** What the intake pipeline guarantees: validation before any service,
    every stage before the INSERT, the classification merge, the stored
    defaults, the coordinates, the identifier, and the crash of app.py
    line 690 next to the intended behaviour. */
module IntakeProperties {
  import opened Common
  import opened Text
  import opened JsonValue
  import opened Location
  import opened AiClient
  import opened Http
  import opened Store
  import opened Intake

  /** The text and report stages call nothing but those two services, the
      text service first... */
  lemma TextStagesCalls(req: Request, env: Services, place: Place, image: Json)
    ensures var o := FromText(req, env, place, image);
      && (o.calls == [TextAnalysis] || o.calls == [TextAnalysis, ReportGeneration])
      && Geocoding !in o.calls && ImageAnalysis !in o.calls && Transcription !in o.calls
      && (ReportGeneration in o.calls <==> TextResult(req, env).Some? && Truthy(TextResult(req, env).value))
  {
  }

  /** ... and end early only with a 500. */
  lemma TextStagesOutcome(req: Request, env: Services, place: Place, image: Json)
    ensures var o := FromText(req, env, place, image);
      o.decision.Reject? ==> o.decision.response.status == 500
  {
  }

  lemma DescriptionOutcome(req: Request, env: Services, place: Place, image: Json)
    ensures var o := FromDescription(req, env, place, image);
      && Geocoding !in o.calls && ImageAnalysis !in o.calls
      && (o.decision.Reject? ==> o.decision.response.status == 500)
  {
    TextStagesCalls(req, env, place, image);
    TextStagesOutcome(req, env, place, image);
    var audio := if Filled(req.audioFilename) then [Transcription] else [];
    assert Geocoding !in audio && ImageAnalysis !in audio;
  }

  /** Once the location is resolved, the image stage is the first service
      called, the geocoder is not called again, and every way the stages
      can end early is a 500. */
  lemma StagesAfterLocation(req: Request, env: Services, place: Place)
    ensures var o := FromImage(req, env, place);
      && |o.calls| >= 1 && o.calls[0] == ImageAnalysis && Geocoding !in o.calls
      && (o.decision.Reject? ==> o.decision.response.status == 500)
  {
    var image := ImageResult(env);
    if image.Some? && Truthy(image.value) {
      DescriptionOutcome(req, env, place, image.value);
    }
  }

  /** Validation and location come first: a 400 never follows a service
      call, a service is called only for a request that passed validation
      and has a location, and every rejection is a 400 or a 500. */
  lemma ValidationPrecedesServices(req: Request, env: Services)
    ensures var o := IntakeAsWritten(req, env);
      && (o.decision.Reject? ==> o.decision.response.status == 400 || o.decision.response.status == 500)
      && (o.decision.Reject? && o.decision.response.status == 400 ==> o.calls == [])
      && (o.calls != [] ==>
            && req.hasImage && req.description.Some?
            && (Filled(req.description) || Filled(req.audioFilename))
            && ResolveLocation(req.location, env.parseFloat, env.geocoder).Resolved?)
      && (!req.hasImage ==> o == Outcome(Reject(Response(400, ErrorBody(ImageRequired))), []))
  {
    if req.hasImage && req.description.Some? && (Filled(req.description) || Filled(req.audioFilename)) {
      var r := ResolveLocation(req.location, env.parseFloat, env.geocoder);
      if r.Resolved? {
        StagesAfterLocation(req, env, Place(r.location, r.lat, r.lng));
      }
    }
  }

  /** The calls a complete run makes, in order. */
  function FullRun(geocoded: bool, audio: bool): seq<Call> {
    (if geocoded then [Geocoding] else []) + [ImageAnalysis] + (if audio then [Transcription] else [])
    + [TextAnalysis, ReportGeneration]
  }

  /** A committed outcome of the text and report stages had a truthy text
      result and a truthy report dict. */
  lemma TextStagesCommit(req: Request, env: Services, place: Place, image: Json)
    requires FromText(req, env, place, image).decision.Commit?
    ensures image.JObj?
    ensures TextResult(req, env).Some? && TextResult(req, env).value.JObj? && Truthy(TextResult(req, env).value)
    ensures var report := ReportResult(env, ReportPayload(image, Transcript(req, env), TextResult(req, env).value,
                                                          place.location));
      report.Some? && report.value.JObj? && Truthy(report.value)
    ensures FromText(req, env, place, image).calls == [TextAnalysis, ReportGeneration]
  {
  }

  /** A committed outcome of the image stage had a truthy image result and
      a non-empty description, and its decision is that of the text stages. */
  lemma ImageStageCommit(req: Request, env: Services, place: Place)
    requires FromImage(req, env, place).decision.Commit?
    ensures ImageResult(env).Some? && Truthy(ImageResult(env).value)
    ensures Narrative(req, env) != ""
    ensures FromImage(req, env, place).decision == FromText(req, env, place, ImageResult(env).value).decision
  {
    var image := ImageResult(env);
    assert image.Some? && Truthy(image.value);
    var d := FromDescription(req, env, place, image.value);
    assert FromImage(req, env, place) == Prefixed([ImageAnalysis], d);
    assert Narrative(req, env) != "";
  }

  /** ... and it called the image service, then the audio service when a
      voice note was sent, then the text stages. */
  lemma ImageStageCalls(req: Request, env: Services, place: Place)
    requires FromImage(req, env, place).decision.Commit?
    ensures ImageResult(env).Some?
    ensures FromImage(req, env, place).calls
      == [ImageAnalysis] + (if Filled(req.audioFilename) then [Transcription] else [])
         + FromText(req, env, place, ImageResult(env).value).calls
  {
    ImageStageCommit(req, env, place);
    var image := ImageResult(env);
    var d := FromDescription(req, env, place, image.value);
    assert FromImage(req, env, place) == Prefixed([ImageAnalysis], d);
    var audio := if Filled(req.audioFilename) then [Transcription] else [];
    assert d == Prefixed(audio, FromText(req, env, place, image.value));
  }

  /** A complaint reaches the INSERT only after every stage succeeded, in
      order: a validated request with a resolved location, a truthy image
      dict, a non-empty description, then a truthy text dict and a truthy
      report dict. */
  lemma CommitNeedsEveryStage(req: Request, env: Services)
    requires IntakeAsWritten(req, env).decision.Commit?
    ensures req.hasImage && req.description.Some? && (Filled(req.description) || Filled(req.audioFilename))
    ensures ResolveLocation(req.location, env.parseFloat, env.geocoder).Resolved?
    ensures ImageResult(env).Some? && ImageResult(env).value.JObj? && Truthy(ImageResult(env).value)
    ensures Narrative(req, env) != ""
    ensures TextResult(req, env).Some? && TextResult(req, env).value.JObj? && Truthy(TextResult(req, env).value)
    ensures var r := ResolveLocation(req.location, env.parseFloat, env.geocoder);
      var report := ReportResult(env, ReportPayload(ImageResult(env).value, Transcript(req, env),
                                                    TextResult(req, env).value, r.location));
      report.Some? && report.value.JObj? && Truthy(report.value)
    ensures var r := ResolveLocation(req.location, env.parseFloat, env.geocoder);
      IntakeAsWritten(req, env).decision
      == FromText(req, env, Place(r.location, r.lat, r.lng), ImageResult(env).value).decision
  {
    assert req.hasImage && req.description.Some?;
    assert IntakeAsWritten(req, env) == ProcessSubmission(req, env);
    assert Filled(req.description) || Filled(req.audioFilename);
    var r := ResolveLocation(req.location, env.parseFloat, env.geocoder);
    assert r.Resolved?;
    var place := Place(r.location, r.lat, r.lng);
    assert IntakeAsWritten(req, env) == Prefixed(if r.geocoded then [Geocoding] else [], FromImage(req, env, place));
    ImageStageCommit(req, env, place);
    TextStagesCommit(req, env, place, ImageResult(env).value);
  }

  /** ... and it called the services in this order, each once. */
  lemma CommitCallTrace(req: Request, env: Services)
    requires IntakeAsWritten(req, env).decision.Commit?
    ensures IntakeAsWritten(req, env).calls
      == FullRun(ResolveLocation(req.location, env.parseFloat, env.geocoder).geocoded, Filled(req.audioFilename))
  {
    assert req.hasImage && req.description.Some?;
    assert IntakeAsWritten(req, env) == ProcessSubmission(req, env);
    var r := ResolveLocation(req.location, env.parseFloat, env.geocoder);
    assert r.Resolved?;
    var place := Place(r.location, r.lat, r.lng);
    assert IntakeAsWritten(req, env) == Prefixed(if r.geocoded then [Geocoding] else [], FromImage(req, env, place));
    ImageStageCalls(req, env, place);
    TextStagesCommit(req, env, place, ImageResult(env).value);
    var pre := if r.geocoded then [Geocoding] else [];
    var audio := if Filled(req.audioFilename) then [Transcription] else [];
    var stages: seq<Call> := [TextAnalysis, ReportGeneration];
    assert IntakeAsWritten(req, env).calls == pre + ([ImageAnalysis] + audio + stages);
    Regroup(pre, [ImageAnalysis], audio, stages);
  }

  lemma Regroup<T>(a: seq<T>, b: seq<T>, c: seq<T>, d: seq<T>)
    ensures a + (b + c + d) == a + b + c + d
  {
  }

  /** Conversely, when every stage succeeds with a dict the complaint is
      committed. */
  lemma EveryStageSucceedingCommits(req: Request, env: Services)
    requires req.hasImage && req.description.Some? && (Filled(req.description) || Filled(req.audioFilename))
    requires ResolveLocation(req.location, env.parseFloat, env.geocoder).Resolved?
    requires ImageResult(env).Some? && ImageResult(env).value.JObj? && Truthy(ImageResult(env).value)
    requires Narrative(req, env) != ""
    requires TextResult(req, env).Some? && TextResult(req, env).value.JObj? && Truthy(TextResult(req, env).value)
    requires var r := ResolveLocation(req.location, env.parseFloat, env.geocoder);
      var report := ReportResult(env, ReportPayload(ImageResult(env).value, Transcript(req, env),
                                                    TextResult(req, env).value, r.location));
      report.Some? && report.value.JObj? && Truthy(report.value)
    ensures IntakeAsWritten(req, env).decision.Commit?
  {
  }

  /** The classification: the text result's `category`, else the image
      result's, else "Other"; the text result's `priority`, else "Medium".
      Neither is checked against the list of categories or priorities. */
  lemma ClassificationMerge(req: Request, env: Services)
    requires IntakeAsWritten(req, env).decision.Commit?
    ensures ImageResult(env).Some? && ImageResult(env).value.JObj?
    ensures TextResult(req, env).Some? && TextResult(req, env).value.JObj?
    ensures var text := TextResult(req, env).value.fields;
      var image := ImageResult(env).value.fields;
      var row := IntakeAsWritten(req, env).decision.row;
      && row.category == (if "category" in text then text["category"]
                          else if "category" in image then image["category"]
                          else JStr("Other"))
      && row.priority == (if "priority" in text then text["priority"] else JStr("Medium"))
  {
    CommitNeedsEveryStage(req, env);
  }

  /** The stored values: the report's `subject`, `description` and `zone`
      with their defaults (the description defaults to the narrative the
      text stage saw), the resolved location and coordinates, the session's
      user and the identifier of the current second. The acknowledgement's
      `subject` has no default, so a report without one is stored as
      "Untitled Complaint" but acknowledged with `null`. */
  lemma StoredDefaults(req: Request, env: Services)
    requires IntakeAsWritten(req, env).decision.Commit?
    ensures ResolveLocation(req.location, env.parseFloat, env.geocoder).Resolved?
    ensures ImageResult(env).Some? && TextResult(req, env).Some?
    ensures var r := ResolveLocation(req.location, env.parseFloat, env.geocoder);
      var report := ReportResult(env, ReportPayload(ImageResult(env).value, Transcript(req, env),
                                                    TextResult(req, env).value, r.location));
      report.Some? && report.value.JObj?
    ensures var r := ResolveLocation(req.location, env.parseFloat, env.geocoder);
      var rep := ReportResult(env, ReportPayload(ImageResult(env).value, Transcript(req, env),
                                                 TextResult(req, env).value, r.location)).value.fields;
      var d := IntakeAsWritten(req, env).decision;
      && d.row.subject == (if "subject" in rep then rep["subject"] else JStr("Untitled Complaint"))
      && d.row.description == (if "description" in rep then rep["description"] else JStr(Narrative(req, env)))
      && d.row.zone == (if "zone" in rep then rep["zone"] else JStr("Unknown"))
      && d.ackSubject == (if "subject" in rep then rep["subject"] else JNull)
      && d.row.ghmcId == GhmcId(env.now)
      && d.row.location == r.location && d.row.lat == r.lat && d.row.lng == r.lng
      && d.row.userId == req.userId
  {
    CommitNeedsEveryStage(req, env);
  }

  /** A committed complaint has both coordinates or neither; it has them
      exactly when both device fields were sent; without them its location
      is the typed address; the geocoder was called exactly for two non-zero
      coordinates; and a complaint without a location string has a zero
      coordinate. */
  lemma CommittedCoordinates(req: Request, env: Services)
    requires IntakeAsWritten(req, env).decision.Commit?
    ensures var o := IntakeAsWritten(req, env);
      var row := o.decision.row;
      && (row.lat.Some? <==> row.lng.Some?)
      && (row.lat.Some? <==> Filled(req.location.deviceLat) && Filled(req.location.deviceLng))
      && (row.lat.None? ==> row.location == req.location.manualAddress)
      && (Geocoding in o.calls <==> row.lat.Some? && row.lat.value != 0.0 && row.lng.value != 0.0)
      && (row.location.None? ==> row.lat.Some? && (row.lat.value == 0.0 || row.lng.value == 0.0))
  {
    var r := ResolveLocation(req.location, env.parseFloat, env.geocoder);
    StoredDefaults(req, env);
    CommitCallTrace(req, env);
    CoordinatesComeInPairs(req.location, env.parseFloat, env.geocoder);
    GeocodingOnlyFirst(r.geocoded, Filled(req.audioFilename));
  }

  /** A complete run calls the geocoder exactly when it geocoded. */
  lemma GeocodingOnlyFirst(geocoded: bool, audio: bool)
    ensures Geocoding in FullRun(geocoded, audio) <==> geocoded
  {
    var rest := [ImageAnalysis] + (if audio then [Transcription] else []) + [TextAnalysis, ReportGeneration];
    assert FullRun(geocoded, audio) == (if geocoded then [Geocoding] else []) + rest;
    assert Geocoding !in rest;
  }

  /** The identifier is "GHMC/HYD/" followed by the decimal digits of the
      epoch second, which read back as that second. */
  lemma GhmcIdFormat(now: nat)
    ensures StartsWith(GhmcId(now), "GHMC/HYD/") && |GhmcId(now)| > 9
    ensures var digits := GhmcId(now)[9..];
      (forall k :: 0 <= k < |digits| ==> IsDigit(digits[k])) && DecimalValue(digits) == now
  {
    assert GhmcId(now)[9..] == Decimal(now);
    DecimalRoundTrip(now);
  }

  /** Submissions in different seconds get different identifiers. */
  lemma GhmcIdsOfDifferentSecondsDiffer(a: nat, b: nat)
    requires a != b
    ensures GhmcId(a) != GhmcId(b)
  {
    DecimalInjective(a, b);
    assert GhmcId(a)[9..] == Decimal(a) && GhmcId(b)[9..] == Decimal(b);
  }

  /** End to end: the store changes only when the answer is 201, and then by
      exactly one complaint under a fresh id whose acknowledgement repeats
      the stored identifier and classification; the audit trail is never
      touched by a submission. */
  lemma SubmissionStoresAtMostOne(db: Db, req: Request, env: Services)
    requires Consistent(db)
    ensures var d := IntakeAsWritten(req, env).decision;
      var (db', resp) := Respond(db, d, env.now);
      && Consistent(db')
      && db'.history == db.history
      && (resp.status == 201 <==> d.Commit? && !InsertFails(db, d.row))
      && (resp.status != 201 ==> db' == db)
      && (resp.status == 201 ==>
            && resp.body == SubmittedBody(Acknowledgement(db.nextId, d.row.ghmcId, d.ackSubject,
                                                          d.row.category, d.row.priority))
            && db.nextId !in db.complaints
            && db'.complaints == db.complaints[db.nextId := Complaint(d.row, JStr("Submitted"), "Citizen",
                                                                     env.now, env.now)])
  {
    ValidationPrecedesServices(req, env);
    var d := IntakeAsWritten(req, env).decision;
    if d.Commit? {
      InsertOutcome(db, d.row, env.now);
    }
  }

  /** Two complaints committed in the same second collide on the UNIQUE
      `ghmc_id`: the second is rolled back with a database error. */
  lemma SameSecondSubmissionIsRefused(db: Db, req: Request, env: Services, earlier: nat)
    requires Consistent(db)
    requires earlier in db.complaints && db.complaints[earlier].row.ghmcId == GhmcId(env.now)
    ensures var (db', resp) := Respond(db, IntakeAsWritten(req, env).decision, env.now);
      db' == db && resp.status != 201
  {
    SubmissionStoresAtMostOne(db, req, env);
    var d := IntakeAsWritten(req, env).decision;
    if d.Commit? {
      StoredDefaults(req, env);
      InsertOutcome(db, d.row, env.now);
    }
  }

  /** As written: a report with an image and a voice note but no
      `description` field ends in an unhandled error (the slice in the log
      line of app.py line 690) before any validation or service. */
  lemma VoiceOnlyReportCrashes(req: Request, env: Services)
    requires req.hasImage && req.description.None? && Filled(req.audioFilename)
    ensures IntakeAsWritten(req, env) == Outcome(Reject(Unhandled), [])
  {
  }

  /** As intended: text or voice is enough. The description error is given
      exactly when both are missing, a voice-only report with a location
      reaches the image stage, and whenever the form has a `description`
      field the two versions agree. */
  lemma VoiceOnlyReportAccepted(req: Request, env: Services)
    requires req.hasImage
    ensures IntakeIntended(req, env).decision == Reject(Response(400, ErrorBody(DescriptionRequired)))
      <==> !Filled(req.description) && !Filled(req.audioFilename)
    ensures Filled(req.audioFilename) && ResolveLocation(req.location, env.parseFloat, env.geocoder).Resolved?
      ==> ImageAnalysis in IntakeIntended(req, env).calls
    ensures req.description.Some? ==> IntakeIntended(req, env) == IntakeAsWritten(req, env)
  {
    var r := ResolveLocation(req.location, env.parseFloat, env.geocoder);
    if r.Resolved? {
      StagesAfterLocation(req, env, Place(r.location, r.lat, r.lng));
    }
  }
}
