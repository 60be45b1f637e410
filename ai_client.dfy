/** The four calls to the generative-AI service (`analyze_image_with_gemini`,
    `transcribe_audio_with_gemini`, `analyze_text_with_gemini`,
    `generate_formal_report_with_gemini`) and the quota-aware retry loop they
    all repeat. The service, `json.loads` and `time.sleep` are not modelled
    as code: the service is a function from the attempt number to what that
    attempt produced, the parser a function from text to a decoded value or an
    error message, and each sleep is recorded in a list of waits. */
module AiClient {
  import opened Common
  import opened Text
  import opened JsonValue

  /** The `max_retries` every stage is called with. */
  const DefaultMaxRetries: int := 3

  /** The transcription `transcribe_audio_with_gemini` substitutes when the
      call fails for good. */
  const AudioFallback: string := "Demonstration fallback: Could not process audio file via API."

  /** What one attempt at the service produced: the text of its response, or
      the message of the exception raised on the way. */
  datatype Reply = Answer(text: string) | Raised(message: string)

  /** How the `for attempt in range(max_retries)` loop was left: a `return`
      of a value, a re-raised exception, or running out of iterations (which
      only happens when `max_retries <= 0`). */
  datatype Exit<T> = Returned(value: T) | Reraised(message: string) | FellThrough

  /** One run of the loop: its exit, the number of attempts it made and the
      seconds it slept, in order. */
  datatype Run<T> = Run(exit: Exit<T>, attempts: nat, waits: seq<nat>)

  /** A failure is retried when its message mentions HTTP 429 or, in any
      letter case, a quota. */
  predicate IsQuotaError(message: string) {
    Contains(message, "429") || Contains(Lower(message), "quota")
  }

  /** Lower-casing works character by character, so it distributes over
      concatenation. */
  lemma LowerOfConcat(a: string, b: string)
    ensures Lower(a + b) == Lower(a) + Lower(b)
  {
  }

  /** Any message holding "429", or "quota" in any mix of letter cases, is
      retried. */
  lemma QuotaMarkersAreRetried(before: string, marker: string, after: string)
    ensures IsQuotaError(before + "429" + after)
    ensures |marker| == 5 && Lower(marker) == "quota" ==> IsQuotaError(before + marker + after)
  {
    ContainsInfix(before, "429", after);
    if |marker| == 5 && Lower(marker) == "quota" {
      LowerOfConcat(before + marker, after);
      LowerOfConcat(before, marker);
      ContainsInfix(Lower(before), "quota", Lower(after));
    }
  }

  /** A message in which "429" occurs nowhere, and "quota" occurs nowhere
      in its lower-cased form, is not retried. */
  lemma OtherMessagesAreNotRetried(message: string)
    requires forall i: nat :: !OccursAt(message, "429", i)
    requires forall i: nat :: !OccursAt(Lower(message), "quota", i)
    ensures !IsQuotaError(message)
  {
    ContainsIffOccurs(message, "429");
    ContainsIffOccurs(Lower(message), "quota");
  }

  /** The retry test in both directions: a message is retried exactly when
      "429" occurs in it or "quota" occurs in its lower-cased form. */
  lemma QuotaErrorIffMarker(message: string)
    ensures IsQuotaError(message) <==>
              (exists i: nat :: OccursAt(message, "429", i))
              || (exists i: nat :: OccursAt(Lower(message), "quota", i))
  {
    ContainsIffOccurs(message, "429");
    ContainsIffOccurs(Lower(message), "quota");
  }

  function Pow2(k: nat): (p: nat)
    ensures p >= 1
  {
    if k == 0 then 1 else 2 * Pow2(k - 1)
  }

  /** Seconds slept after a quota failure on attempt `attempt` (counting from
      0): `(2 ** attempt) * 2 + 7`. */
  function Backoff(attempt: nat): nat {
    Pow2(attempt) * 2 + 7
  }

  /** The waits slept before attempt `k`: one per earlier attempt. */
  function BackoffSchedule(k: nat): (ws: seq<nat>)
    ensures |ws| == k
    ensures forall i :: 0 <= i < k ==> ws[i] == Backoff(i)
  {
    if k == 0 then [] else BackoffSchedule(k - 1) + [Backoff(k - 1)]
  }

  /** The loop from attempt `attempt` on, as a recursive definition. */
  function RetryFrom<T>(call: nat -> Result<T, string>, maxRetries: int, attempt: nat): Run<T>
    decreases maxRetries - attempt
  {
    if attempt >= maxRetries then Run(FellThrough, 0, [])
    else
      match call(attempt)
      case Success(v) => Run(Returned(v), 1, [])
      case Failure(m) =>
        if IsQuotaError(m) && attempt < maxRetries - 1 then
          var rest := RetryFrom(call, maxRetries, attempt + 1);
          Run(rest.exit, rest.attempts + 1, [Backoff(attempt)] + rest.waits)
        else
          Run(Reraised(m), 1, [])
  }

  /** The whole loop. */
  function Retry<T>(call: nat -> Result<T, string>, maxRetries: int): Run<T> {
    RetryFrom(call, maxRetries, 0)
  }

  /** The retry loop itself: try, and on a quota failure that is not the last
      attempt, sleep and go round again; otherwise re-raise. */
  method RunWithRetry<T>(call: nat -> Result<T, string>, maxRetries: int)
    returns (exit: Exit<T>, attempts: nat, waits: seq<nat>)
    ensures Run(exit, attempts, waits) == Retry(call, maxRetries)
  {
    exit, attempts, waits := FellThrough, 0, [];
    var attempt: nat := 0;
    while attempt < maxRetries
      invariant attempts == attempt
      invariant attempt > 0 ==> attempt < maxRetries
      invariant var rest := RetryFrom(call, maxRetries, attempt);
        Retry(call, maxRetries) == Run(rest.exit, attempts + rest.attempts, waits + rest.waits)
      decreases maxRetries - attempt
    {
      attempts := attempts + 1;
      match call(attempt) {
        case Success(v) =>
          exit := Returned(v);
          assert waits + [] == waits;
          return;
        case Failure(m) =>
          if IsQuotaError(m) && attempt < maxRetries - 1 {
            ghost var rest := RetryFrom(call, maxRetries, attempt + 1);
            assert waits + ([Backoff(attempt)] + rest.waits) == (waits + [Backoff(attempt)]) + rest.waits;
            waits := waits + [Backoff(attempt)];
            attempt := attempt + 1;
          } else {
            exit := Reraised(m);
            assert waits + [] == waits;
            return;
          }
      }
    }
    assert waits + [] == waits;
  }

  /** The loop from attempt `a` on, described without recursion. */
  lemma {:induction false} RetryFromShape<T>(call: nat -> Result<T, string>, maxRetries: int, a: nat)
    requires a < maxRetries
    ensures var r := RetryFrom(call, maxRetries, a);
      && 1 <= r.attempts <= maxRetries - a
      && |r.waits| == r.attempts - 1
      && (forall i :: 0 <= i < |r.waits| ==> r.waits[i] == Backoff(a + i))
      && (forall i :: a <= i < a + r.attempts - 1 ==> call(i).Failure? && IsQuotaError(call(i).error))
      && (match call(a + r.attempts - 1)
          case Success(v) => r.exit == Returned(v)
          case Failure(m) => r.exit == Reraised(m) && (!IsQuotaError(m) || a + r.attempts == maxRetries))
    decreases maxRetries - a
  {
    match call(a)
    case Success(v) =>
    case Failure(m) =>
      if IsQuotaError(m) && a < maxRetries - 1 {
        RetryFromShape(call, maxRetries, a + 1);
        var rest := RetryFrom(call, maxRetries, a + 1);
        var r := RetryFrom(call, maxRetries, a);
        assert r.waits == [Backoff(a)] + rest.waits;
        assert forall i :: 1 <= i < |r.waits| ==> r.waits[i] == rest.waits[i - 1];
      }
  }

  /** For `max_retries >= 1` the loop makes between 1 and `max_retries`
      attempts; every attempt but the last was a quota failure followed by
      its backoff; the last one either succeeded (its value is returned), or
      failed for another reason, or was the final allowed attempt (its
      exception is re-raised). With `max_retries <= 0` nothing is attempted. */
  lemma RetryShape<T>(call: nat -> Result<T, string>, maxRetries: int)
    ensures maxRetries <= 0 ==> Retry(call, maxRetries) == Run(FellThrough, 0, [])
    ensures maxRetries >= 1 ==> var r := Retry(call, maxRetries);
      && 1 <= r.attempts <= maxRetries
      && r.waits == BackoffSchedule(r.attempts - 1)
      && (forall i :: 0 <= i < r.attempts - 1 ==> call(i).Failure? && IsQuotaError(call(i).error))
      && (match call(r.attempts - 1)
          case Success(v) => r.exit == Returned(v)
          case Failure(m) => r.exit == Reraised(m) && (!IsQuotaError(m) || r.attempts == maxRetries))
  {
    if maxRetries >= 1 {
      RetryFromShape(call, maxRetries, 0);
      var r := Retry(call, maxRetries);
      assert r.waits == BackoffSchedule(r.attempts - 1);
    }
  }

  /** A failure that is not about quota ends the call after one attempt,
      without sleeping. */
  lemma OtherFailureIsNotRetried<T>(call: nat -> Result<T, string>, maxRetries: int, m: string)
    requires maxRetries >= 1 && call(0) == Failure(m) && !IsQuotaError(m)
    ensures Retry(call, maxRetries) == Run(Reraised(m), 1, [])
  {
  }

  /** Quota failures on attempts 0..k-1 and a success on attempt k < max_retries:
      k + 1 attempts, the successful value, and the waits 9, 11, 15, ... */
  lemma QuotaFailuresThenSuccess<T>(call: nat -> Result<T, string>, maxRetries: int, k: nat, v: T)
    requires k < maxRetries
    requires forall i :: 0 <= i < k ==> call(i).Failure? && IsQuotaError(call(i).error)
    requires call(k) == Success(v)
    ensures Retry(call, maxRetries) == Run(Returned(v), k + 1, BackoffSchedule(k))
  {
    RetryShape(call, maxRetries);
    var r := Retry(call, maxRetries);
    var j := r.attempts - 1;
    assert k >= j;
    assert j >= k;
  }

  /** Quota failures on every allowed attempt: the last one is not retried
      and its exception escapes the loop. */
  lemma QuotaOnLastAttemptIsNotRetried<T>(call: nat -> Result<T, string>, maxRetries: int)
    requires maxRetries >= 1
    requires forall i :: 0 <= i < maxRetries ==> call(i).Failure? && IsQuotaError(call(i).error)
    ensures Retry(call, maxRetries)
      == Run(Reraised(call(maxRetries - 1).error), maxRetries, BackoffSchedule(maxRetries - 1))
  {
    RetryShape(call, maxRetries);
  }

  /** With the default of three attempts the waits are a prefix of 9 s, 11 s. */
  lemma DefaultWaits<T>(call: nat -> Result<T, string>)
    ensures var w := Retry(call, DefaultMaxRetries).waits; w == [] || w == [9] || w == [9, 11]
  {
    RetryShape(call, DefaultMaxRetries);
    assert Backoff(0) == 9 && Backoff(1) == 11;
    assert BackoffSchedule(1) == [9];
    assert BackoffSchedule(2) == [9, 11];
  }

  /** The fence-stripping expression `text.strip().replace("```json", "")
      .replace("```", "")` applied to a response before parsing. */
  function Clean(text: string): string {
    RemoveAll(RemoveAll(Strip(text), "```json"), Fence)
  }

  /** A cleaned response never contains a code fence. */
  lemma CleanRemovesFences(text: string)
    ensures !Contains(Clean(text), Fence)
  {
    NoFenceAfterRemoval(RemoveAll(Strip(text), "```json"));
  }

  /** A body wrapped in a ```json fence comes back unwrapped. */
  lemma CleanUnwrapsFencedBody(body: string)
    requires '`' !in body
    ensures Clean("```json" + body + Fence) == body
  {
    var w := "```json" + body + Fence;
    StripKeepsTrimmed(w);
    assert w[..7] == "```json" && w[7..] == body + Fence;
    RemoveAllSkipsPlainPrefix(body, Fence, "```json");
    assert RemoveAll(w, "```json") == body + Fence;
    RemoveAllSkipsPlainPrefix(body, Fence, Fence);
    assert Fence[..3] == Fence && Fence[3..] == [];
    assert body + [] == body;
  }

  /** A response without backticks or surrounding whitespace is parsed as it
      came. */
  lemma CleanKeepsPlainText(text: string)
    requires '`' !in text
    requires text == [] || (!IsSpace(text[0]) && !IsSpace(text[|text| - 1]))
    ensures Clean(text) == text
  {
    StripKeepsTrimmed(text);
    NoCharNoContains(text, "```json", '`');
    NoCharNoContains(text, Fence, '`');
  }

  /** `if not api_key`: an absent or empty key. */
  predicate HasKey(apiKey: Option<string>) {
    apiKey.Some? && apiKey.value != ""
  }

  /** One attempt of the image, text or report stage: the reply is cleaned
      and decoded; an exception from the service or from the decoder is what
      the `except` clause inspects. */
  function JsonAttempts(reply: nat -> Reply, parse: string -> Result<Json, string>): nat -> Result<Json, string> {
    (i: nat) =>
      match reply(i)
      case Answer(text) => parse(Clean(text))
      case Raised(m) => Failure(m)
  }

  /** One attempt of the audio stage: the response text is returned as it is. */
  function AudioAttempts(reply: nat -> Reply): nat -> Result<string, string> {
    (i: nat) =>
      match reply(i)
      case Answer(text) => Success(text)
      case Raised(m) => Failure(m)
  }

  /** What a stage returned, with the attempts it made and its waits. */
  datatype StageRun<T> = StageRun(result: T, attempts: nat, waits: seq<nat>)

  /** `analyze_image_with_gemini`, `analyze_text_with_gemini` and
      `generate_formal_report_with_gemini`: the decoded reply, or `None` once
      anything is raised (a missing key included) or the loop falls
      through. */
  function JsonStage(apiKey: Option<string>, maxRetries: int, reply: nat -> Reply,
                     parse: string -> Result<Json, string>): StageRun<Option<Json>>
  {
    if !HasKey(apiKey) then StageRun(None, 0, [])
    else
      var r := Retry(JsonAttempts(reply, parse), maxRetries);
      StageRun(if r.exit.Returned? then Some(r.exit.value) else None, r.attempts, r.waits)
  }

  /** `transcribe_audio_with_gemini`: the transcription, the fallback text
      once anything is raised (a missing key included), or `None` if the loop
      falls through. */
  function AudioStage(apiKey: Option<string>, maxRetries: int, reply: nat -> Reply): StageRun<Option<string>> {
    if !HasKey(apiKey) then StageRun(Some(AudioFallback), 0, [])
    else
      var r := Retry(AudioAttempts(reply), maxRetries);
      match r.exit
      case Returned(t) => StageRun(Some(t), r.attempts, r.waits)
      case Reraised(_) => StageRun(Some(AudioFallback), r.attempts, r.waits)
      case FellThrough => StageRun(None, r.attempts, r.waits)
  }

  /** The image, text and report stages: check the key, run the loop, turn
      any exception into `None`. */
  method CallJsonStage(apiKey: Option<string>, maxRetries: int, reply: nat -> Reply,
                       parse: string -> Result<Json, string>)
    returns (result: Option<Json>, attempts: nat, waits: seq<nat>)
    ensures StageRun(result, attempts, waits) == JsonStage(apiKey, maxRetries, reply, parse)
  {
    if !HasKey(apiKey) {
      return None, 0, [];
    }
    var exit;
    exit, attempts, waits := RunWithRetry(JsonAttempts(reply, parse), maxRetries);
    result := if exit.Returned? then Some(exit.value) else None;
  }

  /** The audio stage: check the key, run the loop, substitute the fallback
      for any exception. */
  method CallAudioStage(apiKey: Option<string>, maxRetries: int, reply: nat -> Reply)
    returns (result: Option<string>, attempts: nat, waits: seq<nat>)
    ensures StageRun(result, attempts, waits) == AudioStage(apiKey, maxRetries, reply)
  {
    if !HasKey(apiKey) {
      return Some(AudioFallback), 0, [];
    }
    var exit;
    exit, attempts, waits := RunWithRetry(AudioAttempts(reply), maxRetries);
    match exit {
      case Returned(t) => result := Some(t);
      case Reraised(_) => result := Some(AudioFallback);
      case FellThrough => result := None;
    }
  }

  /** Without a key no attempt is made: the JSON stages give `None` and the
      audio stage its fallback text. */
  lemma MissingKeyMakesNoAttempt(apiKey: Option<string>, maxRetries: int, reply: nat -> Reply,
                                 parse: string -> Result<Json, string>)
    requires !HasKey(apiKey)
    ensures JsonStage(apiKey, maxRetries, reply, parse) == StageRun(None, 0, [])
    ensures AudioStage(apiKey, maxRetries, reply) == StageRun(Some(AudioFallback), 0, [])
  {
  }

  /** The loop returns a value exactly when its last attempt succeeded, and
      that attempt's value is the one returned. */
  lemma LastAttemptDecides<T>(call: nat -> Result<T, string>, maxRetries: int)
    requires maxRetries >= 1
    ensures var r := Retry(call, maxRetries);
      && 1 <= r.attempts <= maxRetries
      && r.waits == BackoffSchedule(r.attempts - 1)
      && (r.exit.Returned? <==> call(r.attempts - 1).Success?)
      && (r.exit.Returned? ==> r.exit.value == call(r.attempts - 1).value)
  {
    RetryShape(call, maxRetries);
  }

  /** What a single reply decodes to: a value when the service answered and
      the cleaned text parses, nothing otherwise. */
  function Decoded(r: Reply, parse: string -> Result<Json, string>): Option<Json> {
    match r
    case Raised(_) => None
    case Answer(text) =>
      var p := parse(Clean(text));
      if p.Success? then Some(p.value) else None
  }

  /** A JSON stage yields exactly what its last attempt's reply decodes to:
      a value when the service answered with text that, once cleaned,
      parses; `None` after a terminal failure. */
  lemma JsonStageResult(apiKey: Option<string>, maxRetries: int, reply: nat -> Reply,
                        parse: string -> Result<Json, string>)
    requires HasKey(apiKey) && maxRetries >= 1
    ensures var s := JsonStage(apiKey, maxRetries, reply, parse);
      && 1 <= s.attempts <= maxRetries
      && s.waits == BackoffSchedule(s.attempts - 1)
      && s.result == Decoded(reply(s.attempts - 1), parse)
  {
    var call := JsonAttempts(reply, parse);
    LastAttemptDecides(call, maxRetries);
    var r := Retry(call, maxRetries);
    var k := r.attempts - 1;
    JsonAttemptOutcome(reply, parse, k);
    var s := JsonStage(apiKey, maxRetries, reply, parse);
    assert s == StageRun(if r.exit.Returned? then Some(r.exit.value) else None, r.attempts, r.waits);
    if r.exit.Returned? {
      assert r.exit.value == call(k).value == Decoded(reply(k), parse).value;
    }
  }

  /** What one attempt of a JSON stage yields. */
  lemma JsonAttemptOutcome(reply: nat -> Reply, parse: string -> Result<Json, string>, k: nat)
    ensures JsonAttempts(reply, parse)(k).Success? <==> Decoded(reply(k), parse).Some?
    ensures JsonAttempts(reply, parse)(k).Success?
      ==> JsonAttempts(reply, parse)(k).value == Decoded(reply(k), parse).value
  {
  }

  /** A first reply of ```json-fenced JSON is decoded on the first attempt. */
  lemma FencedReplyDecodedAtOnce(apiKey: Option<string>, maxRetries: int, reply: nat -> Reply,
                                 parse: string -> Result<Json, string>, body: string, v: Json)
    requires HasKey(apiKey) && maxRetries >= 1
    requires '`' !in body && reply(0) == Answer("```json" + body + Fence) && parse(body) == Success(v)
    ensures JsonStage(apiKey, maxRetries, reply, parse) == StageRun(Some(v), 1, [])
  {
    CleanUnwrapsFencedBody(body);
    var call := JsonAttempts(reply, parse);
    assert call(0) == Success(v);
  }

  /** With a key and at least one attempt, the audio stage yields the text of
      the last reply when the service answered it, and the fallback text when
      that attempt raised; the waits are the backoff schedule. */
  lemma AudioStageResult(apiKey: Option<string>, maxRetries: int, reply: nat -> Reply)
    requires HasKey(apiKey) && maxRetries >= 1
    ensures var s := AudioStage(apiKey, maxRetries, reply);
      && 1 <= s.attempts <= maxRetries
      && s.waits == BackoffSchedule(s.attempts - 1)
      && (reply(s.attempts - 1).Answer? ==> s.result == Some(reply(s.attempts - 1).text))
      && (reply(s.attempts - 1).Raised? ==> s.result == Some(AudioFallback))
  {
    var call := AudioAttempts(reply);
    LastAttemptDecides(call, maxRetries);
    RetryShape(call, maxRetries);
    var k := Retry(call, maxRetries).attempts - 1;
    assert call(k) == match reply(k)
      case Answer(text) => Success(text)
      case Raised(m) => Failure(m);
  }

  /** With at least one attempt allowed the audio stage always yields a
      transcription (possibly the fallback text); only `max_retries <= 0`
      makes it yield `None`. */
  lemma AudioStageDegrades(apiKey: Option<string>, maxRetries: int, reply: nat -> Reply)
    ensures AudioStage(apiKey, maxRetries, reply).result.None? <==> (HasKey(apiKey) && maxRetries <= 0)
    ensures var s := AudioStage(apiKey, maxRetries, reply);
      s.result == Some(AudioFallback) <== (!HasKey(apiKey) || (maxRetries >= 1
        && reply(s.attempts - 1).Raised?))
  {
    var call := AudioAttempts(reply);
    RetryShape(call, maxRetries);
    if HasKey(apiKey) && maxRetries >= 1 {
      var k := Retry(call, maxRetries).attempts - 1;
      assert call(k) == match reply(k)
        case Answer(text) => Success(text)
        case Raised(m) => Failure(m);
    }
  }
}
