/** How an answer of the server becomes an HTTP reply, and how the Agent classifies any reply. */
module Transport {
  import opened Prelude
  import opened Text
  import opened Decimal
  import opened Ingest
  import Admission

  const INT64_LIMIT: int := 0x8000_0000_0000_0000

  /** The JSON fields of a reply that the Agent looks at; absent fields are empty. */
  datatype Body = Body(valid: bool, batchId: string, status: string, errorCode: string, code: string)

  datatype HttpReply = HttpReply(status: int, retryAfter: string, body: Body)

  datatype Class = Accepted | Duplicate | Retryable | Quarantine | Terminal | Blocked

  datatype SendResult = SendResult(kind: Class, status: int, retryAfter: int, code: string)

  // ---- the server's side

  /** mapError: status and code. */
  function StatusOf(f: Failure): (int, string) {
    match f
    case ScopeDenied => (403, "scope_denied")
    case ProjectMismatch => (403, "tenant_mismatch")
    case AgentMismatch => (403, "tenant_mismatch")
    case NotFound => (404, "not_found")
    case IdempotencyConflict => (409, "idempotency_conflict")
    case ProjectDisabled => (409, "resource_unavailable")
    case AgentDisabled => (409, "resource_unavailable")
    case PipelineUnavailable => (409, "resource_unavailable")
    case CapacityExceeded => (413, "admission_capacity_exceeded")
    case RateLimited(_) => (429, "rate_limited")
    case Invalid => (400, "invalid_request")
    case Internal => (500, "internal_error")
  }

  function Render(r: Response): HttpReply {
    match r
    case Accepted(id, _) => HttpReply(200, "", Body(true, id, "accepted", "", ""))
    case Duplicate(id, _) => HttpReply(200, "", Body(true, id, "duplicate", "", ""))
    case Refused(f) =>
      var header := if f.RateLimited? then Itoa(Admission.RetryHeader(f.retryAfter)) else "";
      HttpReply(StatusOf(f).0, header, Body(true, "", "", StatusOf(f).1, ""))
  }

  // ---- the Agent's side

  /** A product of int64 values, as the machine keeps it. */
  function Wrap64(n: int): int {
    var m := n % (2 * INT64_LIMIT);
    if m < INT64_LIMIT then m else m - 2 * INT64_LIMIT
  }

  /** parseRetryAfter; `date` reads an HTTP date. */
  function ParseRetryAfter(value: string, now: int, date: string -> Option<int>): int {
    var trimmed := TrimSpace(value);
    var seconds := Atoi(trimmed);
    if trimmed == "" then 0
    else if seconds.Some? && -INT64_LIMIT <= seconds.value < INT64_LIMIT then
      if seconds.value <= 0 then 0 else Wrap64(seconds.value * Admission.SECOND)
    else if date(trimmed).None? || date(trimmed).value <= now then 0
    else date(trimmed).value - now
  }

  function ClassifySuccess(id: string, b: Body): (Class, string) {
    if !b.valid then (Retryable, "invalid_ack")
    else if b.batchId != id then (Retryable, "invalid_ack_batch_id")
    else if b.status == "accepted" then (Class.Accepted, "")
    else if b.status == "duplicate" then (Class.Duplicate, "")
    else (Retryable, "invalid_ack_status")
  }

  function FailureCode(b: Body): string {
    if !b.valid then "" else if b.errorCode == "" then b.code else b.errorCode
  }

  function ClassifyFailure(status: int, code: string): Class {
    if status == 408 || status == 429 || status >= 500 then Retryable
    else if status == 409 && code == "resource_unavailable" then Blocked
    else if status == 400 || status == 409 || status == 413 || status == 422 then Quarantine
    else Terminal
  }

  /** Send, after the request went out: `id` is the batch id of the payload that was sent. */
  function Classify(id: string, reply: HttpReply, now: int, date: string -> Option<int>): SendResult {
    var wait := ParseRetryAfter(reply.retryAfter, now, date);
    if 200 <= reply.status < 300 then
      var (kind, code) := ClassifySuccess(id, reply.body);
      SendResult(kind, reply.status, wait, code)
    else
      var code := FailureCode(reply.body);
      SendResult(ClassifyFailure(reply.status, code), reply.status, wait, code)
  }

  // ---- both sides together

  /** The Agent takes a reply as an acknowledgement only if it names the batch that was sent. */
  lemma AcknowledgementsNameTheBatch(id: string, reply: HttpReply, now: int, date: string -> Option<int>)
    ensures var c := Classify(id, reply, now, date).kind;
            (c.Accepted? || c.Duplicate?)
            <==> 200 <= reply.status < 300 && reply.body.valid && reply.body.batchId == id
                 && reply.body.status in ["accepted", "duplicate"]
    ensures Classify(id, reply, now, date).kind.Quarantine? ==> 400 <= Classify(id, reply, now, date).status
  {
    hide ParseRetryAfter;
  }

  /**
    How any reply is classified, wherever it comes from: only a success that names the batch acknowledges;
    time-outs, rate limits and server errors are retried, as are successes that cannot be read; a conflict
    over a disabled resource waits; what is wrong with the batch itself is quarantined; all else is final.
  */
  lemma ReplyClassified(id: string, reply: HttpReply, now: int, date: string -> Option<int>)
    ensures var r, s, b := Classify(id, reply, now, date), reply.status, reply.body;
            var success, named := 200 <= s <= 299, b.valid && b.batchId == id;
            var code := if !b.valid then "" else if b.errorCode != "" then b.errorCode else b.code;
            && r.status == s && r.retryAfter == ParseRetryAfter(reply.retryAfter, now, date)
            && (r.kind.Accepted? <==> success && named && b.status == "accepted")
            && (r.kind.Duplicate? <==> success && named && b.status == "duplicate")
            && (r.kind.Retryable? <==>
                  || s == 408 || s == 429 || s >= 500
                  || (success && !(named && (b.status == "accepted" || b.status == "duplicate"))))
            && (r.kind.Blocked? <==> s == 409 && code == "resource_unavailable")
            && (r.kind.Quarantine? <==> s == 400 || s == 413 || s == 422 || (s == 409 && code != "resource_unavailable"))
            && (r.kind.Terminal? <==>
                  s < 200 || 300 <= s < 400 || (400 <= s < 500 && s !in {400, 408, 409, 413, 422, 429}))
            && (!success ==> r.code == code)
  {
    hide ParseRetryAfter;
  }

  /** The status of a refusal tells its kind, and only a rate limit says how long to wait. */
  lemma StatusTells(f: Failure)
    ensures var reply := Render(Refused(f));
            && (reply.status == 403 <==> f.ScopeDenied? || f.ProjectMismatch? || f.AgentMismatch?)
            && (reply.status == 404 <==> f.NotFound?)
            && (reply.status == 409 <==> f.IdempotencyConflict? || f.ProjectDisabled? || f.AgentDisabled? || f.PipelineUnavailable?)
            && (reply.body.errorCode == "resource_unavailable" <==> f.ProjectDisabled? || f.AgentDisabled? || f.PipelineUnavailable?)
            && (reply.status == 413 <==> f.CapacityExceeded?) && (reply.status == 429 <==> f.RateLimited?)
            && (reply.status == 400 <==> f.Invalid?) && (reply.status == 500 <==> f.Internal?)
            && (reply.retryAfter != "" <==> f.RateLimited?)
  {
    hide Itoa, Admission.RetryHeader;
    if f.RateLimited? { ItoaSomething(Admission.RetryHeader(f.retryAfter)); }
  }

  lemma ItoaSomething(n: int)
    ensures Itoa(n) != ""
  {}

  /** A header that is no number is a date: the time until then, or none when it has passed or cannot be read. */
  lemma DateReadExactly(value: string, now: int, date: string -> Option<int>)
    requires TrimSpace(value) != "" && Atoi(TrimSpace(value)).None?
    ensures var at := date(TrimSpace(value));
            ParseRetryAfter(value, now, date) == if at.Some? && at.value > now then at.value - now else 0
  {
    hide TrimSpace, Atoi;
  }

  /** What the Agent makes of every answer that Accept can give to the batch it sent. */
  lemma AnswersClassified(id: string, r: Response, now: int, date: string -> Option<int>)
    requires r.Refused? || r.id == id
    ensures var c := Classify(id, Render(r), now, date).kind;
            && (c.Accepted? <==> r.Accepted?)
            && (c.Duplicate? <==> r.Duplicate?)
            && (c.Retryable? <==> r.Refused? && (r.failure.RateLimited? || r.failure.Internal?))
            && (c.Blocked? <==> r.Refused? && (r.failure.ProjectDisabled? || r.failure.AgentDisabled? || r.failure.PipelineUnavailable?))
            && (c.Quarantine? <==> r.Refused? && (r.failure.Invalid? || r.failure.CapacityExceeded? || r.failure.IdempotencyConflict?))
  {
    hide ParseRetryAfter, Itoa, Admission.RetryHeader;
  }

  lemma DigitsNotSpace(c: char)
    requires IsDigit(c)
    ensures !IsSpace(c)
  {}

  lemma TrimItoa(n: nat)
    ensures TrimSpace(Itoa(n)) == Itoa(n) != ""
  {
    var s := Itoa(n);
    DigitsNotSpace(s[0]);
    DigitsNotSpace(s[|s| - 1]);
    hide IsSpace, Digits;
    assert TrimLeft(s) == s;
    assert TrimRight(s) == s;
  }

  /** The most seconds whose nanoseconds an int64 holds. */
  const MOST_SECONDS: int := 9_223_372_036

  /**
    What the Agent makes of a header in whole seconds, for every number. It is read as it is written
    exactly up to MOST_SECONDS; beyond, the product wraps around, and the result is negative exactly
    when the wrapped product has its highest bit. What an int64 cannot hold is not read as a number.
  */
  lemma HeaderReadExactly(n: nat, now: int, date: string -> Option<int>)
    ensures var read := ParseRetryAfter(Itoa(n), now, date);
            && (n < INT64_LIMIT ==>
                  && (read == n * Admission.SECOND <==> n <= MOST_SECONDS)
                  && (read < 0 <==> n * Admission.SECOND % (2 * INT64_LIMIT) >= INT64_LIMIT))
            && (n >= INT64_LIMIT && date(Itoa(n)).None? ==> read == 0)
  {
    hide Itoa, Atoi, TrimSpace;
    TrimItoa(n);
    AtoiItoa(n);
  }

  /** Both sides of the boundary, and a larger header that wraps to a wait that is too short but positive. */
  lemma RetryAfterWraps(now: int, date: string -> Option<int>)
    ensures ParseRetryAfter(Itoa(MOST_SECONDS), now, date) == MOST_SECONDS * Admission.SECOND
    ensures ParseRetryAfter(Itoa(MOST_SECONDS + 1), now, date) < 0
    ensures 0 < ParseRetryAfter(Itoa(18_446_744_074), now, date) < Admission.SECOND
  {
    hide Itoa, Atoi, TrimSpace;
    TrimItoa(MOST_SECONDS);
    AtoiItoa(MOST_SECONDS);
    TrimItoa(MOST_SECONDS + 1);
    AtoiItoa(MOST_SECONDS + 1);
    TrimItoa(18_446_744_074);
    AtoiItoa(18_446_744_074);
  }

  /**
    The wait that the limiter asks for, rounded up to whole seconds by the server and read back by the
    Agent, is never shorter and less than a second longer, exactly if it is at most MOST_SECONDS.
  */
  lemma RetryAfterSurvives(wait: int, now: int, date: string -> Option<int>)
    requires 0 < wait && Admission.RetryHeader(wait) < INT64_LIMIT
    ensures var read := ParseRetryAfter(Render(Refused(RateLimited(wait))).retryAfter, now, date);
            wait <= read < wait + Admission.SECOND <==> wait <= MOST_SECONDS * Admission.SECOND
  {
    hide Itoa, Atoi, TrimSpace, ParseRetryAfter, Admission.RetryHeader;
    Admission.HeaderNeverShorter(wait);
    var seconds := Admission.RetryHeader(wait);
    HeaderReadExactly(seconds, now, date);
    if seconds > MOST_SECONDS { WrappedIsShort(seconds, now, date); }
  }

  /** A header that wraps is read as less than an int64 can hold, and so as less than was asked for. */
  lemma WrappedIsShort(n: nat, now: int, date: string -> Option<int>)
    requires MOST_SECONDS < n < INT64_LIMIT
    ensures ParseRetryAfter(Itoa(n), now, date) <= (n - 1) * Admission.SECOND
  {
    hide Itoa, Atoi, TrimSpace;
    TrimItoa(n);
    AtoiItoa(n);
    assert Wrap64(n * Admission.SECOND) < INT64_LIMIT;
  }
}
