/**
 * The exception/response auditor middleware
 * (apps/common/middleware/exception_response_auditor.py).
 *
 * Per request it first checks the auto-answer rule: once an IP has collected
 * four 403 responses (the counter lives three hours from the last one), the
 * request is answered with status 444 without reaching the downstream handler.
 * Otherwise the downstream handler runs; an exception is classified into a
 * 400/403/404/500 page, and a response whose status is not 200, 301 or 302 is
 * audited: a 403 bumps the IP's counter, and every audited response goes into
 * a summary buffer that is flushed to the log at 200 events or when it is
 * more than twelve hours old.
 *
 * The cache is two fields of the auditor (the counters and the summary entry)
 * with explicit expiry times; an entry is live while `now <= expiresAt`. The
 * clock is the parameter `now`, in seconds. The request attributes set by the
 * real-IP middleware are plain fields, already rendered as the f-strings and
 * the log context render them.
 */
module ResponseAuditor {
  import opened Wrappers
  import opened Strings
  import opened AuditSummary

  const SafeStatusCodes: set<int> := {200, 301, 302}
  const SummaryLimit: nat := 200
  const SummaryTtl: int := 60 * 60 * 12

  /** The single entry of `AUTO_ANSWER_RULES`: slug "response_403", not shared across IPs. */
  const ForbiddenSlug: string := "response_403"
  const AutoAnswerLimit: int := 4
  const AutoAnswerTimeout: int := 60 * 60 * 3
  const AnswerCode: int := 444

  datatype Request = Request(
    realIp: string,
    obscuredIp: string,
    path: string,
    httpMethod: string,
    userAgent: string,
    referer: string)

  /** A cache entry and the time after which the cache no longer returns it. */
  datatype Entry<T> = Entry(value: T, expiresAt: int)

  // ------------------------------------------------------------ counters

  /** `f"auto-answer:{slug}:{ip_key}"` for the 403 rule, whose `ip_all` is false. */
  function CounterKey(ip: string): (k: string)
    ensures StartsWith(k, "auto-answer:response_403:")
  {
    "auto-answer:" + ForbiddenSlug + ":" + ip
  }

  lemma CounterKeyInjective(a: string, b: string)
    requires CounterKey(a) == CounterKey(b)
    ensures a == b
  {
    var n := |"auto-answer:response_403:"|;
    assert a == CounterKey(a)[n..];
    assert b == CounterKey(b)[n..];
  }

  /** `cache.get(key) or 0`. */
  function CounterValue(counters: map<string, Entry<int>>, key: string, now: int): int {
    if key in counters && now <= counters[key].expiresAt then counters[key].value else 0
  }

  /** `cache.set(key, (cache.get(key) or 0) + 1, timeout=3h)`. */
  function Bumped(counters: map<string, Entry<int>>, key: string, now: int): (r: map<string, Entry<int>>)
    ensures forall t :: now <= t <= now + AutoAnswerTimeout ==>
      CounterValue(r, key, t) == CounterValue(counters, key, now) + 1
    ensures forall k, t :: k != key ==> CounterValue(r, k, t) == CounterValue(counters, k, t)
  {
    counters[key := Entry(CounterValue(counters, key, now) + 1, now + AutoAnswerTimeout)]
  }

  /** The auto-answer fires for this request. */
  predicate Blocked(counters: map<string, Entry<int>>, req: Request, now: int) {
    CounterValue(counters, CounterKey(req.realIp), now) >= AutoAnswerLimit
  }

  /**
   * Four 403 responses to one IP, each within three hours of the previous one, block that
   * IP for the next three hours.
   */
  lemma FourForbiddenBlock(ip: string, t0: int, t1: int, t2: int, t3: int, now: int)
    requires t0 <= t1 <= t0 + AutoAnswerTimeout
    requires t1 <= t2 <= t1 + AutoAnswerTimeout
    requires t2 <= t3 <= t2 + AutoAnswerTimeout
    requires t3 <= now <= t3 + AutoAnswerTimeout
    ensures var key := CounterKey(ip);
      var c := Bumped(Bumped(Bumped(Bumped(map[], key, t0), key, t1), key, t2), key, t3);
      CounterValue(c, key, now) == 4
  {
  }

  // ------------------------------------------------------------ slugs and events

  /** `f"response_{status}"`. */
  function ResponseSlug(status: int): string {
    "response_" + IntToString(status)
  }

  /** Only a 403 response has the slug of the auto-answer rule. */
  lemma ResponseSlugForbiddenIff(status: int)
    ensures ResponseSlug(status) == ForbiddenSlug <==> status == 403
  {
    assert IntToString(403) == "403" by {
      assert NatToString(403) == NatToString(40) + ['3'];
      assert NatToString(40) == NatToString(4) + ['0'];
    }
    if ResponseSlug(status) == ForbiddenSlug {
      assert IntToString(status) == ResponseSlug(status)[9..];
      IntToStringInjective(status, 403);
    }
  }

  /** The logging context of an audited response. */
  function AuditEvent(req: Request, status: int, now: int): (e: Event)
    ensures e.slug == ResponseSlug(status) && e.status == status && e.ip == req.obscuredIp
  {
    Event(ResponseSlug(status), req.obscuredIp, status, req.httpMethod, req.userAgent, req.referer,
          req.path, now)
  }

  /** The logging context of an auto-answer: slug "auto_answer_response_403", status 444. */
  function AutoAnswerEvent(req: Request, now: int): (e: Event)
    ensures StartsWith(e.slug, "auto_answer_") && e.status == AnswerCode && e.ip == req.obscuredIp
  {
    Event("auto_answer_" + ForbiddenSlug, req.obscuredIp, AnswerCode, req.httpMethod, req.userAgent,
          req.referer, req.path, now)
  }

  // ------------------------------------------------------------ the summary buffer

  datatype Buffer = Buffer(events: seq<Event>, startTs: int)

  /** `cache.get(SUMMARY_CACHE_KEY) or {"events": [], "start_ts": time.time()}`. */
  function ReadBuffer(stored: Option<Entry<Buffer>>, now: int): Buffer {
    if stored.Some? && now <= stored.value.expiresAt then stored.value.value else Buffer([], now)
  }

  predicate ShouldFlush(b: Buffer, now: int) {
    now - b.startTs > SummaryTtl || |b.events| >= SummaryLimit
  }

  /** What one recorded event leaves: the buffer to store back, and the report logged, if any. */
  datatype Step = Step(buffer: Buffer, report: Option<Report>)

  /** Append the event; flush and restart the buffer when it is full or too old. */
  function AfterEvent(stored: Option<Entry<Buffer>>, e: Event, now: int): (r: Step)
    ensures var b := ReadBuffer(stored, now);
      && (r.report.Some? <==> ShouldFlush(Buffer(b.events + [e], b.startTs), now))
      && (r.report.Some? ==> r.buffer == Buffer([], now) && r.report.value.total == |b.events| + 1)
      && (r.report.None? ==> r.buffer.events == b.events + [e])
    ensures |ReadBuffer(stored, now).events| < SummaryLimit ==> |r.buffer.events| < SummaryLimit
  {
    var b := ReadBuffer(stored, now);
    var appended := Buffer(b.events + [e], b.startTs);
    if ShouldFlush(appended, now) then Step(Buffer([], now), Summarise(appended.events))
    else Step(appended, None)
  }

  function ReportList(r: Option<Report>): seq<Report> {
    if r.Some? then [r.value] else []
  }

  /**
   * Nothing flushes a buffer that sees no event for twelve hours: the cache entry expires
   * with it, and the next event starts a new buffer without its predecessors being reported.
   */
  lemma IdleBufferIsDropped(stored: Option<Entry<Buffer>>, e: Event, now: int)
    requires stored.Some? && now > stored.value.expiresAt
    ensures AfterEvent(stored, e, now) == Step(Buffer([e], now), None)
  {
  }

  // ------------------------------------------------------------ exceptions

  datatype ExceptionKind =
    | ValidationError | SuspiciousOperation | RequestDataTooBig | FieldDoesNotExist
    | DisallowedHost | DisallowedRedirect | BadRequest
    | PermissionDenied | Http404 | OtherException(name: string)

  predicate ValidationFamily(exc: ExceptionKind) {
    exc.ValidationError? || exc.SuspiciousOperation? || exc.RequestDataTooBig? || exc.FieldDoesNotExist?
    || exc.DisallowedHost? || exc.DisallowedRedirect? || exc.BadRequest?
  }

  datatype Classification = Classification(code: int, reason: string)

  /** The classification of `_handle_exception`. */
  function Classify(exc: ExceptionKind): (c: Classification)
    ensures c.code in {400, 403, 404, 500}
    ensures c.code == 400 <==> ValidationFamily(exc)
    ensures c.code == 403 <==> exc.PermissionDenied?
    ensures c.code == 404 <==> exc.Http404?
    ensures c.code == 500 <==> exc.OtherException?
  {
    if ValidationFamily(exc) then Classification(400, "Bad Request")
    else if exc.PermissionDenied? then Classification(403, "Forbidden")
    else if exc.Http404? then Classification(404, "Not Found")
    else Classification(500, "Internal Server Error")
  }

  const TemplateByCode: map<int, string> :=
    map[400 := "400.html", 403 := "403.html", 404 := "404.html", 500 := "500.html"]

  /** `TEMPLATE_BY_CODE.get(code, "500.html")`. */
  function TemplateFor(code: int): string {
    if code in TemplateByCode then TemplateByCode[code] else "500.html"
  }

  datatype Body = Rendered(template: string) | PlainText(text: string)

  datatype Response =
    | Passed(status: int)              // the downstream handler's response
    | AutoAnswered(status: int)        // `HttpResponse(status=444)`
    | ExceptionPage(status: int, body: Body)

  /**
   * `_handle_exception`: the page for the exception's code, or the plain text
   * "<code> <reason>" when the template does not exist.
   */
  function HandleException(exc: ExceptionKind, templates: set<string>): (r: Response)
    ensures r.ExceptionPage? && r.status == Classify(exc).code
    ensures r.body.Rendered? <==> IntToString(r.status) + ".html" in templates
    ensures r.body.PlainText? ==> r.body.text == IntToString(r.status) + " " + Classify(exc).reason
  {
    var c := Classify(exc);
    TemplateNames(c.code);
    var template := TemplateFor(c.code);
    if template in templates then ExceptionPage(c.code, Rendered(template))
    else ExceptionPage(c.code, PlainText(IntToString(c.code) + " " + c.reason))
  }

  lemma TemplateNames(code: int)
    requires code in {400, 403, 404, 500}
    ensures TemplateFor(code) == IntToString(code) + ".html"
  {
    ThreeDigits(code);
  }

  /** The decimal text of a three-digit number. */
  lemma ThreeDigits(n: nat)
    requires 100 <= n < 1000
    ensures NatToString(n) == [DigitChar(n / 100), DigitChar(n / 10 % 10), DigitChar(n % 10)]
  {
    assert n / 10 / 10 == n / 100;
    assert NatToString(n / 10) == [DigitChar(n / 100), DigitChar(n / 10 % 10)];
  }

  /**
   * What the downstream handler did: respond with a status, or raise. `Raised` also
   * stands for a view exception that `process_exception` turns into a page: that path
   * marks the request as logged, so its response is not audited either.
   */
  datatype Outcome = Responded(status: int) | Raised(exc: ExceptionKind)

  // ------------------------------------------------------------ the middleware

  class Auditor {
    /** The auto-answer counters, by cache key. */
    var counters: map<string, Entry<int>>
    /** The "audit-summary" cache entry. */
    var summary: Option<Entry<Buffer>>
    /** The summaries logged at warning level, oldest first. */
    var reports: seq<Report>

    ghost predicate Valid()
      reads this
    {
      summary.Some? ==> |summary.value.value.events| < SummaryLimit
    }

    constructor ()
      ensures Valid() && counters == map[] && summary.None? && reports == []
    {
      counters := map[];
      summary := None;
      reports := [];
    }

    /** Lines 91-100 and 162-171: append, maybe flush, store back with a fresh 12-hour timeout. */
    method RecordEvent(e: Event, now: int)
      requires Valid()
      modifies this
      ensures Valid()
      ensures summary == Some(Entry(AfterEvent(old(summary), e, now).buffer, now + SummaryTtl))
      ensures reports == old(reports) + ReportList(AfterEvent(old(summary), e, now).report)
      ensures counters == old(counters)
    {
      var data := ReadBuffer(summary, now);
      data := Buffer(data.events + [e], data.startTs);
      var timePassed := now - data.startTs > SummaryTtl;
      var enoughEvents := |data.events| >= SummaryLimit;
      if timePassed || enoughEvents {
        var report := FlushSummary(data.events);
        reports := reports + [report.value];
        data := Buffer([], now);
      }
      summary := Some(Entry(data, now + SummaryTtl));
    }

    /** `_check_auto_answer`: Some(444) when the request's IP has reached the limit. */
    method CheckAutoAnswer(req: Request, now: int) returns (answer: Option<int>)
      requires Valid()
      modifies this
      ensures Valid()
      ensures answer.Some? <==> Blocked(old(counters), req, now)
      ensures answer.Some? ==> answer.value == AnswerCode
      ensures counters == old(counters)
      ensures answer.Some? ==>
        && summary == Some(Entry(AfterEvent(old(summary), AutoAnswerEvent(req, now), now).buffer, now + SummaryTtl))
        && reports == old(reports) + ReportList(AfterEvent(old(summary), AutoAnswerEvent(req, now), now).report)
      ensures answer.None? ==> summary == old(summary) && reports == old(reports)
    {
      var key := CounterKey(req.realIp);
      var count := CounterValue(counters, key, now);
      if count >= AutoAnswerLimit {
        var ctx := AutoAnswerEvent(req, now);
        RecordEvent(ctx, now);
        return Some(AnswerCode);
      }
      return None;
    }

    /** `_audit_response`. */
    method AuditResponse(req: Request, status: int, now: int)
      requires Valid()
      modifies this
      ensures Valid()
      ensures status in SafeStatusCodes ==>
        counters == old(counters) && summary == old(summary) && reports == old(reports)
      ensures status !in SafeStatusCodes ==>
        && counters == (if status == 403 then Bumped(old(counters), CounterKey(req.realIp), now)
                        else old(counters))
        && summary == Some(Entry(AfterEvent(old(summary), AuditEvent(req, status, now), now).buffer,
                                 now + SummaryTtl))
        && reports == old(reports) + ReportList(AfterEvent(old(summary), AuditEvent(req, status, now), now).report)
    {
      if status in SafeStatusCodes {
        return;
      }
      var slug := ResponseSlug(status);
      var ctx := AuditEvent(req, status, now);
      ResponseSlugForbiddenIff(status);
      if slug == ForbiddenSlug {
        var key := CounterKey(req.realIp);
        var count := CounterValue(counters, key, now) + 1;
        counters := counters[key := Entry(count, now + AutoAnswerTimeout)];
      }
      RecordEvent(ctx, now);
    }

    /**
     * `__call__`. An auto-answer never reaches the downstream handler; an exception
     * from it is turned into an error page and not audited; a response is audited.
     */
    method Call(req: Request, outcome: Outcome, templates: set<string>, now: int) returns (resp: Response)
      requires Valid()
      modifies this
      ensures Valid()
      ensures Blocked(old(counters), req, now) ==>
        && resp == AutoAnswered(AnswerCode)
        && counters == old(counters)
        && summary == Some(Entry(AfterEvent(old(summary), AutoAnswerEvent(req, now), now).buffer, now + SummaryTtl))
        && reports == old(reports) + ReportList(AfterEvent(old(summary), AutoAnswerEvent(req, now), now).report)
      ensures !Blocked(old(counters), req, now) && outcome.Raised? ==>
        && resp == HandleException(outcome.exc, templates)
        && counters == old(counters) && summary == old(summary) && reports == old(reports)
      ensures !Blocked(old(counters), req, now) && outcome.Responded? ==>
        && resp == Passed(outcome.status)
        && counters == (if outcome.status == 403 then Bumped(old(counters), CounterKey(req.realIp), now)
                        else old(counters))
        && (outcome.status in SafeStatusCodes ==> summary == old(summary) && reports == old(reports))
        && (outcome.status !in SafeStatusCodes ==>
              var after := AfterEvent(old(summary), AuditEvent(req, outcome.status, now), now);
              && summary == Some(Entry(after.buffer, now + SummaryTtl))
              && reports == old(reports) + ReportList(after.report))
    {
      var autoAnswer := CheckAutoAnswer(req, now);
      if autoAnswer.Some? {
        return AutoAnswered(autoAnswer.value);
      }
      match outcome
      case Raised(exc) =>
        resp := HandleException(exc, templates);
      case Responded(status) =>
        AuditResponse(req, status, now);
        resp := Passed(status);
    }
  }
}
