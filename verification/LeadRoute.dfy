/** The lead submission endpoint: it names the client, applies the rate
    limit, screens the honeypot, validates the form, builds the lead record,
    hands it to the notification and CRM deliveries, and answers every path
    with a JSON response. */
module LeadRoute {
  import opened Json
  import opened Validators
  import opened RateLimiting

  // ---------------------------------------------------------------------------
  // The client address

  /** The request headers the endpoint reads; a header that is not sent is
      None. */
  datatype Headers = Headers(forwardedFor: Option<string>, realIp: Option<string>, userAgent: Option<string>)

  /** The text before the first comma, or all of it when there is none. */
  function FirstSegment(s: string): (r: string)
    ensures r <= s
    ensures ',' !in r
    ensures r == s || s[|r|] == ','
  {
    if s == [] || s[0] == ',' then [] else [s[0]] + FirstSegment(s[1..])
  }

  /** The client address: the first entry of `x-forwarded-for`, else
      `x-real-ip`, else "unknown"; an empty value counts as absent. */
  function ClientIp(h: Headers): (ip: string)
    ensures ip != ""
  {
    if h.forwardedFor.Some? && FirstSegment(h.forwardedFor.value) != "" then FirstSegment(h.forwardedFor.value)
    else if h.realIp.Some? && h.realIp.value != "" then h.realIp.value
    else "unknown"
  }

  /** The user agent recorded with a lead; empty when not sent. */
  function UserAgent(h: Headers): string
  {
    if h.userAgent.Some? then h.userAgent.value else ""
  }

  // ---------------------------------------------------------------------------
  // The request body and the honeypot

  /** The outcome of reading the body as JSON. */
  datatype BodyParse = Malformed | Parsed(value: Value)

  /** The honeypot test `body.website && body.website.length > 0`: it throws
      on a `null` body, and trips when `website` is truthy and has a positive
      `length`. */
  datatype Screening = Clear | Tripped | Throws

  /** Whether a truthy `website` value has a positive `length`: strings and
      arrays by their size, an object by a `length` member that is a positive
      number or `true`. */
  predicate LengthPositive(w: Value)
  {
    match w
    case Str(s) => |s| > 0
    case Arr(items) => |items| > 0
    case Obj(m) => "length" in m && ((m["length"].Num? && m["length"].n > 0) || m["length"] == Bool(true))
    case _ => false
  }

  function Honeypot(body: Value): (r: Screening)
    // only a `null` body makes the test throw
    ensures r == Throws <==> body == Null
    // a body that is not an object has no `website`
    ensures !body.Obj? && body != Null ==> r == Clear
    ensures body.Obj? && "website" !in body.members ==> r == Clear
    // a string or an array trips exactly when it is non-empty
    ensures body.Obj? && "website" in body.members && body.members["website"].Str? ==>
      (r == Tripped <==> body.members["website"].s != "")
    ensures body.Obj? && "website" in body.members && body.members["website"].Arr? ==>
      (r == Tripped <==> body.members["website"].items != [])
    // `null`, a number or a boolean has no `length` and never trips
    ensures body.Obj? && "website" in body.members ==>
      (body.members["website"].Null? || body.members["website"].Num? || body.members["website"].Bool?) ==>
      r == Clear
    // an object trips exactly when its own `length` member is positive
    ensures body.Obj? && "website" in body.members && body.members["website"].Obj? ==>
      (r == Tripped <==> LengthPositive(body.members["website"]))
  {
    match body
    case Null => Throws
    case Obj(m) =>
      if "website" in m && Truthy(m["website"]) && LengthPositive(m["website"]) then Tripped else Clear
    case _ => Clear
  }

  // ---------------------------------------------------------------------------
  // Field errors

  /** `path.join('.')`. */
  function JoinPath(path: seq<string>): string
  {
    if path == [] then "" else if |path| == 1 then path[0] else path[0] + "." + JoinPath(path[1..])
  }

  /** The `fieldErrors` object: each issue in turn writes its message under
      its joined path, so a later issue overwrites an earlier one. */
  function FieldErrorMap(issues: seq<Issue>): map<string, Message>
  {
    if issues == [] then map[]
    else
      var last := issues[|issues| - 1];
      FieldErrorMap(issues[..|issues| - 1])[JoinPath(last.path) := last.message]
  }

  /** The loop that fills `fieldErrors`. */
  method CollectFieldErrors(issues: seq<Issue>) returns (fields: map<string, Message>)
    ensures fields == FieldErrorMap(issues)
  {
    fields := map[];
    var i := 0;
    while i < |issues|
      invariant 0 <= i <= |issues|
      invariant fields == FieldErrorMap(issues[..i])
    {
      assert issues[..i + 1][..i] == issues[..i];
      fields := fields[JoinPath(issues[i].path) := issues[i].message];
      i := i + 1;
    }
    assert issues[..i] == issues;
  }

  // ---------------------------------------------------------------------------
  // The lead record

  function DigitChar(d: nat): (c: char)
    requires d < 10
    ensures IsDigit(c)
  {
    ('0' as int + d) as char
  }

  function DigitValue(c: char): (d: nat)
    requires IsDigit(c)
    ensures d < 10
  {
    c as int - '0' as int
  }

  /** The decimal representation of a clock value, as `${n}` writes it. */
  function Decimal(n: nat): (s: string)
    ensures |s| >= 1 && AllDigits(s)
  {
    if n < 10 then [DigitChar(n)] else Decimal(n / 10) + [DigitChar(n % 10)]
  }

  /** The number a string of decimal digits denotes. */
  function DecimalValue(s: string): nat
    requires AllDigits(s)
  {
    if s == [] then 0 else DecimalValue(s[..|s| - 1]) * 10 + DigitValue(s[|s| - 1])
  }

  /** `lead_<time>_<suffix>`, where the suffix stands for the random base-36
      characters. */
  function LeadId(now: nat, suffix: string): (id: string)
    ensures StartsWith(id, "lead_")
  {
    "lead_" + Decimal(now) + "_" + suffix
  }

  /** Reads a lead id back into its time and suffix. */
  function ParseLeadId(id: string): Option<(nat, string)>
  {
    if StartsWith(id, "lead_") && '_' in id[5..] then
      var i := IndexOf(id[5..], '_');
      var digits := id[5..5 + i];
      if AllDigits(digits) then Some((DecimalValue(digits), id[5 + i + 1..])) else None
    else None
  }

  /** What the endpoint hands on: the validated lead with its metadata. */
  datatype LeadData = LeadData(lead: Lead, ip: string, userAgent: string, receivedAt: nat, id: string)

  // ---------------------------------------------------------------------------
  // Deliveries

  /** The CRM settings read from the environment. */
  datatype CrmConfig = CrmConfig(webhookUrl: Option<string>, apiKey: Option<string>)

  /** What the webhook call yields: no response at all, or a status and a
      reply body read as JSON. */
  datatype FetchOutcome = NetworkError | Responded(status: int, reply: BodyParse)

  datatype CrmError = WebhookFailed(status: int) | TransportFailed | UnreadableReply

  /** `sendToCRM`'s result: skipped (success without a call), delivered with
      the reply, or failed with the reason; it never throws. */
  datatype CrmResult = Skipped | Delivered(reply: Value) | Failed(error: CrmError)

  /** The webhook request: the URL, the authorization header, the lead and
      the `source` tag. */
  datatype WebhookCall = WebhookCall(url: string, authorization: string, lead: LeadData, source: string)

  predicate WebhookConfigured(config: CrmConfig)
  {
    config.webhookUrl.Some? && config.webhookUrl.value != ""
  }

  /** The request `sendToCRM` makes, if any. A missing API key is written
      into the header as "undefined". */
  function CrmCall(config: CrmConfig, data: LeadData): (c: Option<WebhookCall>)
    ensures c.Some? <==> WebhookConfigured(config)
    ensures c.Some? ==> StartsWith(c.value.authorization, "Bearer ") && c.value.lead == data
  {
    if !WebhookConfigured(config) then None
    else
      var key := if config.apiKey.Some? then config.apiKey.value else "undefined";
      Some(WebhookCall(config.webhookUrl.value, "Bearer " + key, data, "website"))
  }

  /** `sendToCRM`: success without a call when no webhook is configured;
      otherwise success exactly when the reply has a 2xx status and a JSON
      body. */
  function SendToCrm(config: CrmConfig, data: LeadData, fetch: FetchOutcome): (r: CrmResult)
    ensures r.Skipped? <==> !WebhookConfigured(config)
    ensures r.Delivered? <==>
      WebhookConfigured(config) && fetch.Responded? && 200 <= fetch.status <= 299 && fetch.reply.Parsed?
    ensures r.Failed? && r.error.WebhookFailed? ==> fetch.Responded? && !(200 <= fetch.status <= 299)
  {
    match CrmCall(config, data)
    case None => Skipped
    case Some(_) =>
      match fetch
      case NetworkError => Failed(TransportFailed)
      case Responded(status, reply) =>
        if !(200 <= status <= 299) then Failed(WebhookFailed(status))
        else match reply
          case Malformed => Failed(UnreadableReply)
          case Parsed(v) => Delivered(v)
  }

  /** `sendLeadNotification`: a placeholder that always succeeds, with the
      id `placeholder-<time>`. */
  function NotificationId(now: nat): (id: string)
    ensures StartsWith(id, "placeholder-")
  {
    "placeholder-" + Decimal(now)
  }

  // ---------------------------------------------------------------------------
  // Responses

  /** The refusals that carry no field details. */
  datatype ErrorCode = RateLimitExceeded | HoneypotTripped | ServerFailure

  /** The response of each path: the lead accepted; refused with an error
      code; refused with the per-field messages; or a method other than POST. */
  datatype Response =
    | Accepted(leadId: string)
    | Rejected(code: ErrorCode)
    | InvalidFields(fields: map<string, Message>)
    | MethodNotAllowed

  function Status(r: Response): (status: int)
    ensures status == 200 <==> r.Accepted?
    ensures status == 400 <==> r == Rejected(HoneypotTripped) || r.InvalidFields?
    ensures status == 405 <==> r.MethodNotAllowed?
  {
    match r
    case Accepted(_) => 200
    case Rejected(RateLimitExceeded) => 429
    case Rejected(HoneypotTripped) => 400
    case Rejected(ServerFailure) => 500
    case InvalidFields(_) => 400
    case MethodNotAllowed => 405
  }

  /** The `error` field of a response body; an accepted lead has none. */
  function ErrorField(r: Response): Option<string>
  {
    match r
    case Accepted(_) => None
    case Rejected(RateLimitExceeded) => Some("RATE_LIMITED")
    case Rejected(HoneypotTripped) => Some("SPAM_DETECTED")
    case Rejected(ServerFailure) => Some("SERVER_ERROR")
    case InvalidFields(_) => Some("VALIDATION_ERROR")
    case MethodNotAllowed => Some("Method not allowed")
  }

  /** The user-facing `message` field; the 405 body has none. */
  function MessageField(r: Response): Option<string>
  {
    match r
    case Accepted(_) => Some("Cererea a fost trimisă cu succes. Te vom contacta în curând!")
    case Rejected(RateLimitExceeded) => Some("Prea multe cereri. Te rugăm să încerci din nou peste o oră.")
    case Rejected(HoneypotTripped) => Some("Cererea nu a putut fi procesată.")
    case Rejected(ServerFailure) => Some("A apărut o eroare de server. Te rugăm să încerci din nou.")
    case InvalidFields(_) => Some("Te rugăm să corectezi erorile din formular.")
    case MethodNotAllowed => None
  }

  /** A client can tell every path of the handler apart by the `error` field
      alone: a missing one means success, and each refusal names its cause. */
  lemma ErrorFieldIdentifiesPath(a: Response, b: Response)
    requires ErrorField(a) == ErrorField(b)
    ensures a.Accepted? <==> b.Accepted?
    ensures a.InvalidFields? <==> b.InvalidFields?
    ensures a.MethodNotAllowed? <==> b.MethodNotAllowed?
    ensures a.Rejected? ==> b == a
    ensures ErrorField(a).None? <==> Status(a) == 200
  {
  }

  datatype HttpMethod = MethodGet | MethodPut | MethodDelete

  /** GET, PUT and DELETE are refused alike. */
  function OtherMethod(m: HttpMethod): (r: Response)
    ensures Status(r) == 405
  {
    MethodNotAllowed
  }

  // ---------------------------------------------------------------------------
  // The POST handler

  /** The response of a POST and the lead it hands on, given the limiter's
      decision. */
  datatype Handled = Handled(response: Response, lead: Option<LeadData>)

  function Handle(allowed: bool, ip: string, body: BodyParse, userAgent: string, now: nat, suffix: string): Handled
  {
    if !allowed then Handled(Rejected(RateLimitExceeded), None)
    else match body
      case Malformed => Handled(Rejected(ServerFailure), None)
      case Parsed(v) =>
        match Honeypot(v)
        case Throws => Handled(Rejected(ServerFailure), None)
        case Tripped => Handled(Rejected(HoneypotTripped), None)
        case Clear =>
          match Validate(v)
          case Failure(issues) => Handled(InvalidFields(FieldErrorMap(issues)), None)
          case Success(lead) => Handled(Accepted(LeadId(now, suffix)), Some(LeadData(lead, ip, userAgent, now, LeadId(now, suffix))))
  }

  /** `POST /api/lead` at clock value `now`; `suffix` stands for the random
      part of the id and `fetch` for what the CRM webhook answers. */
  method Post(limiter: RateLimiter, h: Headers, body: BodyParse, now: nat, suffix: string, crm: CrmConfig, fetch: FetchOutcome)
    returns (resp: Response, handedOn: Option<LeadData>, notification: Option<string>, crmResult: Option<CrmResult>)
    modifies limiter
    ensures var ip := ClientIp(h);
      var d := Admit(old(limiter.History(ip)), now, DefaultLimit, DefaultWindowMs);
      && limiter.requests == old(limiter.requests)[ip := d.stored]
      && Handled(resp, handedOn) == Handle(d.allowed, ip, body, UserAgent(h), now, suffix)
      && notification == (if handedOn.Some? then Some(NotificationId(now)) else None)
      && crmResult == (if handedOn.Some? then Some(SendToCrm(crm, handedOn.value, fetch)) else None)
  {
    var ip := ClientIp(h);
    var allowed := limiter.RateLimit(ip, now, DefaultLimit, DefaultWindowMs);
    handedOn, notification, crmResult := None, None, None;
    if !allowed {
      resp := Rejected(RateLimitExceeded);
      return;
    }
    if body.Malformed? {
      resp := Rejected(ServerFailure);
      return;
    }
    var v := body.value;
    var screening := Honeypot(v);
    if screening == Throws {
      resp := Rejected(ServerFailure);
      return;
    }
    if screening == Tripped {
      resp := Rejected(HoneypotTripped);
      return;
    }
    var validated := Validate(v);
    if validated.Failure? {
      var fields := CollectFieldErrors(validated.error);
      resp := InvalidFields(fields);
      return;
    }
    var data := LeadData(validated.value, ip, UserAgent(h), now, LeadId(now, suffix));
    resp := Accepted(data.id);
    handedOn := Some(data);
    notification := Some(NotificationId(now));
    crmResult := Some(SendToCrm(crm, data, fetch));
  }

  // ---------------------------------------------------------------------------
  // Properties of the client address

  /** The first segment of `a,b` is `a` when `a` has no comma; a value without
      a comma is its own first segment. */
  lemma {:induction false} FirstSegmentOf(a: string, b: string)
    requires ',' !in a
    ensures FirstSegment(a + "," + b) == a
    ensures FirstSegment(a) == a
  {
    if a != [] {
      assert (a + "," + b)[1..] == a[1..] + "," + b;
      FirstSegmentOf(a[1..], b);
    }
  }

  /** The address is the first hop of `x-forwarded-for` whenever that hop is
      not empty, whatever else the headers say. */
  lemma ClientIpFirstHop(first: string, rest: Option<string>, realIp: Option<string>, userAgent: Option<string>)
    requires first != "" && ',' !in first
    ensures rest.None? ==> ClientIp(Headers(Some(first), realIp, userAgent)) == first
    ensures rest.Some? ==> ClientIp(Headers(Some(first + "," + rest.value), realIp, userAgent)) == first
  {
    FirstSegmentOf(first, if rest.Some? then rest.value else "");
  }

  /** Without a usable forwarded hop the address is `x-real-ip`, and without
      that either it is "unknown". */
  lemma ClientIpFallback(h: Headers)
    requires h.forwardedFor.None? || FirstSegment(h.forwardedFor.value) == ""
    ensures h.realIp.Some? && h.realIp.value != "" ==> ClientIp(h) == h.realIp.value
    ensures (h.realIp.None? || h.realIp.value == "") ==> ClientIp(h) == "unknown"
  {
  }

  /** A forwarded value that begins with a comma has an empty first hop. */
  lemma LeadingCommaSkipsForwarded(rest: string)
    ensures FirstSegment("," + rest) == ""
  {
  }

  // ---------------------------------------------------------------------------
  // Properties of the field errors

  /** The field errors have one key per joined issue path. */
  lemma {:induction false} FieldErrorMapKeys(issues: seq<Issue>, k: string)
    ensures k in FieldErrorMap(issues) <==> exists i | 0 <= i < |issues| :: JoinPath(issues[i].path) == k
  {
    if issues != [] {
      var init := issues[..|issues| - 1];
      FieldErrorMapKeys(init, k);
      if exists i | 0 <= i < |init| :: JoinPath(init[i].path) == k {
        var i :| 0 <= i < |init| && JoinPath(init[i].path) == k;
        assert JoinPath(issues[i].path) == k;
      }
      if exists i | 0 <= i < |issues| :: JoinPath(issues[i].path) == k {
        var i :| 0 <= i < |issues| && JoinPath(issues[i].path) == k;
        if i < |init| {
          assert JoinPath(init[i].path) == k;
        }
      }
    }
  }

  /** Under each key stands the message of the last issue with that path. */
  lemma {:induction false} FieldErrorLastWins(issues: seq<Issue>, j: nat)
    requires j < |issues|
    requires forall l | j < l < |issues| :: JoinPath(issues[l].path) != JoinPath(issues[j].path)
    ensures JoinPath(issues[j].path) in FieldErrorMap(issues)
    ensures FieldErrorMap(issues)[JoinPath(issues[j].path)] == issues[j].message
  {
    if j < |issues| - 1 {
      var init := issues[..|issues| - 1];
      assert init[j] == issues[j];
      FieldErrorLastWins(init, j);
    }
  }

  /** Filling the map with `a` then `b` is filling it with `a`, then letting
      `b`'s entries overwrite. */
  lemma {:induction false} FieldErrorMapAppend(a: seq<Issue>, b: seq<Issue>)
    ensures FieldErrorMap(a + b) == FieldErrorMap(a) + FieldErrorMap(b)
  {
    if b == [] {
      assert a + b == a;
    } else {
      var init := b[..|b| - 1];
      assert (a + b)[..|a + b| - 1] == a + init;
      FieldErrorMapAppend(a, init);
    }
  }

  /** One field's issues leave that field's last message. */
  lemma {:induction false} FieldErrorMapAt(key: string, ms: seq<Message>)
    ensures ms == [] ==> FieldErrorMap(At(key, ms)) == map[]
    ensures ms != [] ==> FieldErrorMap(At(key, ms)) == map[key := ms[|ms| - 1]]
  {
    if ms != [] {
      var init := ms[..|ms| - 1];
      assert At(key, ms)[..|ms| - 1] == At(key, init);
      FieldErrorMapAt(key, init);
    }
  }

  /** The field errors of a list of fields: a field has an entry exactly when
      it is listed and reported something, and the entry is the last message
      its rule reported. */
  lemma {:induction false} FieldErrorOf(o: Outcomes, fields: seq<Field>, f: Field)
    ensures Key(f) in FieldErrorMap(FieldIssues(o, fields)) <==> f in fields && MessagesAt(o, f) != []
    ensures Key(f) in FieldErrorMap(FieldIssues(o, fields)) ==>
      FieldErrorMap(FieldIssues(o, fields))[Key(f)] == MessagesAt(o, f)[|MessagesAt(o, f)| - 1]
  {
    if fields != [] {
      var g := fields[0];
      var ms := MessagesAt(o, g);
      FieldErrorMapAppend(At(Key(g), ms), FieldIssues(o, fields[1..]));
      FieldErrorMapAt(Key(g), ms);
      FieldErrorOf(o, fields[1..], f);
      if Key(g) == Key(f) {
        KeyInjective(g, f);
      }
    }
  }

  /** Every entry of the field errors of a list of fields is keyed by one of
      those fields. */
  lemma {:induction false} FieldErrorKeys(o: Outcomes, fields: seq<Field>)
    ensures forall k | k in FieldErrorMap(FieldIssues(o, fields)) :: exists f | f in fields :: k == Key(f)
  {
    if fields != [] {
      var g := fields[0];
      var ms := MessagesAt(o, g);
      FieldErrorMapAppend(At(Key(g), ms), FieldIssues(o, fields[1..]));
      FieldErrorMapAt(Key(g), ms);
      FieldErrorKeys(o, fields[1..]);
      forall k | k in FieldErrorMap(FieldIssues(o, fields))
        ensures exists f | f in fields :: k == Key(f)
      {
        if k == Key(g) {
          assert g in fields;
        } else {
          var f :| f in fields[1..] && k == Key(f);
          assert f in fields;
        }
      }
    } else {
      assert FieldIssues(o, fields) == [];
    }
  }

  // ---------------------------------------------------------------------------
  // Properties of the lead id

  lemma {:induction false} DecimalRoundTrip(n: nat)
    ensures DecimalValue(Decimal(n)) == n
  {
    if n >= 10 {
      DecimalRoundTrip(n / 10);
      var s := Decimal(n);
      assert s[..|s| - 1] == Decimal(n / 10);
    }
  }

  /** A lead id gives back the time and the suffix it was made from. */
  lemma ParseLeadIdRoundTrip(now: nat, suffix: string)
    ensures ParseLeadId(LeadId(now, suffix)) == Some((now, suffix))
  {
    var d := Decimal(now);
    var id := LeadId(now, suffix);
    var tail := id[5..];
    assert tail == d + "_" + suffix;
    assert tail[|d|] == '_';
    assert forall j | 0 <= j < |d| :: tail[j] == d[j] && IsDigit(d[j]);
    var i := IndexOf(tail, '_');
    assert i == |d|;
    assert id[5..5 + i] == d;
    assert id[5 + i + 1..] == suffix;
    DecimalRoundTrip(now);
  }

  /** Two leads made at different times, or with different suffixes, get
      different ids. */
  lemma LeadIdInjective(a: nat, s: string, b: nat, t: string)
    requires LeadId(a, s) == LeadId(b, t)
    ensures a == b && s == t
  {
    ParseLeadIdRoundTrip(a, s);
    ParseLeadIdRoundTrip(b, t);
  }

  // ---------------------------------------------------------------------------
  // Properties of the POST handler

  /** A refused address gets 429 whatever it sends, and nothing is handed on. */
  lemma RateLimitComesFirst(ip: string, body: BodyParse, userAgent: string, now: nat, suffix: string)
    ensures Handle(false, ip, body, userAgent, now, suffix) == Handled(Rejected(RateLimitExceeded), None)
    ensures Status(Handle(false, ip, body, userAgent, now, suffix).response) == 429
  {
  }

  /** Past the limiter, the server error answers exactly the bodies that are
      not JSON and the JSON `null`. */
  lemma ServerErrorIff(ip: string, body: BodyParse, userAgent: string, now: nat, suffix: string)
    ensures Handle(true, ip, body, userAgent, now, suffix).response == Rejected(ServerFailure) <==>
      body == Malformed || body == Parsed(Null)
  {
    if body.Parsed? && body.value != Null && Honeypot(body.value) == Clear {
      match Validate(body.value)
      case Failure(_) =>
      case Success(_) =>
    }
  }

  /** A filled-in honeypot is answered as spam before any field is checked,
      whatever the other fields hold. */
  lemma SpamBeforeSchema(ip: string, m: map<string, Value>, userAgent: string, now: nat, suffix: string)
    requires "website" in m && m["website"].Str? && m["website"].s != ""
    ensures Handle(true, ip, Parsed(Obj(m)), userAgent, now, suffix) == Handled(Rejected(HoneypotTripped), None)
  {
  }

  /** A lead is accepted exactly when the limiter lets the request through
      and the body is an object that satisfies every rule of the schema. The
      lead handed on then satisfies every rule, carries the client address,
      the user agent and the time, and its id reads back as that time and
      suffix. */
  lemma AcceptedIff(allowed: bool, ip: string, body: BodyParse, userAgent: string, now: nat, suffix: string)
    ensures Handle(allowed, ip, body, userAgent, now, suffix).response.Accepted? <==>
      allowed && body.Parsed? && body.value.Obj? && Acceptable(body.value.members)
    ensures Handle(allowed, ip, body, userAgent, now, suffix).response.Accepted? ==>
      var h := Handle(allowed, ip, body, userAgent, now, suffix);
      && h.lead.Some? && ValidLead(h.lead.value.lead)
      && body.Parsed? && body.value.Obj? && h.lead.value.lead == Validate(body.value).value
      && h.lead.value.ip == ip && h.lead.value.userAgent == userAgent && h.lead.value.receivedAt == now
      && h.response.leadId == h.lead.value.id
      && ParseLeadId(h.lead.value.id) == Some((now, suffix))
    ensures !Handle(allowed, ip, body, userAgent, now, suffix).response.Accepted? ==>
      Handle(allowed, ip, body, userAgent, now, suffix).lead.None?
  {
    ParseLeadIdRoundTrip(now, suffix);
    if allowed && body.Parsed? && body.value.Obj? {
      var m := body.value.members;
      ValidateAcceptsIff(m);
      if Acceptable(m) {
        ValidateSound(m);
      }
    }
  }

  /** A JSON body that is neither an object nor `null` is answered with one
      field error under the empty path, naming the type received. */
  lemma NonObjectReport(ip: string, v: Value, userAgent: string, now: nat, suffix: string)
    requires !v.Obj? && v != Null
    ensures Handle(true, ip, Parsed(v), userAgent, now, suffix) ==
      Handled(InvalidFields(map["" := WrongType("object", TypeName(v))]), None)
  {
    var issues := [Issue([], TypeMismatch("object", v))];
    assert issues[..0] == [];
    assert FieldErrorMap(issues) == map["" := WrongType("object", TypeName(v))];
  }

  /** An object that passes the honeypot but fails the schema is answered
      with the field errors: a field has an entry exactly when it failed its
      rule, the entry is the last message that rule reported, and nothing
      else has an entry. */
  lemma ObjectReport(ip: string, m: map<string, Value>, userAgent: string, now: nat, suffix: string, f: Field)
    requires Honeypot(Obj(m)) == Clear && !Acceptable(m)
    ensures Handle(true, ip, Parsed(Obj(m)), userAgent, now, suffix).response.InvalidFields?
    ensures var fields := Handle(true, ip, Parsed(Obj(m)), userAgent, now, suffix).response.fields;
      (Key(f) in fields <==> !Passes(CheckFields(m), f))
      && (forall k | k in fields :: exists g: Field :: k == Key(g))
    ensures var fields := Handle(true, ip, Parsed(Obj(m)), userAgent, now, suffix).response.fields;
      Key(f) in fields ==>
        MessagesAt(CheckFields(m), f) != [] &&
        fields[Key(f)] == MessagesAt(CheckFields(m), f)[|MessagesAt(CheckFields(m), f)| - 1]
  {
    var o := CheckFields(m);
    ValidateAcceptsIff(m);
    RejectionIsFieldIssues(m);
    FailingRulesReport(m);
    InSchema(f);
    FieldErrorOf(o, SchemaFields, f);
    FieldErrorKeys(o, SchemaFields);
  }

  /** Past the limiter and the honeypot, an object that fails the schema is
      answered with the field errors of the schema's issues. */
  lemma HandleRejectedObject(ip: string, m: map<string, Value>, userAgent: string, now: nat, suffix: string)
    requires Honeypot(Obj(m)) == Clear && !Acceptable(m)
    ensures Handle(true, ip, Parsed(Obj(m)), userAgent, now, suffix).response ==
      InvalidFields(FieldErrorMap(FieldIssues(CheckFields(m), SchemaFields)))
  {
    ValidateAcceptsIff(m);
    RejectionIsFieldIssues(m);
  }

  /** The rules other than the honeypot's never report the spam message. */
  lemma NoSpamOutsideWebsite(m: map<string, Value>, f: Field)
    requires f != Website
    ensures SpamDetected !in MessagesAt(CheckFields(m), f)
  {
    match f
    case Nume => RulesNeverReportSpam(Get(m, "nume"));
    case Telefon => RulesNeverReportSpam(Get(m, "telefon"));
    case Email => RulesNeverReportSpam(Get(m, "email"));
    case MarcaModel => RulesNeverReportSpam(Get(m, "marca_model"));
    case GdprConsent => RulesNeverReportSpam(Get(m, "gdpr_consent"));
    case Observatii => RulesNeverReportSpam(Get(m, "observatii"));
    case _ =>
  }

  /** The honeypot's rule reports the spam message only for a non-empty
      string, which the honeypot has already turned away. */
  lemma NoSpamAtWebsite(m: map<string, Value>)
    requires Honeypot(Obj(m)) == Clear
    ensures SpamDetected !in MessagesAt(CheckFields(m), Website)
  {
    assert MessagesAt(CheckFields(m), Website) == MessagesOf(OptionalBounded(Get(m, "website"), 0, SpamDetected));
  }

  /** Field errors built from outcomes none of which is the spam message
      contain no spam message. */
  lemma NoSpamFieldErrors(o: Outcomes)
    requires forall f: Field :: SpamDetected !in MessagesAt(o, f)
    ensures forall k | k in FieldErrorMap(FieldIssues(o, SchemaFields)) ::
      FieldErrorMap(FieldIssues(o, SchemaFields))[k] != SpamDetected
  {
    var fields := FieldErrorMap(FieldIssues(o, SchemaFields));
    FieldErrorKeys(o, SchemaFields);
    forall k | k in fields
      ensures fields[k] != SpamDetected
    {
      var f :| f in SchemaFields && k == Key(f);
      FieldErrorOf(o, SchemaFields, f);
    }
  }

  /** Since a non-empty string in the honeypot is answered as spam first, the
      schema's own spam message never reaches the client: no field error of
      any response is that message. */
  lemma SpamMessageNeverReported(allowed: bool, ip: string, body: BodyParse, userAgent: string, now: nat, suffix: string)
    ensures Handle(allowed, ip, body, userAgent, now, suffix).response.InvalidFields? ==>
      forall k | k in Handle(allowed, ip, body, userAgent, now, suffix).response.fields ::
        Handle(allowed, ip, body, userAgent, now, suffix).response.fields[k] != SpamDetected
  {
    if allowed && body.Parsed? && body.value.Obj? {
      var m := body.value.members;
      if Honeypot(Obj(m)) == Clear && !Acceptable(m) {
        HandleRejectedObject(ip, m, userAgent, now, suffix);
        forall f: Field
          ensures SpamDetected !in MessagesAt(CheckFields(m), f)
        {
          if f == Website {
            NoSpamAtWebsite(m);
          } else {
            NoSpamOutsideWebsite(m, f);
          }
        }
        NoSpamFieldErrors(CheckFields(m));
      } else {
        ValidateAcceptsIff(m);
      }
    } else if allowed && body.Parsed? && body.value != Null {
      NonObjectReport(ip, body.value, userAgent, now, suffix);
    }
  }
}
