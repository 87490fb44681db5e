# RedLine Tuning lead intake, modelled in Dafny

The RedLine Tuning website takes contact requests ("leads") from a form. Each
request goes to one `POST /api/lead` endpoint. The endpoint:

1. finds the client address: the first entry of `x-forwarded-for`, else
   `x-real-ip`, else `"unknown"`;
2. admits at most five requests per address per hour, using a sliding window
   kept in memory;
3. refuses a body whose hidden honeypot field `website` is filled in;
4. validates the body against the zod lead schema, which normalises the phone
   number to the `+40` form;
5. stamps the lead with the address, the user agent, a timestamp and an id
   `lead_<millis>_<random>`;
6. hands the lead to an e-mail notification and to an optional CRM webhook.
   Neither outcome can change the answer the client gets.

Every other HTTP method on the route answers 405.

The project has four modules.

- `Json` (`Json.dfy`) covers the JSON values the endpoint parses, JavaScript
  truthiness and the type names zod reports.
- `Validators` (`Validators.dfy`) covers `lib/validators.js`:
  - the lead schema, field by field, with zod's messages;
  - the Romanian phone pattern and its normalisation;
  - the form options;
  - the rate-limit key helper.
- `RateLimiting` (`RateLimit.dfy`) covers the in-memory limiter:
  - a class `RateLimiter` whose field `requests` is the address-to-timestamps
    map the handler mutates;
  - the pure decision `Admit` that specifies one call;
  - `Run`, a run of many calls, used to state the per-window bound.
- `LeadRoute` (`LeadRoute.dfy`) covers `app/api/lead/route.js`:
  - the client address and the honeypot test;
  - the `fieldErrors` loop;
  - the lead id;
  - the CRM webhook policy;
  - the responses and their status codes;
  - the pure pipeline `Handle`;
  - the `Post` method. `Post` updates the limiter and hands the lead on.

Where the code and its intent differ, the model follows the code.

- Phone normalisation first tests for a leading `0` and only then for `0040`.
  So `0040721123456` becomes `+40040721123456`, not the canonical
  `+40721123456`. The `0040` branch can never run. `NormalizeInternational`
  and `InternationalBranchUnreachable` state this behaviour as written.
  Normalisation is still idempotent on every accepted number
  (`NormalizeIdempotent`).
- The `Handle` function takes no notification or CRM outcome as input. So by
  construction the response cannot depend on them. `Post` states the same
  thing: its response is a function of the limiter, the headers, the body, the
  clock and the random suffix only. The CRM result is computed beside the
  response.

## Model

| member | source | states |
|---|---|---|
| `Validators.Text` | lib/validators.js:8-65 | The client-facing text of every schema message, word for word as the schema and zod (version 3) give them. The message datatype keeps the messages apart, and this function gives their wording. |
| `Validators.StringValue` | lib/validators.js:8-33 | A `z.string()` base check passes exactly when the value is present and a string. Otherwise it reports exactly one message ("Required" or the type mismatch). A passing value is the submitted string. |
| `Validators.OptionalString` | lib/validators.js:57-62 | An optional string field passes exactly when it is absent or a string. Otherwise it reports one message. A passing value is the submitted string, or absent when none was submitted. |
| `Validators.OptionalBounded` | lib/validators.js:47-49 | An optional string with a maximum length passes exactly when it is absent or a string no longer than the maximum. Otherwise it reports one message. A passing value is the submitted string, or absent when none was submitted. |
| `Validators.CheckName` | lib/validators.js:8-11 | A passing name is the submitted string, unchanged. A rejected name always carries at least one message. |
| `Validators.CheckPhone` | lib/validators.js:13-24 | A passing phone was submitted as a string, and its value is that string normalised. A rejected phone always carries at least one message. |
| `Validators.PhoneRule` | lib/validators.js:13-24 | `telefon` passes exactly when it is a string the phone pattern accepts, and its value is then the normalised number. A string the pattern rejects reports only the phone message; a missing one reports "Required". |
| `Validators.CheckEmail` | lib/validators.js:26-29 | A passing e-mail is the submitted string, or absent when none was submitted. A rejected e-mail always carries at least one message. |
| `Validators.CheckVehicle` | lib/validators.js:31-33 | A passing make and model is the submitted string, unchanged. A rejected one always carries at least one message. |
| `Validators.CheckEnum` | lib/validators.js:35-45 | An enum field passes exactly when it is a string among the allowed values. The parsed value is then the submitted string. Any failure, including a missing value, reports only the enum's own custom message. |
| `Validators.CheckConsent` | lib/validators.js:51-54 | Consent passes only on the boolean `true`, and its value is then `true`. A rejected consent always carries at least one message. |
| `Validators.PhoneMatches` | lib/validators.js:4 | The phone pattern as a predicate: a `0`, `0040` or `+40` prefix followed by exactly nine digits. `PhoneAcceptedIff` states it as a single existential. |
| `Validators.NormalizePhone` | lib/validators.js:15-24 | The transform as written: the `0` test first, then the `0040` test, else unchanged. Its properties are in the `Normalize*` lemmas below. |
| `Validators.EmailSyntax` | lib/validators.js:26-27 | The e-mail check as zod 3 applies it. A local part of allowed characters, with no leading dot, no double dot and an allowed last character; then `@`; then dot-separated labels ending in an alphabetic top-level label of at least two letters. |
| `Validators.PhoneAcceptedIff` | lib/validators.js:4 | A phone is accepted exactly when it is `0`, `0040` or `+40` followed by exactly nine digits. |
| `Validators.NormalizeLocal` | lib/validators.js:17-18 | A leading `0` is replaced by `+40`. |
| `Validators.NormalizeCanonical` | lib/validators.js:15-24 | A number already in `+40` form is returned unchanged. |
| `Validators.NormalizeInternational` | lib/validators.js:17-21 | A `0040` number is caught by the `0` test first and becomes `+40040` followed by the digits. |
| `Validators.NormalizedPhoneShape` | lib/validators.js:13-24 | Every accepted phone normalises to `+40` followed by digits only. The result has 12 characters, or 15 exactly when the input was a 13-character `0040` number. |
| `Validators.NormalizeIdempotent` | lib/validators.js:15-24 | Normalising an accepted phone twice gives the same result as normalising it once. |
| `Validators.CanonicalPhoneIsFixedPoint` | lib/validators.js:13-24 | A 12-character normalised phone is itself accepted by the pattern and is a fixed point of normalisation. |
| `Validators.InternationalBranchUnreachable` | lib/validators.js:17-22 | Every `0040` input takes the `0` branch. For an accepted `0040` number the result is 15 characters long and the pattern would reject it. |
| `Validators.NameRule` | lib/validators.js:8-11 | A name passes exactly when it is a string of 2 to 50 characters from the allowed letters, white space and hyphen. A name with a bad character ends its messages with the character-class message. The empty string reports both the too-short and the character messages. |
| `Validators.EnumRules` | lib/validators.js:35-45 | Package, contact method and interval each pass exactly for their listed literal strings. |
| `Validators.ConsentRule` | lib/validators.js:51-54 | Consent passes exactly for the boolean `true`. `false` reports the consent message and a missing value reports "Required". |
| `Validators.OptionalFieldRules` | lib/validators.js:26-65 | Make and model (2 to 100 characters), notes (absent or at most 500), e-mail (absent, empty or valid syntax) and website (absent or empty) pass exactly under those conditions. A bad e-mail string reports the e-mail message. |
| `Validators.RulesNeverReportSpam` | lib/validators.js:8-49 | None of the name, phone, e-mail, vehicle, consent and notes rules ever emits "Spam detected". The enums and the tracking fields are covered by `LeadRoute.NoSpamOutsideWebsite`. |
| `Validators.CheckFields` | lib/validators.js:7-66 | `z.object` checks all sixteen fields of the schema, each on its own member of the body (absent members reading as undefined), without stopping at the first failure. Its consequences are stated by `PersonalRulesIff`, `OtherRulesIff` and `FailingRulesReport`. |
| `Validators.ValidateObject` | lib/validators.js:7-66 | An object body parses to the validated lead when every field passes. Otherwise it fails with each failing field's messages at that field's key, in schema order. `ValidateAcceptsIff` and `ValidateNamesFailingFields` state this. `ValidateKeepsSubmitted` states that the lead holds the submitted values, and `UnknownKeysIgnored` that keys outside the schema are dropped. |
| `Validators.Validate` | lib/validators.js:7-66 | `leadSchema.parse`: an object goes to the field checks. Any other value fails with a single issue at the empty path, "Expected object, received <type>". |
| `Validators.PersonalRulesIff` | lib/validators.js:8-33 | Name, phone, e-mail and make and model all pass exactly when the body's members meet their stated conditions. |
| `Validators.OtherRulesIff` | lib/validators.js:35-65 | The enums, notes, consent, tracking fields and website all pass exactly when the body's members meet their stated conditions. |
| `Validators.ValidateAcceptsIff` | lib/validators.js:7-66 | `leadSchema.parse` succeeds on an object exactly when every field meets its rule. |
| `Validators.ValidateSound` | lib/validators.js:7-66 | An accepted lead satisfies every field rule. Its name and make and model are the submitted strings, and its phone is the normalised submitted phone. |
| `Validators.ValidateKeepsSubmitted` | lib/validators.js:7-66 | The parsed lead holds what was submitted. Every string field is the submitted string, and the phone is the submitted one normalised. Every optional field is the submitted string, or absent when none was submitted. Consent is `true`. |
| `Validators.UnknownKeysIgnored` | lib/validators.js:7 | `z.object` ignores keys outside the schema. Adding or changing such a key never changes the parse result, so the lead never carries one. |
| `Validators.OutcomesReadSchemaKeys` | lib/validators.js:7-66 | Two objects that agree on the schema's sixteen keys get the same outcome for every field. |
| `Validators.FailingRulesReport` | lib/validators.js:7-66 | Each field passes exactly when it reports no message. |
| `Validators.FieldIssuesPaths` | lib/validators.js:7-66 | Every issue's path is the single key of one of the checked fields. |
| `Validators.FieldIssuesOf` | lib/validators.js:7-66 | An issue sits at a field's key exactly when that field is among those checked and reported a message. |
| `Validators.SchemaIssues` | lib/validators.js:7-66 | Over the whole schema, an issue sits at a field's key exactly when that field failed. Any failure gives a non-empty issue list. |
| `Validators.ValidateFailureIssues` | lib/validators.js:7-66 | A failed parse has at least one issue, and each issue names a schema field. |
| `Validators.ValidateNamesFailingFields` | lib/validators.js:7-66 | A failing field makes the parse fail. In a failed parse, a field is named among the issues exactly when it failed. |
| `Validators.MissingRequiredReported` | lib/validators.js:7-66 | A missing required field always makes the parse fail, with an issue at that field. |
| `Validators.ConsentRequired` | lib/validators.js:51-54 | Without consent `true` the parse fails, with an issue at `gdpr_consent`. |
| `Validators.RateLimitKey` | lib/validators.js:71 | The key `lead_form_<ip>`. `RateLimitKeyInjective` proves distinct addresses never share a key. |
| `Validators.FormOptionsMatchSchema` | lib/validators.js:74-89 | The values offered by the form's three option lists are exactly the three enums of the schema, in order. |
| `Validators.RateLimitKeyInjective` | lib/validators.js:71 | Distinct addresses get distinct rate-limit keys. |
| `RateLimiting.InWindow` | app/api/lead/route.js:20 | The filter keeps exactly the timestamps strictly later than the window start, and never lengthens the list. |
| `RateLimiting.RateLimiter.constructor` | app/api/lead/route.js:6 | A new limiter holds no addresses. |
| `RateLimiting.RateLimiter.RateLimit` | app/api/lead/route.js:9-31 | The answer is the `Admit` decision on the address's old history. Only that address's entry changes, and it becomes the filtered list, plus `now` when admitted. A limiter holding at most `limit` timestamps per address keeps holding at most that many. |
| `RateLimiting.InWindowAppend` | app/api/lead/route.js:20 | Filtering distributes over concatenation. |
| `RateLimiting.InWindowTwice` | app/api/lead/route.js:19-21 | Filtering by an earlier and then a later window start is the same as filtering once by the later one. |
| `RateLimiting.Admit` | app/api/lead/route.js:11-30 | One call on an address's history: drop the timestamps at or before `now - windowMs`, refuse when `limit` remain, and otherwise admit and append `now`. `AdmitIff` and the lemmas after it state its properties. |
| `RateLimiting.RateLimiter.History` | app/api/lead/route.js:13-17 | The timestamps the limiter holds for an address, with an empty list for an address it has never seen (the source's `set(ip, [])` on first sight). |
| `RateLimiting.AdmitIff` | app/api/lead/route.js:9-31 | A request is admitted exactly when fewer than `limit` timestamps lie in the window. Afterwards the stored list holds exactly the in-window history, plus `now` when admitted. |
| `RateLimiting.AdmitKeepsWindow` | app/api/lead/route.js:11-29 | Every stored timestamp lies inside the current window. |
| `RateLimiting.AdmitBounded` | app/api/lead/route.js:24-30 | A history of at most `limit` entries stays within `limit`. An admitted request stores one more entry than the in-window history. |
| `RateLimiting.ExpiredHistoryReadmits` | app/api/lead/route.js:11-30 | Once every earlier timestamp has left the window, the request is admitted and the history becomes just `now`. |
| `RateLimiting.Run` | app/api/lead/route.js:9-31 | A run of calls yields one decision per call. |
| `RateLimiting.StepKeepsWindow` | app/api/lead/route.js:11-30 | If the stored list is the window of the admitted timestamps before a call, it still is after the call, for any later clock value. |
| `RateLimiting.RunKeepsWindow` | app/api/lead/route.js:9-31 | On non-decreasing clock values, the stored list is always exactly the admitted timestamps inside the current window. |
| `RateLimiting.AtMostLimitPerWindow` | app/api/lead/route.js:9 | On non-decreasing clock values, the window that ends at each call instant holds at most `limit` admitted requests. For the defaults that is five per hour. |
| `RateLimiting.RunBounded` | app/api/lead/route.js:24-30 | The stored list never exceeds `limit` entries, so memory per address is bounded. |
| `RateLimiting.RefusedOnlyWhenFull` | app/api/lead/route.js:24-26 | The last call of a run is refused exactly when the window already holds `limit` admitted requests. |
| `RateLimiting.BurstAdmit` | app/api/lead/route.js:20-30 | A call at the same instant as `k` stored calls is admitted exactly when `k < limit`, and is then stored beside them. |
| `RateLimiting.BurstStored` | app/api/lead/route.js:20-30 | A burst of `n` calls at one instant stores `n` copies of that instant while `n <= limit`, and exactly `limit` copies from then on. |
| `RateLimiting.BurstStep` | app/api/lead/route.js:24-30 | In a burst at one instant, call `n` is admitted exactly when fewer than `limit` calls went before it. |
| `RateLimiting.BurstAtOneInstant` | app/api/lead/route.js:24-30 | In a burst at one instant, call `i` is admitted exactly when `i < limit`. |
| `RateLimiting.RecoversAfterWindow` | app/api/lead/route.js:11-21 | After any burst, a call a full window later is admitted again. |
| `RateLimiting.FiveThenRefused` | app/api/lead/route.js:9 | With the defaults, six calls at one instant give five admissions and then one refusal. |
| `LeadRoute.FirstSegment` | app/api/lead/route.js:98 | `split(',')[0]` is the prefix of the header up to its first comma. It contains no comma. |
| `LeadRoute.ClientIp` | app/api/lead/route.js:96-98 | The client address is never empty, because empty headers fall through to the next source. |
| `LeadRoute.LengthPositive` | app/api/lead/route.js:116 | `website.length > 0` for each kind of value. Strings and arrays use their size. An object uses its own `length` member when that is a positive number or `true`. Other values have no `length`. |
| `Json.Truthy` | app/api/lead/route.js:116 | JavaScript truthiness of a JSON value, as `body.website &&` uses it: `null`, `false`, `0` and the empty string are falsy, and everything else is truthy. |
| `LeadRoute.UserAgent` | app/api/lead/route.js:135 | The `user-agent` request header, or the empty string when it is absent. |
| `LeadRoute.Honeypot` | app/api/lead/route.js:116 | Only a `null` body makes the test throw. A body that is not an object, or one with no `website`, is let through. A string or array `website` trips exactly when it is non-empty. A `null`, number or boolean `website` never trips. An object `website` trips exactly when its `length` member is positive. |
| `LeadRoute.JoinPath` | app/api/lead/route.js:169 | `path.join('.')`: the keys of the path separated by dots, empty for the empty path. |
| `LeadRoute.FieldErrorMap` | app/api/lead/route.js:167-171 | The object the loop builds, as a function: issues applied in order, each overwriting the entry at its joined path. The `FieldError*` lemmas below state its keys and values. |
| `LeadRoute.CollectFieldErrors` | app/api/lead/route.js:167-171 | The loop over the issues builds exactly the map `FieldErrorMap`, keyed by joined path, in which later issues overwrite earlier ones. |
| `LeadRoute.Decimal` | app/api/lead/route.js:137 | The decimal rendering of the clock is a non-empty string of digits. |
| `LeadRoute.LeadId` | app/api/lead/route.js:137 | Every lead id starts with `lead_`. |
| `LeadRoute.WebhookConfigured` | app/api/lead/route.js:61 | Whether a CRM webhook URL is set: present and not the empty string, matching the source's falsy test. |
| `LeadRoute.CrmCall` | app/api/lead/route.js:59-78 | The webhook is called exactly when a URL is configured, with a `Bearer` authorization and the lead data. |
| `LeadRoute.SendToCrm` | app/api/lead/route.js:58-90 | The CRM step makes the `CrmCall` request. It is skipped exactly when no URL is configured. It is delivered exactly when the webhook answers 2xx with a JSON body. A `webhook failed` error implies a non-2xx status. Every other outcome is a failure value, never a throw. |
| `LeadRoute.NotificationId` | app/api/lead/route.js:52 | The notification's message id starts with `placeholder-`. |
| `LeadRoute.Status` | app/api/lead/route.js:101-216 | The status is 200 exactly for an accepted lead, 400 exactly for spam or invalid fields, and 405 exactly for a wrong method. |
| `LeadRoute.ErrorField` | app/api/lead/route.js:101-216 | The `error` field of each response body: none on success, then `RATE_LIMITED`, `SPAM_DETECTED`, `VALIDATION_ERROR`, `SERVER_ERROR`, or `Method not allowed`. |
| `LeadRoute.MessageField` | app/api/lead/route.js:101-192 | The Romanian `message` field of each POST response. The 405 body has none. |
| `LeadRoute.ErrorFieldIdentifiesPath` | app/api/lead/route.js:101-216 | The `error` field alone tells a client which path was taken: it is absent exactly on success (status 200), and responses that share it are the same refusal. |
| `LeadRoute.OtherMethod` | app/api/lead/route.js:197-216 | GET, PUT and DELETE answer 405. |
| `LeadRoute.Handle` | app/api/lead/route.js:92-194 | The handler's decisions in their order: refused by the limiter (429); body not JSON or `null` (500); honeypot tripped (400); schema failure (400 with the field errors); otherwise accepted with a fresh id, handing on the lead and its metadata. The lemmas below state its properties. |
| `LeadRoute.Post` | app/api/lead/route.js:92-194 | The limiter changes only at the client address, exactly as one `RateLimit` call. The response and the lead handed on are `Handle` of the limiter's decision. The notification and the CRM step run exactly when a lead is handed on, and the notification id is `placeholder-<now>`. The response depends on neither outcome. |
| `LeadRoute.FirstSegmentOf` | app/api/lead/route.js:98 | The first segment of `a,b` is `a`, and a comma-free string is its own first segment. |
| `LeadRoute.ClientIpFirstHop` | app/api/lead/route.js:98 | A non-empty first entry of `x-forwarded-for` is the client address, with or without later entries. |
| `LeadRoute.ClientIpFallback` | app/api/lead/route.js:98 | With no usable forwarded entry, a non-empty `x-real-ip` is used. Otherwise the address is `unknown`. |
| `LeadRoute.LeadingCommaSkipsForwarded` | app/api/lead/route.js:98 | A forwarded header starting with a comma yields an empty first entry, which then falls through. |
| `LeadRoute.FieldErrorMapKeys` | app/api/lead/route.js:167-171 | The keys of the field-error map are exactly the joined paths of the issues. |
| `LeadRoute.FieldErrorLastWins` | app/api/lead/route.js:168-171 | The message kept for a key is that of the last issue with that key. |
| `LeadRoute.FieldErrorMapAppend` | app/api/lead/route.js:168-171 | The map of two issue lists in sequence is the first map overridden by the second. |
| `LeadRoute.FieldErrorMapAt` | app/api/lead/route.js:168-171 | One field's messages collapse to its last message, or to nothing when it has none. |
| `LeadRoute.FieldErrorOf` | app/api/lead/route.js:166-171 | A field appears in the field errors exactly when it was checked and failed. Its entry is its last message. |
| `LeadRoute.FieldErrorKeys` | app/api/lead/route.js:166-171 | Every key of the field errors is the key of a checked field. |
| `LeadRoute.DecimalRoundTrip` | app/api/lead/route.js:137 | Reading back the decimal rendering of the clock gives the clock value. |
| `LeadRoute.ParseLeadIdRoundTrip` | app/api/lead/route.js:137 | The clock value and the random part can be recovered from a lead id. |
| `LeadRoute.LeadIdInjective` | app/api/lead/route.js:137 | Different clock values or random parts give different lead ids. |
| `LeadRoute.RateLimitComesFirst` | app/api/lead/route.js:100-110 | A refused request answers 429 whatever its body, and hands nothing on. |
| `LeadRoute.ServerErrorIff` | app/api/lead/route.js:113-192 | An admitted request answers 500 exactly when its body is not JSON or is `null`. |
| `LeadRoute.SpamBeforeSchema` | app/api/lead/route.js:115-129 | A non-empty `website` string is refused as spam before validation, whatever the other fields hold. |
| `LeadRoute.AcceptedIff` | app/api/lead/route.js:128-160 | A request is accepted exactly when it is admitted, its body is an object and every field meets its rule. The lead handed on is then exactly the schema's parse of the body. It also carries the client address, the user agent, the clock and the id returned to the client, and that id parses back to the clock and random part. Otherwise nothing is handed on. |
| `LeadRoute.NonObjectReport` | app/api/lead/route.js:129-181 | A body that is neither an object nor `null` answers a validation error, with a single empty-path entry "Expected object". |
| `LeadRoute.ObjectReport` | app/api/lead/route.js:129-181 | An invalid object answers a validation error. A field appears in it exactly when its rule failed, with that field's last message, and every key is a schema field. |
| `LeadRoute.HandleRejectedObject` | app/api/lead/route.js:166-181 | The field errors of an invalid object are the joined map of the schema's issues. |
| `LeadRoute.NoSpamOutsideWebsite` | lib/validators.js:8-62 | No field other than `website` ever reports "Spam detected". |
| `LeadRoute.NoSpamAtWebsite` | app/api/lead/route.js:116 | A body that passes the honeypot test never gets "Spam detected" from the schema either. |
| `LeadRoute.NoSpamFieldErrors` | app/api/lead/route.js:166-171 | If no field reports "Spam detected", no field error carries it. |
| `LeadRoute.SpamMessageNeverReported` | app/api/lead/route.js:115-181 | The schema's "Spam detected" message can never reach a client. The honeypot refuses every body that would trigger it. |

## Left out

- Logging (`console.log`, `console.error`) is left out. It has no effect on any result.
- The real `fetch` is replaced by a parameter describing what the webhook answered.
  Likewise `headers()` and `request.json()` are replaced by the data they return.
  The environment variables are replaced by a configuration value.
- `Promise.allSettled`, and the concurrency between the notification and the
  CRM call, are not modelled. The CRM result is computed after the response is
  fixed, and never feeds into it.
- The notification is modelled only by its message id (`NotificationId`). Its
  100 ms timer, and its log of the lead, are left out.
- `Date.now()` and `Math.random()` become parameters (`now`, `suffix`). The
  source reads the clock several times, but the model uses one `now` for the
  limiter, the lead id, the timestamp and the notification id. The
  notification id reads the clock inside its 100 ms timer
  (app/api/lead/route.js:51-52), so in the source its value is later than the
  others. The ISO-8601 formatting of the timestamp is not modelled: the lead
  carries the clock value.
- `LeadRoute.LeadId`: the suffix is taken as given. The model does not show
  that base-36 `substr(2, 9)` yields at most nine lowercase alphanumerics.
- String lengths count characters (Unicode scalars). JavaScript counts UTF-16
  code units, so lengths differ for characters outside the Basic Multilingual
  Plane.
- JSON numbers are integers in the model. A fractional number can only ever
  fail a string, boolean or enum check, so the loss does not affect validation.
- `LeadRoute.LengthPositive`: JavaScript's `>` coerces any `length` member to
  a number. The model counts an object's `length` only when it is a positive
  number or `true`. A numeric string such as `"3"` or a one-element array
  such as `[5]` would also count in JavaScript.
- `LeadRoute.Honeypot` inherits that gap: such an object `website` trips the
  honeypot in JavaScript but not in the model.
- The modelled files do not name a zod version, and the model follows zod 3
  throughout. That covers:
  - the default messages ("Required", "Invalid input",
    "Expected X, received Y");
  - every string check running before the transform, and the transform
    running only when all checks pass;
  - `.refine` running only on a boolean;
  - the union's "Invalid input" for an e-mail value that is not a string;
  - an enum `errorMap` replacing every message;
  - `z.object` checking every field and dropping unknown keys;
  - the e-mail pattern, written as a predicate over ASCII characters. It is
    the pattern of zod 3.23 and later 3.x releases, which allows an
    apostrophe in the local part. Earlier 3.x releases used other patterns.

  Later zod versions changed some of these.
- `requests.push(now)` mutates the array stored in the map. The model writes
  the same list back into the map, which is the same state with no aliasing
  left to observe.
- `createRateLimitKey` is modelled (`RateLimitKey`), but the route keys its
  limiter by the bare address, and so does the model.
- The `LeadForm` component, the health endpoint and every page and UI
  component are outside this model.
