# JC Elite Equine contact server: a Dafny model

The server is a small Express application. Apart from static file serving,
its only logic is the contact form: a start-up check that warns about
missing SMTP configuration, and the `POST /api/contact` handler. The handler
validates the submitted `name`, `email`, `phone` and `message`, derives the
SMTP transport options from the environment, renders a plain-text and an
HTML notification body, sends one mail, and maps the result to a JSON
response.

The model states this as pure functions over immutable values:

- `Wrappers`: `Option`, used for JavaScript's `undefined` (and for `NaN`
  when a number is parsed).
- `Strings`: prefix/suffix stripping, first-line splitting, `join`, and
  the lemmas that make the body decoders work.
- `Config`: the environment as a `map<string, string>` (an absent key is
  `undefined`, an empty value is falsy), `missingEnv` and its warning, and
  the derivation of port and `secure` from `SMTP_PORT` and `SMTP_SECURE`.
- `Render`: the `phone || "Not provided"` fallback, the newline-to-`<br>`
  rewrite, the text and HTML bodies, and decoders that read the fields
  back out of each body.
- `Contact`: the submission, the guard, the mail envelope and the
  handler. The handler is `HandleContact(env, body, outcome)`. `outcome`
  is the send result (`Delivered` or `Failed(error)`). The handler returns
  the list of send calls it made together with the HTTP response.

One might expect `secure` to default to true on port 465. But server.js:46
tests the raw `Number(SMTP_PORT)` for 465, not the defaulted port. So with
`SMTP_PORT` unset the transport uses port 465 with `secure` false unless
`SMTP_SECURE` is `"true"` (`Config.DefaultPortIsNotSecure`).

## Model

| member | source | states |
|---|---|---|
| `Config.MissingFrom` | server.js:18 | the filter keeps, in order, exactly the keys whose environment value is absent or empty (membership both ways, and a subsequence of the key list) |
| `Config.MissingEnv` | server.js:9-18 | `missingEnv` is an in-order subsequence of the five required variables holding exactly the unset or empty ones |
| `Config.MissingFromUnique` | server.js:18 | over a repetition-free key list, any in-order selection of exactly the unset keys equals the filter's result |
| `Config.MissingEnvUnique` | server.js:9-18 | `missingEnv` is the only in-order selection of the unset required variables |
| `Config.MissingEnvWarning` | server.js:19-25 | a warning is produced exactly when some required variable is unset or empty, and it names every such variable |
| `Config.IsSet` | server.js:18 | bare definition of `!!process.env[key]` (present and non-empty); its property is carried by `Config.MissingFrom` |
| `Config.ParseNumber` | server.js:45 | `Number` of the raw value: `undefined` is NaN, a digit string has a value (the empty one 0), and a decimal spelling of n with any leading zeros gives exactly n; other strings are NaN here |
| `Config.DecimalRoundTrip` | server.js:45 | parsing the decimal spelling of a number gives that number back |
| `Config.LeadingZeroValue` | server.js:45 | a leading zero does not change the parsed value |
| `Config.ZerosValue` | server.js:45 | any number of leading zeros does not change the parsed value |
| `Config.SpelledValue` | server.js:45 | a decimal spelling of n after any leading zeros parses to n |
| `Config.CanonicalDecimal` | server.js:45 | a digit string without a leading zero is the canonical spelling of its value (converse of `DecimalRoundTrip`) |
| `Config.DigitStringSpelling` | server.js:45 | every non-empty digit string is leading zeros followed by some number's decimal spelling |
| `Config.SmtpPort` | server.js:45 | the effective port is never 0; a decimal `SMTP_PORT` n (leading zeros allowed) gives n, or 465 when n is 0 |
| `Config.PortFromDecimal` | server.js:45-46 | a decimal `SMTP_PORT` n, with any leading zeros, gives port n, or 465 when n is 0; `secure` holds exactly when `SMTP_SECURE` is `"true"` or n is 465 |
| `Config.PortWithoutNumber` | server.js:45-46 | an unset, empty or non-numeric `SMTP_PORT` gives port 465, and `secure` then follows the `SMTP_SECURE` flag alone |
| `Config.DefaultPortIsNotSecure` | server.js:45-46 | with neither variable set the port is 465 and `secure` is false |
| `Config.SmtpSecure` | server.js:46 | `secure` holds when the flag is `"true"` or `SMTP_PORT` spells 465 (leading zeros allowed), and only when the flag is `"true"` or `SMTP_PORT` is a digit string |
| `Config.Transport` | server.js:43-51 | the transport gets host, user and password as read, and the derived port and `secure` |
| `Render.PhoneText` | server.js:57 | a present, non-empty phone is kept verbatim; otherwise it renders as "Not provided" |
| `Render.NewlinesToBr` | server.js:59 | the rewritten message holds no newline, equals the message when it has none, and is 3 characters longer per newline |
| `Render.NewlinesToBrAppend` | server.js:59 | the rewrite distributes over concatenation |
| `Render.NewlinesToBrLines` | server.js:59 | lines joined by newlines become the same lines joined by `<br>`: each newline becomes exactly `<br>` and nothing else changes |
| `Render.TextBody` | server.js:67-73 | bare definition of the text template; its property (fields carried verbatim) is stated by `Render.ParseText` and `Render.TextBodyRoundTrip` |
| `Render.ParseText` | server.js:67-73 | whatever the text decoder accepts is exactly the text body of the fields it returns |
| `Render.TextBodyRoundTrip` | server.js:67-73 | decoding the text body gives back name, email, phone and the message verbatim |
| `Render.HtmlLayout` | server.js:53-60 | bare definition of the HTML template around an already rewritten message; its property is stated by `Render.ParseHtml` and `Render.HtmlLayoutRoundTrip` |
| `Render.HtmlBody` | server.js:53-60 | bare definition: the layout applied to the message with newlines rewritten; its property is stated by `Render.HtmlBodyRoundTrip` |
| `Render.ParseHtml` | server.js:53-60 | whatever the HTML decoder accepts is exactly the HTML layout of the fields it returns |
| `Render.HtmlLayoutRoundTrip` | server.js:53-60 | the HTML layout of single-line fields decodes back to those fields |
| `Render.HtmlBodyRoundTrip` | server.js:53-60 | decoding the HTML body gives back name, email and phone verbatim and the message with its newlines rewritten |
| `Contact.Destructure` | server.js:34 | a missing request body reads as one with all four fields absent |
| `Contact.Truthy` | server.js:36 | bare definition of a truthy string field (present and non-empty); used by `Contact.HandleContact` |
| `Contact.Complete` | server.js:36 | bare definition of the guard `name && email && message`; its consequences are stated by `Contact.HandleContact` and `Contact.RejectionIgnoresOutcome` |
| `Contact.BodyFields` | server.js:55-57 | bare definition of the values interpolated into both bodies (phone through `Render.PhoneText`); its property is stated by `Contact.SentBodiesCarrySubmission` |
| `Contact.Interpolate` | server.js:63 | a template literal spells a value verbatim and `undefined` as "undefined" |
| `Contact.Envelope` | server.js:62-66 | the mail is from "JC Elite Website" at the SMTP user, to `CONTACT_TO`, with reply-to the submitted email and the fixed subject |
| `Contact.EnvelopeSender` | server.js:63 | the sender address is the SMTP user (or "undefined") wrapped in the fixed display name and angle brackets, and stripping those gives the user back |
| `Contact.HandleContact` | server.js:33-84 | an incomplete submission gets 400 with the fixed error and no send; a complete one gets exactly one send, through the configured transport, of exactly the mail `Contact.Envelope` builds (sender, recipient, reply-to and subject as configured), then 200 `{ok:true}` on success or 500 with the fixed generic error on failure |
| `Contact.FailureDoesNotLeak` | server.js:78-83 | any two send errors produce the same exchange: the error does not reach the caller |
| `Contact.RejectionIgnoresOutcome` | server.js:36-40 | an incomplete submission is answered identically whatever the transport would do |
| `Contact.SentBodiesCarrySubmission` | server.js:53-73 | both bodies of the sent mail decode to the submitted name and email; the text body holds the message verbatim, the HTML body holds it with newlines as `<br>`, and the phone is the submitted one or "Not provided" |
| `Contact.AcceptedWithoutPhone` | server.js:33-77 | a delivered submission of name, email and message without a phone gets 200 `{ok:true}` and its text body shows the phone as "Not provided" |

## Left out

- Express wiring (server.js:27-31, 86-89): the body parsers, static file serving and the catch-all `index.html` fallback are framework routing and file-system I/O.
- The real SMTP send and transport construction inside nodemailer (server.js:43-51, 62): a foreign library doing network I/O. The send is an abstract outcome parameter, and the transport options are returned as data.
- Loading `.env`, `console.warn`/`console.error` logging and `app.listen` (server.js:4, 20-24, 79, 91-93): process I/O. The warning text is modelled; writing it is not.
- Config.ParseNumber: models JavaScript `Number` only for strings of decimal digits, and keeps the exact integer. `Number` returns an IEEE double: digit strings above 2^53 are rounded (`"9007199254740993"` becomes 9007199254740992 in the source), and digit strings whose value is at least about 1.7977e308 (2^1024 − 2^970) become `Infinity`. It also accepts surrounding whitespace, signs, `0x`/`0b`/`0o` prefixes, fractions, exponents and `"Infinity"`, which are read as NaN here.
- Config.SmtpSecure: its own contract states the two directions separately. The exact rule is stated by `Config.PortFromDecimal` and `Config.PortWithoutNumber`, which with `Config.DigitStringSpelling` cover every value of `SMTP_PORT`.
- Render.TextBodyRoundTrip, Render.HtmlBodyRoundTrip and Contact.SentBodiesCarrySubmission: stated only when name, email and phone contain no newline. With a newline in one of these fields the bodies are still rendered, but line-based decoding is ambiguous.
- Request-body values that are not strings (a number `message`, say, would make `.replace` throw into the 500 path): fields are modelled as optional strings.
- Async sequencing and concurrency: requests share no state, so interleaving has nothing to change.
- The `PORT` the server listens on (server.js:8): only used by `app.listen`.
