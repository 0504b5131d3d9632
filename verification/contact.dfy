/** The `POST /api/contact` handler (server.js lines 33-84) as a pure
    function. The mail transport's send is not performed: its outcome is a
    parameter, and the send calls the handler makes are returned alongside
    the HTTP response so that their number and arguments can be stated. */
module Contact {
  import opened Wrappers
  import opened Config
  import opened Render
  import Strings

  /** The four fields destructured from the request body; `None` is a
      field the body does not have. */
  datatype Submission = Submission(
    name: Option<string>,
    email: Option<string>,
    phone: Option<string>,
    message: Option<string>)

  /** `req.body || {}`: a request without a body has no fields. */
  function Destructure(body: Option<Submission>): (s: Submission)
    ensures body.Some? ==> s == body.value
    ensures body.None? ==> s.name.None? && s.email.None? && s.phone.None? && s.message.None?
  {
    match body
    case Some(b) => b
    case None => Submission(None, None, None, None)
  }

  /** JavaScript truthiness of a string field: present and non-empty. */
  predicate Truthy(v: Option<string>)
  {
    v.Some? && v.value != ""
  }

  /** The submission passes the handler's guard. */
  predicate Complete(s: Submission)
  {
    Truthy(s.name) && Truthy(s.email) && Truthy(s.message)
  }

  /** The JSON payload: `{ok: true}` or `{ok: false, error}`. */
  datatype Payload = Accepted | Rejected(error: string)

  datatype Response = Response(status: nat, payload: Payload)

  const MissingFieldsError: string := "Name, email, and message are required."
  const DeliveryFailedError: string := "Unable to send message. Please try again later."
  const Subject: string := "New inquiry from JC Elite Equine Ltd website"
  const SenderName: string := "\"JC Elite Website\""

  /** The message handed to the transport's `sendMail`. `to` is passed on
      as read from the environment, `undefined` included. */
  datatype MailRequest = MailRequest(
    from: string,
    to: Option<string>,
    replyTo: string,
    subject: string,
    text: string,
    html: string)

  /** One call of `sendMail`, with the transport it was made through. */
  datatype SendCall = SendCall(transport: TransportOptions, mail: MailRequest)

  /** What the transport's send did: resolved, or rejected with an error. */
  datatype SendOutcome = Delivered | Failed(error: string)

  /** The send calls a request made, and the response it got. */
  datatype Exchange = Exchange(sends: seq<SendCall>, response: Response)

  /** `${v}` in a template literal: `undefined` is spelled out. */
  function Interpolate(v: Option<string>): (r: string)
    ensures v.Some? ==> r == v.value
    ensures v.None? ==> r == "undefined"
  {
    v.GetOr("undefined")
  }

  /** The values interpolated into both bodies. */
  function BodyFields(s: Submission): Fields
    requires Complete(s)
  {
    Fields(s.name.value, s.email.value, PhoneText(s.phone), s.message.value)
  }

  /** The mail for a complete submission (server.js lines 62-75). */
  function Envelope(env: Env, s: Submission): (m: MailRequest)
    requires Complete(s)
    ensures Lookup(env, "SMTP_USER").Some? ==>
              m.from == "\"JC Elite Website\" <" + env["SMTP_USER"] + ">"
    ensures m.to == Lookup(env, "CONTACT_TO")
    ensures m.replyTo == s.email.value
    ensures m.subject == "New inquiry from JC Elite Equine Ltd website"
  {
    MailRequest(
      SenderName + " <" + Interpolate(Lookup(env, "SMTP_USER")) + ">",
      Lookup(env, "CONTACT_TO"),
      s.email.value,
      Subject,
      TextBody(BodyFields(s)),
      HtmlBody(BodyFields(s)))
  }

  /** The sender address wraps the SMTP user, spelled as a template literal
      spells it, in the fixed display name and angle brackets: stripping
      them gives the user back. */
  lemma EnvelopeSender(env: Env, s: Submission)
    requires Complete(s)
    ensures var from := Envelope(env, s).from;
            && Strings.StripPrefix(from, "\"JC Elite Website\" <").Some?
            && Strings.StripSuffix(Strings.StripPrefix(from, "\"JC Elite Website\" <").value, ">")
               == Some(Interpolate(Lookup(env, "SMTP_USER")))
  {
    var user := Interpolate(Lookup(env, "SMTP_USER"));
    assert Envelope(env, s).from == "\"JC Elite Website\" <" + (user + ">");
    Strings.StripPrefixOfConcat("\"JC Elite Website\" <", user + ">");
    Strings.StripSuffixOfConcat(user, ">");
  }

  /** The handler. `outcome` is what the transport's send does with the
      one mail it is given; it is not consulted when no mail is sent. */
  function HandleContact(env: Env, body: Option<Submission>, outcome: SendOutcome): (r: Exchange)
    ensures !Complete(Destructure(body)) ==>
              r.sends == [] &&
              r.response == Response(400, Rejected("Name, email, and message are required."))
    ensures Complete(Destructure(body)) ==>
              |r.sends| == 1 &&
              r.sends[0].transport == Transport(env) &&
              r.sends[0].mail == Envelope(env, Destructure(body)) &&
              r.sends[0].mail.replyTo == Destructure(body).email.value &&
              r.sends[0].mail.to == Lookup(env, "CONTACT_TO") &&
              r.sends[0].mail.subject == "New inquiry from JC Elite Equine Ltd website"
    ensures Complete(Destructure(body)) && outcome.Delivered? ==>
              r.response == Response(200, Accepted)
    ensures Complete(Destructure(body)) && outcome.Failed? ==>
              r.response == Response(500, Rejected("Unable to send message. Please try again later."))
  {
    var s := Destructure(body);
    if !Complete(s) then
      Exchange([], Response(400, Rejected(MissingFieldsError)))
    else
      var call := SendCall(Transport(env), Envelope(env, s));
      match outcome
      case Delivered => Exchange([call], Response(200, Accepted))
      case Failed(_) => Exchange([call], Response(500, Rejected(DeliveryFailedError)))
  }

  /** The error a failed send reports never reaches the caller: any two
      failures produce the same exchange. */
  lemma FailureDoesNotLeak(env: Env, body: Option<Submission>, e1: string, e2: string)
    ensures HandleContact(env, body, Failed(e1)) == HandleContact(env, body, Failed(e2))
  {
  }

  /** An incomplete submission is answered the same way whatever the
      transport would have done, and repeating it repeats the answer. */
  lemma RejectionIgnoresOutcome(env: Env, body: Option<Submission>, o1: SendOutcome, o2: SendOutcome)
    requires !Complete(Destructure(body))
    ensures HandleContact(env, body, o1) == HandleContact(env, body, o2)
  {
  }

  /** Both bodies of the sent mail carry the submission: decoding the text
      body gives name, email and message verbatim, decoding the HTML body
      gives the message with each newline turned into `<br>`, and in both
      the phone is the submitted one or "Not provided" when it is absent or
      empty. Name, email and phone are single lines, as a form's inputs
      are. */
  lemma SentBodiesCarrySubmission(env: Env, s: Submission, outcome: SendOutcome)
    requires Complete(s)
    requires '\n' !in s.name.value && '\n' !in s.email.value
    requires Truthy(s.phone) ==> '\n' !in s.phone.value
    ensures var mail := HandleContact(env, Some(s), outcome).sends[0].mail;
            var text := ParseText(mail.text);
            var html := ParseHtml(mail.html);
            && text.Some? && html.Some?
            && text.value.name == html.value.name == s.name.value
            && text.value.email == html.value.email == s.email.value
            && text.value.message == s.message.value
            && html.value.message == NewlinesToBr(s.message.value)
            && (Truthy(s.phone) ==> text.value.phone == html.value.phone == s.phone.value)
            && (!Truthy(s.phone) ==> text.value.phone == html.value.phone == "Not provided")
  {
    var f := BodyFields(s);
    TextBodyRoundTrip(f);
    HtmlBodyRoundTrip(f);
  }

  /** A complete submission without a phone, delivered: status 200 with
      `{ok: true}`, and the phone reads "Not provided" in the mail. */
  lemma AcceptedWithoutPhone(env: Env)
    ensures var r := HandleContact(env, Some(Submission(Some("A"), Some("a@b.com"), None, Some("Hi"))), Delivered);
            && r.response == Response(200, Accepted)
            && ParseText(r.sends[0].mail.text) == Some(Fields("A", "a@b.com", "Not provided", "Hi"))
  {
    var s := Submission(Some("A"), Some("a@b.com"), None, Some("Hi"));
    SentBodiesCarrySubmission(env, s, Delivered);
  }
}
