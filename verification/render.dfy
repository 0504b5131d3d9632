/** The two renderings of a contact submission sent in the notification
    mail (server.js lines 53-73), and decoders that read the fields back
    out of them. No HTML escaping is done: only newlines of the message
    are rewritten, and only in the HTML body. */
module Render {
  import opened Wrappers
  import opened Strings

  /** The field values as they are interpolated into the bodies. */
  datatype Fields = Fields(name: string, email: string, phone: string, message: string)

  const NotProvided: string := "Not provided"

  /** `phone || "Not provided"`: an absent or empty phone is replaced. */
  function PhoneText(phone: Option<string>): (r: string)
    ensures r != ""
    ensures phone.Some? && phone.value != "" ==> r == phone.value
    ensures phone.None? || phone.value == "" ==> r == "Not provided"
  {
    if phone.Some? && phone.value != "" then phone.value else NotProvided
  }

  /** How many newlines `s` holds. */
  function NewlineCount(s: string): nat
  {
    multiset(s)['\n']
  }

  /** `message.replace(/\n/g, "<br>")`. */
  function NewlinesToBr(s: string): (r: string)
    ensures '\n' !in r
    ensures '\n' !in s ==> r == s
    ensures |r| == |s| + 3 * NewlineCount(s)
  {
    if |s| == 0 then ""
    else
      assert s == [s[0]] + s[1..];
      (if s[0] == '\n' then "<br>" else [s[0]]) + NewlinesToBr(s[1..])
  }

  /** The rewrite works piecewise: it distributes over concatenation. */
  lemma {:induction false} NewlinesToBrAppend(a: string, b: string)
    ensures NewlinesToBr(a + b) == NewlinesToBr(a) + NewlinesToBr(b)
  {
    if |a| > 0 {
      assert (a + b)[0] == a[0];
      assert (a + b)[1..] == a[1..] + b;
      NewlinesToBrAppend(a[1..], b);
    } else {
      assert a + b == b;
    }
  }

  /** A message made of lines joined by newlines renders as the same lines
      joined by `<br>`: every newline becomes exactly `<br>` and nothing
      else changes. */
  lemma {:induction false} NewlinesToBrLines(lines: seq<string>)
    requires forall i :: 0 <= i < |lines| ==> '\n' !in lines[i]
    ensures NewlinesToBr(Join(lines, "\n")) == Join(lines, "<br>")
  {
    if |lines| > 1 {
      var head, rest := lines[0], lines[1..];
      var tail := Join(rest, "\n");
      assert forall i :: 0 <= i < |rest| ==> '\n' !in rest[i] by {
        forall i | 0 <= i < |rest| ensures '\n' !in rest[i] {
          assert rest[i] == lines[i + 1];
        }
      }
      NewlinesToBrLines(rest);
      NewlinesToBrNewline(tail);
      JoinUnfold(lines, "\n");
      JoinUnfold(lines, "<br>");
      NewlinesToBrAppend(head, "\n" + tail);
    }
  }

  lemma NewlinesToBrNewline(t: string)
    ensures NewlinesToBr("\n" + t) == "<br>" + NewlinesToBr(t)
  {
    assert ("\n" + t)[0] == '\n';
    assert ("\n" + t)[1..] == t;
  }

  /** The plain-text body (server.js lines 67-73): one line per field,
      a blank line, a heading, then the message and a final newline. */
  function TextBody(f: Fields): string
  {
    Line("Name: ", f.name, "") +
    (Line("Email: ", f.email, "") +
    (Line("Phone: ", f.phone, "") +
    ("\nMessage:\n" + (f.message + "\n"))))
  }

  const HtmlHead: string := "\n      <h2>New Contact Inquiry</h2>\n"
  const HtmlNameOpen: string := "      <p><strong>Name:</strong> "
  const HtmlEmailOpen: string := "      <p><strong>Email:</strong> "
  const HtmlPhoneOpen: string := "      <p><strong>Phone:</strong> "
  const HtmlMessageHeading: string := "      <p><strong>Message:</strong></p>\n"
  const HtmlMessageOpen: string := "      <p>"
  const HtmlClose: string := "</p>"
  const HtmlTail: string := "    "

  /** The HTML template with the message already rewritten: an empty first
      line, the heading, one paragraph line per field, the message heading,
      the message paragraph and the closing indentation. */
  function HtmlLayout(f: Fields): string
  {
    HtmlHead +
    (Line(HtmlNameOpen, f.name, HtmlClose) +
    (Line(HtmlEmailOpen, f.email, HtmlClose) +
    (Line(HtmlPhoneOpen, f.phone, HtmlClose) +
    (HtmlMessageHeading +
    (Line(HtmlMessageOpen, f.message, HtmlClose) +
    HtmlTail)))))
  }

  /** The HTML body (server.js lines 53-60). */
  function HtmlBody(f: Fields): string
  {
    HtmlLayout(f.(message := NewlinesToBr(f.message)))
  }

  /** Reads the four fields back out of a plain-text body. Whatever it
      accepts is exactly the rendering of what it returns. */
  function ParseText(t: string): (r: Option<Fields>)
    ensures r.Some? ==> t == TextBody(r.value)
  {
    match ExpectLine(t, "Name: ", "")
    case None => None
    case Some((name, t1)) =>
      match ExpectLine(t1, "Email: ", "")
      case None => None
      case Some((email, t2)) =>
        match ExpectLine(t2, "Phone: ", "")
        case None => None
        case Some((phone, t3)) =>
          match StripPrefix(t3, "\nMessage:\n")
          case None => None
          case Some(t4) =>
            match StripSuffix(t4, "\n")
            case None => None
            case Some(message) =>
              Some(Fields(name, email, phone, message))
  }

  /** Reads the fields back out of an HTML body; the message comes back in
      its rewritten form. Whatever it accepts is exactly the layout of what
      it returns. */
  function ParseHtml(h: string): (r: Option<Fields>)
    ensures r.Some? ==> h == HtmlLayout(r.value)
  {
    match StripPrefix(h, HtmlHead)
    case None => None
    case Some(h1) =>
      match ExpectLine(h1, HtmlNameOpen, HtmlClose)
      case None => None
      case Some((name, h2)) =>
        match ExpectLine(h2, HtmlEmailOpen, HtmlClose)
        case None => None
        case Some((email, h3)) =>
          match ExpectLine(h3, HtmlPhoneOpen, HtmlClose)
          case None => None
          case Some((phone, h4)) =>
            match StripPrefix(h4, HtmlMessageHeading)
            case None => None
            case Some(h5) =>
              match ExpectLine(h5, HtmlMessageOpen, HtmlClose)
              case None => None
              case Some((message, h6)) =>
                if h6 == HtmlTail then Some(Fields(name, email, phone, message))
                else None
  }

  /** The text body carries every field verbatim: when name, email and
      phone are single lines, decoding the body gives them back, together
      with the message unchanged. */
  lemma TextBodyRoundTrip(f: Fields)
    requires '\n' !in f.name && '\n' !in f.email && '\n' !in f.phone
    ensures ParseText(TextBody(f)) == Some(f)
  {
    var rest3 := "\nMessage:\n" + (f.message + "\n");
    var rest2 := Line("Phone: ", f.phone, "") + rest3;
    var rest1 := Line("Email: ", f.email, "") + rest2;
    NoNewlineInConcat("Name: ", f.name, "");
    NoNewlineInConcat("Email: ", f.email, "");
    NoNewlineInConcat("Phone: ", f.phone, "");
    ExpectLineOfConcat("Name: ", f.name, "", rest1);
    ExpectLineOfConcat("Email: ", f.email, "", rest2);
    ExpectLineOfConcat("Phone: ", f.phone, "", rest3);
    StripPrefixOfConcat("\nMessage:\n", f.message + "\n");
    StripSuffixOfConcat(f.message, "\n");
  }

  /** Decoding inverts the layout for single-line fields. */
  lemma HtmlLayoutRoundTrip(g: Fields)
    requires '\n' !in g.name && '\n' !in g.email && '\n' !in g.phone && '\n' !in g.message
    ensures ParseHtml(HtmlLayout(g)) == Some(g)
  {
    var rest5 := Line(HtmlMessageOpen, g.message, HtmlClose) + HtmlTail;
    var rest4 := HtmlMessageHeading + rest5;
    var rest3 := Line(HtmlPhoneOpen, g.phone, HtmlClose) + rest4;
    var rest2 := Line(HtmlEmailOpen, g.email, HtmlClose) + rest3;
    var rest1 := Line(HtmlNameOpen, g.name, HtmlClose) + rest2;
    HtmlLineRoundTrip(HtmlNameOpen, g.name, rest2);
    HtmlLineRoundTrip(HtmlEmailOpen, g.email, rest3);
    HtmlLineRoundTrip(HtmlPhoneOpen, g.phone, rest4);
    HtmlLineRoundTrip(HtmlMessageOpen, g.message, HtmlTail);
    StripPrefixOfConcat(HtmlHead, rest1);
    StripPrefixOfConcat(HtmlMessageHeading, rest5);
  }

  lemma HtmlLineRoundTrip(open: string, field: string, rest: string)
    requires open in {HtmlNameOpen, HtmlEmailOpen, HtmlPhoneOpen, HtmlMessageOpen}
    requires '\n' !in field
    ensures ExpectLine(Line(open, field, HtmlClose) + rest, open, HtmlClose) == Some((field, rest))
  {
    assert '\n' !in open;
    assert '\n' !in HtmlClose;
    NoNewlineInConcat(open, field, HtmlClose);
    ExpectLineOfConcat(open, field, HtmlClose, rest);
  }

  /** The HTML body carries name, email and phone verbatim and the message
      with its newlines rewritten, so decoding it gives them back. */
  lemma HtmlBodyRoundTrip(f: Fields)
    requires '\n' !in f.name && '\n' !in f.email && '\n' !in f.phone
    ensures ParseHtml(HtmlBody(f)) == Some(f.(message := NewlinesToBr(f.message)))
  {
    HtmlLayoutRoundTrip(f.(message := NewlinesToBr(f.message)));
  }
}
