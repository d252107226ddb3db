/**
 * The `POST /api/send-mail` handler: the required-field guard, the
 * `from`, `subject` and `tel:` strings, the notification HTML with its
 * optional Phone and Message rows (values interpolated without escaping),
 * and the mapping of the transport's outcome to the response. The
 * transport is an object that records every message handed to it and
 * either accepts or throws.
 */
module SendMailRoute {
  import opened Text
  import opened Template

  /** The `Contact` body the handler reads. */
  datatype ContactBody = ContactBody(
    fullName: Option<string>,
    email: Option<string>,
    message: Option<string>,
    workType: Option<string>,
    phone: Option<string>)

  datatype Mail = Mail(from: string, to: string, subject: string, text: Option<string>, html: string)

  datatype ReplyBody = Success | Failure(error: string)

  /** `NextResponse.json(body, { status })`; the status defaults to 200. */
  datatype Reply = Reply(status: nat, body: ReplyBody)

  /** `!fullName || !email || !workType`. */
  predicate MissingFields(b: ContactBody) {
    !Truthy(b.fullName) || !Truthy(b.email) || !Truthy(b.workType)
  }

  /** The `from` header: the name in double quotes, then the address in angle brackets. */
  function From(fullName: string, email: string): (r: string)
    ensures "\"" + fullName + "\" <" <= r
    ensures EndsWith(r, "<" + email + ">")
  {
    var r := "\"" + fullName + "\" <" + email + ">";
    assert r == ("\"" + fullName + "\" ") + ("<" + email + ">");
    r
  }

  /** The subject line names the requester first and ends with the quoted work type. */
  function Subject(fullName: string, workType: string): (r: string)
    ensures fullName + " wants a quote for " <= r
    ensures EndsWith(r, "'" + workType + "'")
  {
    var r := fullName + " wants a quote for '" + workType + "'";
    assert r == (fullName + " wants a quote for ") + ("'" + workType + "'");
    r
  }

  /** The `tel:` target: the phone trimmed, with every `-` and then every space removed. */
  function TelTarget(phone: string): (r: string)
    ensures '-' !in r && ' ' !in r
    ensures forall c :: c in r ==> c in Trim(phone)
    ensures '-' !in Trim(phone) && ' ' !in Trim(phone) ==> r == Trim(phone)
  {
    ReplaceChar(ReplaceChar(Trim(phone), '-', ""), ' ', "")
  }

  // ---------------------------------------------------------------------------
  // The notification HTML
  // ---------------------------------------------------------------------------

  /** Values go into the HTML as they are. */
  function Verbatim(s: string): string {
    s
  }

  const HtmlOpen: string := "\n<div><div><h1>New Quote Request</h1></div><div><table><tr><td>Full Name:</td><td>"
  const EmailCells: string := "</td></tr><tr><td>Email:</td><td>"
  const RowClose: string := "</td></tr>"
  const PhoneOpen: string := "<tr><td>Phone:</td><td>  <a href=\"tel:"
  const WorkOpen: string := "<tr><td>Work Type:</td><td>"
  const MessageOpen: string := "<tr><td>Message:</td><td>"
  const SiteNote: string := "</table><p>This request was submitted via the Imperial Home Remodeling website.</p></div><div><p>Â© "
  const HtmlClose: string := " Imperial Home Remodeling</p></div></div>\n"

  function PhoneRow(phone: Option<string>): seq<Piece> {
    if Truthy(phone) then [Lit(PhoneOpen), Value(TelTarget(phone.value)), Lit("\">"), Value(phone.value), Lit("</a>" + RowClose)]
    else []
  }

  function MessageRow(message: Option<string>): seq<Piece> {
    if Truthy(message) then [Lit(MessageOpen), Value(message.value), Lit(RowClose)] else []
  }

  function Required(b: ContactBody): ContactBody {
    b.(phone := None, message := None)
  }

  /** The template with the Phone (1) and Message (3) slots left empty. */
  function Frame(b: ContactBody, year: nat): (r: seq<seq<Piece>>)
    ensures |r| == 5
  {
    [ [Lit(HtmlOpen), Value(OrEmpty(b.fullName)), Lit(EmailCells), Value(OrEmpty(b.email)), Lit(RowClose)],
      [],
      [Lit(WorkOpen), Value(OrEmpty(b.workType)), Lit(RowClose)],
      [],
      [Lit(SiteNote + NatToString(year) + HtmlClose)] ]
  }

  function Sections(b: ContactBody, year: nat): seq<seq<Piece>> {
    Frame(Required(b), year)[1 := PhoneRow(b.phone)][3 := MessageRow(b.message)]
  }

  /** The `html` of the message sent for `b` in the year `year`. */
  function Html(b: ContactBody, year: nat): string {
    Fill(Flatten(Sections(b, year)), Verbatim)
  }

  /** The message `POST` hands to the transport once the guard has passed. */
  function Compose(b: ContactBody, mailUser: string, year: nat): (m: Mail)
    ensures m.to == mailUser && m.text == b.message && m.html == Html(b, year)
  {
    var name, email := OrEmpty(b.fullName), OrEmpty(b.email);
    Mail(From(name, email), mailUser, Subject(name, OrEmpty(b.workType)), b.message, Html(b, year))
  }

  /**
   * The reply, given whether the transport accepted the message: success
   * (status 200) exactly when the required fields are there and the mail
   * went out; every other reply is an error body with a 4xx or 5xx status.
   */
  function Outcome(b: ContactBody, delivered: bool): (r: Reply)
    ensures r.status == 200 <==> !MissingFields(b) && delivered
    ensures r.body.Success? <==> r.status == 200
    ensures r.status == 200 || 400 <= r.status <= 599
    ensures MissingFields(b) ==> r == Reply(400, Failure("Missing fields"))
    ensures !MissingFields(b) && delivered ==> r == Reply(200, Success)
    ensures !MissingFields(b) && !delivered ==> r == Reply(500, Failure("Email failed to send"))
  {
    if MissingFields(b) then Reply(400, Failure("Missing fields"))
    else if delivered then Reply(200, Success)
    else Reply(500, Failure("Email failed to send"))
  }

  lemma PhoneRowText(phone: Option<string>)
    ensures !Truthy(phone) ==> Fill(PhoneRow(phone), Verbatim) == ""
    ensures Truthy(phone) ==> (Fill(PhoneRow(phone), Verbatim)
      == PhoneOpen + (TelTarget(phone.value) + ("\">" + phone.value + ("</a>" + RowClose))))
  {
    if Truthy(phone) {
      var r := PhoneRow(phone);
      FillFive(r[0], r[1], r[2], r[3], r[4], Verbatim);
    }
  }

  lemma MessageRowText(message: Option<string>)
    ensures !Truthy(message) ==> Fill(MessageRow(message), Verbatim) == ""
    ensures Truthy(message) ==> Fill(MessageRow(message), Verbatim) == MessageOpen + message.value + RowClose
  {
    if Truthy(message) {
      FillThree(Lit(MessageOpen), Value(message.value), Lit(RowClose), Verbatim);
    }
  }

  /**
   * The Phone row is there exactly when `phone` is truthy; it links to the
   * `tel:` target and shows the phone as typed.
   */
  lemma PhoneRowShown(b: ContactBody, year: nat) returns (k: nat)
    ensures var base := Html(b.(phone := None), year);
      && k <= |base|
      && (!Truthy(b.phone) ==> Html(b, year) == base)
      && (Truthy(b.phone) ==> Html(b, year) == base[..k] + (PhoneOpen + (TelTarget(b.phone.value) + ("\">" + b.phone.value + ("</a>" + RowClose)))) + base[k..])
  {
    var xs := Sections(b, year);
    var base := Html(b.(phone := None), year);
    assert Sections(b.(phone := None), year) == xs[1 := []];
    k := SectionInsert(xs, 1, Verbatim);
    PhoneRowText(b.phone);
    if !Truthy(b.phone) {
      assert base[..k] + "" + base[k..] == base;
    }
  }

  /** The Message row is there exactly when `message` is truthy, and shows it as typed. */
  lemma MessageRowShown(b: ContactBody, year: nat) returns (k: nat)
    ensures var base := Html(b.(message := None), year);
      && k <= |base|
      && (!Truthy(b.message) ==> Html(b, year) == base)
      && (Truthy(b.message) ==> Html(b, year) == base[..k] + (MessageOpen + b.message.value + RowClose) + base[k..])
  {
    var xs := Sections(b, year);
    var base := Html(b.(message := None), year);
    assert Sections(b.(message := None), year) == xs[3 := []];
    k := SectionInsert(xs, 3, Verbatim);
    MessageRowText(b.message);
    if !Truthy(b.message) {
      assert base[..k] + "" + base[k..] == base;
    }
  }

  lemma ShownInSection(b: ContactBody, year: nat, i: nat, v: string)
    requires i < |Sections(b, year)| && IsInfix(v, Fill(Sections(b, year)[i], Verbatim))
    ensures IsInfix(v, Html(b, year))
  {
    SectionInfix(Sections(b, year), i, Verbatim);
    InfixTrans(v, Fill(Sections(b, year)[i], Verbatim), Html(b, year));
  }

  /** Name and address reach the HTML exactly as submitted: nothing is escaped. */
  lemma NameAndEmailVerbatim(b: ContactBody, year: nat)
    requires !MissingFields(b)
    ensures IsInfix(b.fullName.value, Html(b, year))
    ensures IsInfix(b.email.value, Html(b, year))
  {
    var s0 := Sections(b, year)[0];
    assert s0 == [Lit(HtmlOpen), Value(b.fullName.value), Lit(EmailCells), Value(b.email.value), Lit(RowClose)];
    assert IsInfix(b.fullName.value, Fill(s0, Verbatim)) && IsInfix(b.email.value, Fill(s0, Verbatim)) by {
      FillFive(s0[0], s0[1], s0[2], s0[3], s0[4], Verbatim);
      InfixOfFiveNested(HtmlOpen, b.fullName.value, EmailCells, b.email.value, RowClose);
    }
    ShownInSection(b, year, 0, b.fullName.value);
    ShownInSection(b, year, 0, b.email.value);
  }

  /** The work type reaches the HTML exactly as submitted. */
  lemma WorkTypeVerbatim(b: ContactBody, year: nat)
    requires !MissingFields(b)
    ensures IsInfix(b.workType.value, Html(b, year))
  {
    var s2 := Sections(b, year)[2];
    assert s2 == [Lit(WorkOpen), Value(b.workType.value), Lit(RowClose)];
    FillThree(Lit(WorkOpen), Value(b.workType.value), Lit(RowClose), Verbatim);
    InfixOf(WorkOpen, b.workType.value, RowClose);
    ShownInSection(b, year, 2, b.workType.value);
  }

  // ---------------------------------------------------------------------------
  // POST
  // ---------------------------------------------------------------------------

  /** The mail transport: it records every message handed to `sendMail`, and `failing` says whether `sendMail` throws. */
  class Transport {
    var outbox: seq<Mail>
    var failing: bool

    constructor (failing: bool)
      ensures outbox == [] && this.failing == failing
    {
      outbox := [];
      this.failing := failing;
    }

    /** `await transporter.sendMail(m)`: `false` stands for the thrown error. */
    method SendMail(m: Mail) returns (delivered: bool)
      modifies this
      ensures outbox == old(outbox) + [m] && failing == old(failing)
      ensures delivered == !failing
    {
      outbox := outbox + [m];
      delivered := !failing;
    }
  }

  /**
   * `POST(req)` on the parsed body `b`: a missing name, address or work type
   * is answered 400 without touching the transport; otherwise exactly one
   * message is handed to it and the reply is 200 or 500.
   */
  method Post(b: ContactBody, t: Transport, mailUser: string, year: nat) returns (reply: Reply)
    modifies t
    ensures MissingFields(b) ==> t.outbox == old(t.outbox)
    ensures !MissingFields(b) ==> t.outbox == old(t.outbox) + [Compose(b, mailUser, year)]
    ensures t.failing == old(t.failing)
    ensures reply == Outcome(b, !t.failing)
  {
    if MissingFields(b) {
      return Reply(400, Failure("Missing fields"));
    }
    var delivered := t.SendMail(Compose(b, mailUser, year));
    if delivered {
      reply := Reply(200, Success);
    } else {
      reply := Reply(500, Failure("Email failed to send"));
    }
  }
}
