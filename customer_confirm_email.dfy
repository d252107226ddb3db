/**
 * The HTML confirmation sent to the customer (renderCustomerConfirmEmail):
 * a per-character escaper `esc` built on a lookup table, the template
 * literal with its optional Phone paragraph, and the final `.trim()`.
 * The copyright year is a parameter.
 */
module CustomerConfirmEmail {
  import opened Text
  import opened Template
  import ContactEmail

  datatype ConfirmPayload = ConfirmPayload(
    fullName: string,
    email: string,
    phone: Option<string>,
    workType: string,
    submittedAt: string,
    brand: string,
    siteUrl: string)

  // ---------------------------------------------------------------------------
  // esc
  // ---------------------------------------------------------------------------

  /** The replacement table of `esc`. */
  const EscTable: map<char, string> := map['&' := "&amp;", '<' := "&lt;", '>' := "&gt;", '"' := "&quot;"]

  /** The replacement of one character: its table entry, or the character itself. */
  function Lookup(c: char): (r: string)
    ensures '<' !in r && '>' !in r && '"' !in r
  {
    if c in EscTable then
      assert c == '&' || c == '<' || c == '>' || c == '"';
      EscTable[c]
    else [c]
  }

  /** `s.replace(/[&<>"]/g, c => table[c])`: each special character is looked up, every other one kept. */
  function Esc(s: string): (r: string)
    ensures '<' !in r && '>' !in r && '"' !in r
  {
    if s == [] then [] else Lookup(s[0]) + Esc(s[1..])
  }

  /** `esc` and the chain of replacements in `escapeHtml` are the same function. */
  lemma {:induction false} EscIsEscapeHtml(s: string)
    ensures Esc(s) == ContactEmail.EscapeHtml(s)
    decreases |s|
  {
    if s != [] {
      var c := s[0];
      assert s == [c] + s[1..];
      ContactEmail.EscapeHtmlAppend([c], s[1..]);
      ContactEmail.EscapeHtmlChar(c);
      EscIsEscapeHtml(s[1..]);
      EscTableEntity(c);
    }
  }

  lemma EscTableEntity(c: char)
    ensures Lookup(c) == ContactEmail.EntityFor(c)
  {
  }

  // ---------------------------------------------------------------------------
  // renderCustomerConfirmEmail
  // ---------------------------------------------------------------------------

  /** `p` without its optional field: what the fixed parts of the template are made from. */
  function Required(p: ConfirmPayload): ConfirmPayload {
    p.(phone := None)
  }

  /** The name in the greeting, `fullName || 'there'`: the greeting always names someone. */
  function Name(p: ConfirmPayload): (n: string)
    ensures n != []
    ensures p.fullName == "" ==> n == "there"
    ensures p.fullName != "" ==> n == p.fullName
  {
    OrElse(p.fullName, "there")
  }

  const Doctype: string := "<!doctype html>"
  const DocOpen: string := Doctype + "<html lang=\"en\"><head><meta charSet=\"utf-8\" /><title>"
  const HeaderOpen: string := " — Inquiry Received</title></head><body><div class=\"wrapper\"><div class=\"container\"><div class=\"header\">"
  const ContentOpen: string := "</div><div class=\"content\"><p class=\"h1\">"
  const GreetingOpen: string := "We received your inquiry — thank you, "
  const CalloutOpen: string := "</p><div class=\"callout\"><p><span class=\"strong\">Service:</span> "
  const BodyCopy: string :=
    "</div><hr class=\"hr\" /><p>A project specialist will review your request and reach out by email or phone within "
    + "<span class=\"strong\">24 hours</span> (often sooner) to discuss next steps and schedule your free consultation.</p>"
    + "<p class=\"muted\">What happens next?</p><ul class=\"kdl\"><li>We confirm your goals, timeline, and budget.</li>"
    + "<li>We propose options and a clear, itemized quote.</li>"
    + "<li>We coordinate a convenient time for an on-site visit if needed.</li></ul>"
    + "<p>If you need to add details or correct anything, simply reply to this email and our team will update your request.</p>"
    + "<p class=\"muted\">Visit us: "
  const FooterOpen: string := "</p></div><div class=\"footer\">© "
  const DocClose: string := ". All rights reserved.</div></div></div></body></html>"

  function Opening(p: ConfirmPayload): seq<Piece> {
    [Lit(DocOpen), Value(p.brand), Lit(HeaderOpen), Value(p.brand), Lit(ContentOpen)]
  }

  function Greeting(p: ConfirmPayload): seq<Piece> {
    [Lit(GreetingOpen), Value(Name(p)), Lit("!")]
  }

  function Summary(p: ConfirmPayload): seq<Piece> {
    [Lit("</p><p class=\"muted\">Submitted: "), Value(p.submittedAt), Lit(CalloutOpen), Value(p.workType), Lit("</p>")]
  }

  /** `${phone ? `<p>…Phone: ${phone}</p>` : ''}`, where `phone` is the escaped phone or '' (escaping keeps a non-empty string non-empty). */
  function PhoneParagraph(phone: Option<string>): seq<Piece> {
    if Truthy(phone) then [Lit("<p><span class=\"strong\">Phone:</span> "), Value(phone.value), Lit("</p>")] else []
  }

  function Link(p: ConfirmPayload): seq<Piece> {
    [Lit("<a href=\""), Value(p.siteUrl), Lit("\">"), Value(p.siteUrl), Lit("</a>")]
  }

  function Footer(p: ConfirmPayload, year: nat): seq<Piece> {
    [Lit(FooterOpen + NatToString(year) + " "), Value(p.brand), Lit(DocClose)]
  }

  /** The template between its leading and trailing newline, with the slot of the Phone paragraph (3) left empty. */
  function Frame(p: ConfirmPayload, year: nat): (r: seq<seq<Piece>>)
    ensures |r| == 7
  {
    [Opening(p), Greeting(p), Summary(p), [], [Lit(BodyCopy)], Link(p), Footer(p, year)]
  }

  function Sections(p: ConfirmPayload, year: nat): seq<seq<Piece>> {
    Frame(Required(p), year)[3 := PhoneParagraph(p.phone)]
  }

  /** The filled template between its leading and trailing newline. */
  function Body(p: ConfirmPayload, year: nat): string {
    Fill(Flatten(Sections(p, year)), Esc)
  }

  /** `renderCustomerConfirmEmail(p)` in the year `year`: the filled template literal, trimmed. */
  function RenderCustomerConfirmEmail(p: ConfirmPayload, year: nat): string {
    Trim(Fill([Lit("\n")] + Flatten(Sections(p, year)) + [Lit("\n")], Esc))
  }

  lemma OpeningStarts(p: ConfirmPayload)
    ensures Doctype <= Fill(Opening(p), Esc)
  {
    var o := Opening(p);
    assert Fill(o, Esc) == DocOpen + Fill(o[1..], Esc);
    assert DocOpen[..|Doctype|] == Doctype;
  }

  lemma FooterEnds(p: ConfirmPayload, year: nat)
    ensures EndsWith(Fill(Footer(p, year), Esc), "</html>")
  {
    var f := Footer(p, year);
    FillThree(f[0], f[1], f[2], Esc);
    var x := Fill(f, Esc);
    assert x == (FooterOpen + NatToString(year) + " " + Esc(p.brand)) + DocClose;
    assert EndsWith(DocClose, "</html>");
    assert x[|x| - |DocClose|..] == DocClose;
  }

  lemma BodyEnds(p: ConfirmPayload, year: nat)
    ensures var x := Body(p, year);
      && Doctype <= x
      && EndsWith(x, "</html>")
  {
    var xs := Sections(p, year);
    var r := Required(p);
    assert xs[0] == Opening(r) && xs[6] == Footer(r, year);
    FillFlattenEnds(xs, Esc);
    OpeningStarts(r);
    FooterEnds(r, year);
    Framed(Doctype, Fill(xs[0], Esc), Fill(Flatten(xs[1..6]), Esc), Fill(xs[6], Esc), "</html>");
  }

  /** `.trim()` only removes the newlines around the template: the text runs from `<!doctype html>` to `</html>`. */
  lemma TrimmedToDocument(p: ConfirmPayload, year: nat)
    ensures RenderCustomerConfirmEmail(p, year) == Body(p, year)
    ensures Doctype <= RenderCustomerConfirmEmail(p, year)
    ensures EndsWith(RenderCustomerConfirmEmail(p, year), "</html>")
  {
    var x := Body(p, year);
    BodyEnds(p, year);
    Padded(Flatten(Sections(p, year)));
    assert x[0] == '<' && x[|x| - 1] == '>' by {
      assert x[0] == Doctype[0];
      assert x[|x| - 1] == "</html>"[6];
    }
    TrimAround("\n", x, "\n");
  }

  /** The template literal opens and closes with a newline around its content. */
  lemma Padded(ps: seq<Piece>)
    ensures Fill([Lit("\n")] + ps + [Lit("\n")], Esc) == "\n" + Fill(ps, Esc) + "\n"
  {
    FillAppend3([Lit("\n")], ps, [Lit("\n")], Esc);
    assert Fill([Lit("\n")], Esc) == "\n" by {
      assert [Lit("\n")][1..] == [];
    }
  }

  lemma PhoneInBody(p: ConfirmPayload, year: nat) returns (k: nat)
    ensures var base := Body(p.(phone := None), year);
      && k <= |base|
      && Body(p, year) == base[..k] + Fill(PhoneParagraph(p.phone), Esc) + base[k..]
  {
    var xs := Sections(p, year);
    assert Sections(p.(phone := None), year) == xs[3 := []];
    k := SectionInsert(xs, 3, Esc);
  }

  lemma PhoneText(phone: Option<string>)
    ensures !Truthy(phone) ==> Fill(PhoneParagraph(phone), Esc) == ""
    ensures Truthy(phone) ==> Fill(PhoneParagraph(phone), Esc) == "<p><span class=\"strong\">Phone:</span> " + Esc(phone.value) + "</p>"
  {
    if Truthy(phone) {
      FillThree(Lit("<p><span class=\"strong\">Phone:</span> "), Value(phone.value), Lit("</p>"), Esc);
    }
  }

  /** The Phone paragraph is there exactly when `phone` is non-empty: without it the message is the one for no phone. */
  lemma PhoneParagraphShown(p: ConfirmPayload, year: nat) returns (k: nat)
    ensures var base := RenderCustomerConfirmEmail(p.(phone := None), year);
      && k <= |base|
      && (!Truthy(p.phone) ==> RenderCustomerConfirmEmail(p, year) == base)
      && (Truthy(p.phone) ==> RenderCustomerConfirmEmail(p, year) == base[..k] + ("<p><span class=\"strong\">Phone:</span> " + Esc(p.phone.value) + "</p>") + base[k..])
  {
    TrimmedToDocument(p, year);
    TrimmedToDocument(p.(phone := None), year);
    k := PhoneInBody(p, year);
    PhoneText(p.phone);
    var base := Body(p.(phone := None), year);
    if !Truthy(p.phone) {
      assert base[..k] + "" + base[k..] == base;
    }
  }

  /** The greeting thanks the customer by escaped name, or "there" when the name is empty. */
  lemma GreetingShown(p: ConfirmPayload, year: nat)
    ensures IsInfix(GreetingOpen + Esc(Name(p)) + "!", RenderCustomerConfirmEmail(p, year))
  {
    assert Name(Required(p)) == Name(p);
    assert Sections(p, year)[1] == Greeting(p);
    SectionInfix(Sections(p, year), 1, Esc);
    FillThree(Lit(GreetingOpen), Value(Name(p)), Lit("!"), Esc);
    TrimmedToDocument(p, year);
  }

  lemma LinkText(p: ConfirmPayload)
    ensures Fill(Link(p), Esc) == "<a href=\"" + Esc(p.siteUrl) + "\">" + Esc(p.siteUrl) + "</a>"
  {
    var l := Link(p);
    FillFive(l[0], l[1], l[2], l[3], l[4], Esc);
  }

  /** The "Visit us" link points at the escaped site URL and shows it. */
  lemma LinkShown(p: ConfirmPayload, year: nat)
    ensures IsInfix("<a href=\"" + Esc(p.siteUrl) + "\">" + Esc(p.siteUrl) + "</a>", RenderCustomerConfirmEmail(p, year))
  {
    assert Sections(p, year)[5] == Link(p);
    SectionInfix(Sections(p, year), 5, Esc);
    LinkText(p);
    TrimmedToDocument(p, year);
  }

  lemma PhoneSkeleton(a: Option<string>, b: Option<string>)
    requires Truthy(a) == Truthy(b)
    ensures Skeleton(PhoneParagraph(a)) == Skeleton(PhoneParagraph(b))
  {
  }

  lemma FrameSkeleton(p1: ConfirmPayload, p2: ConfirmPayload, year: nat, i: nat)
    requires i < 7
    ensures Skeleton(Frame(p1, year)[i]) == Skeleton(Frame(p2, year)[i])
  {
    if i == 0 {
      assert Skeleton(Opening(p1)) == Skeleton(Opening(p2));
    } else if i == 1 {
      assert Skeleton(Greeting(p1)) == Skeleton(Greeting(p2));
    } else if i == 2 {
      assert Skeleton(Summary(p1)) == Skeleton(Summary(p2));
    } else if i == 5 {
      assert Skeleton(Link(p1)) == Skeleton(Link(p2));
    } else if i == 6 {
      assert Skeleton(Footer(p1, year)) == Skeleton(Footer(p2, year));
    }
  }

  /**
   * Every field reaches the HTML through `esc`: two payloads that both have a
   * phone, or both lack one, give messages with the same number of `<`, `>`
   * and `"`.
   */
  lemma FieldsAddNoMarkup(p1: ConfirmPayload, p2: ConfirmPayload, year: nat, c: char)
    requires Truthy(p1.phone) == Truthy(p2.phone)
    requires c == '<' || c == '>' || c == '"'
    ensures Count(RenderCustomerConfirmEmail(p1, year), c) == Count(RenderCustomerConfirmEmail(p2, year), c)
  {
    TrimmedToDocument(p1, year);
    TrimmedToDocument(p2, year);
    var xs, ys := Sections(p1, year), Sections(p2, year);
    forall i | 0 <= i < |xs| ensures Skeleton(xs[i]) == Skeleton(ys[i]) {
      if i == 3 {
        PhoneSkeleton(p1.phone, p2.phone);
      } else {
        FrameSkeleton(Required(p1), Required(p2), year, i);
      }
    }
    FlattenSkeleton(xs, ys);
    SameSkeletonSameCount(Flatten(xs), Flatten(ys), Esc, c);
  }
}
