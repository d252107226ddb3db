/**
 * The internal "New Quote Request" notice in HTML (renderContactEmail):
 * the `escapeHtml` chain of replacements, the `row` helper that drops
 * empty fields, and the template with its optional Submitted line, Phone
 * row and Project Notes block. The copyright year is a parameter.
 */
module ContactEmail {
  import opened Text
  import opened Template

  // ---------------------------------------------------------------------------
  // escapeHtml
  // ---------------------------------------------------------------------------

  /** `escapeHtml`: four global replacements, `&` first so that no entity is escaped twice. */
  function EscapeHtml(s: string): (r: string)
    ensures '<' !in r && '>' !in r && '"' !in r
  {
    ReplaceChar(ReplaceChar(ReplaceChar(ReplaceChar(s, '&', "&amp;"), '<', "&lt;"), '>', "&gt;"), '"', "&quot;")
  }

  /** What `escapeHtml` turns one character into. */
  function EntityFor(c: char): string {
    if c == '&' then "&amp;"
    else if c == '<' then "&lt;"
    else if c == '>' then "&gt;"
    else if c == '"' then "&quot;"
    else [c]
  }

  /** Escaping distributes over concatenation. */
  lemma EscapeHtmlAppend(a: string, b: string)
    ensures EscapeHtml(a + b) == EscapeHtml(a) + EscapeHtml(b)
  {
    var a1, b1 := ReplaceChar(a, '&', "&amp;"), ReplaceChar(b, '&', "&amp;");
    var a2, b2 := ReplaceChar(a1, '<', "&lt;"), ReplaceChar(b1, '<', "&lt;");
    var a3, b3 := ReplaceChar(a2, '>', "&gt;"), ReplaceChar(b2, '>', "&gt;");
    ReplaceCharAppend(a, b, '&', "&amp;");
    ReplaceCharAppend(a1, b1, '<', "&lt;");
    ReplaceCharAppend(a2, b2, '>', "&gt;");
    ReplaceCharAppend(a3, b3, '"', "&quot;");
  }

  /** The chain of replacements escapes character by character: the four specials become entities, every other character is kept. */
  lemma EscapeHtmlChar(c: char)
    ensures EscapeHtml([c]) == EntityFor(c)
  {
    ReplaceCharSingle(c, '&', "&amp;");
    if c == '&' {
      assert '<' !in "&amp;" && '>' !in "&amp;" && '"' !in "&amp;";
    } else {
      ReplaceCharSingle(c, '<', "&lt;");
      if c == '<' {
        assert '>' !in "&lt;" && '"' !in "&lt;";
      } else {
        ReplaceCharSingle(c, '>', "&gt;");
        if c == '>' {
          assert '"' !in "&gt;";
        } else {
          ReplaceCharSingle(c, '"', "&quot;");
        }
      }
    }
  }

  /** Decoding of the four entities that `escapeHtml` produces. */
  function UnescapeHtml(s: string): string
    decreases |s|
  {
    if s == [] then []
    else if "&amp;" <= s then "&" + UnescapeHtml(s[5..])
    else if "&lt;" <= s then "<" + UnescapeHtml(s[4..])
    else if "&gt;" <= s then ">" + UnescapeHtml(s[4..])
    else if "&quot;" <= s then "\"" + UnescapeHtml(s[6..])
    else [s[0]] + UnescapeHtml(s[1..])
  }

  lemma UnescapeEntity(c: char, rest: string)
    ensures UnescapeHtml(EntityFor(c) + rest) == [c] + UnescapeHtml(rest)
  {
    var e := EntityFor(c) + rest;
    if c == '&' {
      assert "&amp;" <= e && e[5..] == rest;
    } else if c == '<' {
      assert e[1] == 'l' && !("&amp;" <= e);
      assert "&lt;" <= e && e[4..] == rest;
    } else if c == '>' {
      assert e[1] == 'g' && !("&amp;" <= e) && !("&lt;" <= e);
      assert "&gt;" <= e && e[4..] == rest;
    } else if c == '"' {
      assert e[1] == 'q' && !("&amp;" <= e) && !("&lt;" <= e) && !("&gt;" <= e);
      assert "&quot;" <= e && e[6..] == rest;
    } else {
      assert e[0] == c && e[1..] == rest;
    }
  }

  /** Un-escaping the output of `escapeHtml` gives back the input: escaping loses nothing. */
  lemma {:induction false} UnescapeEscapeHtml(s: string)
    ensures UnescapeHtml(EscapeHtml(s)) == s
    decreases |s|
  {
    if s != [] {
      assert s == [s[0]] + s[1..];
      EscapeHtmlAppend([s[0]], s[1..]);
      EscapeHtmlChar(s[0]);
      UnescapeEntity(s[0], EscapeHtml(s[1..]));
      UnescapeEscapeHtml(s[1..]);
    }
  }

  // ---------------------------------------------------------------------------
  // renderContactEmail
  // ---------------------------------------------------------------------------

  datatype EmailData = EmailData(
    fullName: string,
    email: string,
    phone: Option<string>,
    zip: string,
    workType: string,
    message: Option<string>,
    submittedAt: Option<string>,
    brand: Option<string>)

  const DefaultBrand: string := "Imperial Home Remodeling"

  /** The destructuring default `brand = 'Imperial Home Remodeling'`: applies only when `brand` is undefined. */
  function Brand(d: EmailData): (b: string)
    ensures d.brand.None? ==> b == DefaultBrand
    ensures d.brand.Some? ==> b == d.brand.value
  {
    if d.brand.Some? then d.brand.value else DefaultBrand
  }

  /** `row(caption, value)`: nothing for a missing or empty value, otherwise a table row with the caption and the escaped value. */
  function Row(caption: string, value: Option<string>): seq<Piece> {
    if Truthy(value) then [Lit("<tr><td>" + caption + "</td><td>"), Value(value.value), Lit("</td></tr>")] else []
  }

  function RowText(caption: string, value: Option<string>): (r: string)
    ensures r == "" <==> !Truthy(value)
    ensures Truthy(value) ==> r == "<tr><td>" + caption + "</td><td>" + EscapeHtml(value.value) + "</td></tr>"
  {
    if Truthy(value) then
      FillThree(Lit("<tr><td>" + caption + "</td><td>"), Value(value.value), Lit("</td></tr>"), EscapeHtml);
      Fill(Row(caption, value), EscapeHtml)
    else
      Fill(Row(caption, value), EscapeHtml)
  }

  /** A present row shows its caption and the escaped value. */
  lemma RowShows(caption: string, value: Option<string>)
    requires Truthy(value)
    ensures IsInfix(caption, RowText(caption, value)) && IsInfix(EscapeHtml(value.value), RowText(caption, value))
  {
    InfixOfFive("<tr><td>", caption, "</td><td>", EscapeHtml(value.value), "</td></tr>");
  }

  /** `message && message.trim()`. */
  predicate HasNotes(message: Option<string>) {
    Truthy(message) && Trim(message.value) != ""
  }

  const DocOpen: string :=
    "\n<!doctype html><html><head><title>New Quote Request</title></head><body>"
    + "<table><tr><td><table><tr><td>"
  const HeaderClose: string := "</span></td></tr></table><table><tr><td><div>New Quote Request</div>"

  function Header(d: EmailData): seq<Piece> {
    [Lit(DocOpen), Value(Brand(d)), Lit("</td><td><span>"), Value(d.workType), Lit(HeaderClose)]
  }

  function Submitted(submittedAt: Option<string>): seq<Piece> {
    if Truthy(submittedAt) then [Lit("<div>Submitted "), Value(submittedAt.value), Lit("</div>")] else []
  }

  function Pills(d: EmailData): seq<Piece> {
    [ Lit("<div><span>Lead \U{2022} Website</span><span>ZIP "),
      Value(d.zip),
      Lit("</span></div></td></tr><tr><td><table>") ]
  }

  const DetailsClose: string := "</table></td></tr>"

  const NotesOpen: string := "<tr><td><div>Project Notes</div><div>"
  const NotesClose: string := "</div></td></tr>"

  function Notes(message: Option<string>): seq<Piece> {
    if HasNotes(message) then
      [Lit(NotesOpen), Value(message.value), Lit(NotesClose)]
    else []
  }

  const Checklist: string :=
    "<tr><td><div>Quick Checklist</div><ul><li>Confirm preferred contact time.</li>"
    + "<li>Gather measurements/photos if available.</li>"
    + "<li>Discuss timeline, budget, permits, and materials.</li></ul>"
    + "<div>Tip: You can reply directly to this email to contact the lead.</div></td></tr></table>"
    + "<table><tr><td>"

  /** The footer line `© ${year} ${escapeHtml(brand)}`. */
  function Copyright(d: EmailData, year: nat): seq<Piece> {
    [Lit("\U{00A9} " + NatToString(year) + " "), Value(Brand(d))]
  }

  const DocClose: string := "</td></tr></table></td></tr></table></body></html>\n"

  /** `d` without its optional fields: what the fixed parts of the template are made from. */
  function Required(d: EmailData): EmailData {
    d.(phone := None, message := None, submittedAt := None)
  }

  /** The template in order, with the slots of the optional parts (1, 5 and 9) left empty. */
  function Frame(d: EmailData, year: nat): (r: seq<seq<Piece>>)
    ensures |r| == 13
  {
    [ Header(d), [], Pills(d),
      Row("Full Name", Some(d.fullName)), Row("Email", Some(d.email)), [],
      Row("ZIP", Some(d.zip)), Row("Service", Some(d.workType)), [Lit(DetailsClose)],
      [], [Lit(Checklist)], Copyright(d, year), [Lit(DocClose)] ]
  }

  /** The Submitted line, the Phone row and the Project Notes block go in their slots. */
  function Sections(d: EmailData, year: nat): seq<seq<Piece>> {
    Frame(Required(d), year)[1 := Submitted(d.submittedAt)][5 := Row("Phone", d.phone)][9 := Notes(d.message)]
  }

  /** `renderContactEmail(d)` in the year `year`: every interpolated value goes through `escapeHtml`. */
  function RenderContactEmail(d: EmailData, year: nat): string {
    Fill(Flatten(Sections(d, year)), EscapeHtml)
  }

  /** The Phone row is there exactly when `phone` is non-empty: without it the notice is the one for no phone, with it that notice plus the row. */
  lemma PhoneRow(d: EmailData, year: nat) returns (k: nat)
    ensures var base := RenderContactEmail(d.(phone := None), year);
      && k <= |base|
      && (!Truthy(d.phone) ==> RenderContactEmail(d, year) == base)
      && (Truthy(d.phone) ==> RenderContactEmail(d, year) == base[..k] + RowText("Phone", d.phone) + base[k..])
  {
    assert Sections(d.(phone := None), year) == Sections(d, year)[5 := []];
    k := SectionInsert(Sections(d, year), 5, EscapeHtml);
  }

  /** The Submitted line is there exactly when `submittedAt` is non-empty, and shows it escaped. */
  lemma SubmittedLine(d: EmailData, year: nat) returns (k: nat)
    ensures var base := RenderContactEmail(d.(submittedAt := None), year);
      && k <= |base|
      && (!Truthy(d.submittedAt) ==> RenderContactEmail(d, year) == base)
      && (Truthy(d.submittedAt) ==>
            RenderContactEmail(d, year) == base[..k] + ("<div>Submitted " + EscapeHtml(d.submittedAt.value) + "</div>") + base[k..])
  {
    assert Sections(d.(submittedAt := None), year) == Sections(d, year)[1 := []];
    k := SectionInsert(Sections(d, year), 1, EscapeHtml);
    if Truthy(d.submittedAt) {
      FillThree(Lit("<div>Submitted "), Value(d.submittedAt.value), Lit("</div>"), EscapeHtml);
    }
  }

  /** The Project Notes block is there exactly when the trimmed message is non-empty, and shows the whole message, escaped and untrimmed. */
  lemma ProjectNotes(d: EmailData, year: nat) returns (k: nat)
    ensures var base := RenderContactEmail(d.(message := None), year);
      && k <= |base|
      && (!HasNotes(d.message) ==> RenderContactEmail(d, year) == base)
      && (HasNotes(d.message) ==>
            RenderContactEmail(d, year) == base[..k] + (NotesOpen + EscapeHtml(d.message.value) + NotesClose) + base[k..])
  {
    assert Sections(d.(message := None), year) == Sections(d, year)[9 := []];
    k := SectionInsert(Sections(d, year), 9, EscapeHtml);
    if HasNotes(d.message) {
      FillThree(Lit(NotesOpen), Value(d.message.value), Lit(NotesClose), EscapeHtml);
    }
  }

  /** An undefined brand renders exactly as 'Imperial Home Remodeling'. */
  lemma BrandDefault(d: EmailData, year: nat)
    requires d.brand.None?
    ensures RenderContactEmail(d, year) == RenderContactEmail(d.(brand := Some("Imperial Home Remodeling")), year)
  {
    assert Sections(d, year) == Sections(d.(brand := Some("Imperial Home Remodeling")), year);
  }

  /** The footer reads `© <year> <brand>` with the brand escaped. */
  lemma FooterLine(d: EmailData, year: nat)
    ensures IsInfix("\U{00A9} " + NatToString(year) + " " + EscapeHtml(Brand(d)), RenderContactEmail(d, year))
  {
    var xs := Sections(d, year);
    var lit := "\U{00A9} " + NatToString(year) + " ";
    assert Brand(Required(d)) == Brand(d);
    assert xs[11] == Frame(Required(d), year)[11] == [Lit(lit), Value(Brand(d))];
    FillTwo(Lit(lit), Value(Brand(d)), EscapeHtml);
    assert Fill(xs[11], EscapeHtml) == lit + EscapeHtml(Brand(d));
    SectionInfix(xs, 11, EscapeHtml);
  }

  /** Which optional parts are present: everything the static markup depends on. */
  predicate SameShape(d1: EmailData, d2: EmailData) {
    && (d1.fullName == "") == (d2.fullName == "")
    && (d1.email == "") == (d2.email == "")
    && Truthy(d1.phone) == Truthy(d2.phone)
    && (d1.zip == "") == (d2.zip == "")
    && (d1.workType == "") == (d2.workType == "")
    && HasNotes(d1.message) == HasNotes(d2.message)
    && Truthy(d1.submittedAt) == Truthy(d2.submittedAt)
  }

  lemma RowSkeleton(caption: string, v1: Option<string>, v2: Option<string>)
    requires Truthy(v1) == Truthy(v2)
    ensures Skeleton(Row(caption, v1)) == Skeleton(Row(caption, v2))
  {
    if Truthy(v1) {
      SkeletonOfThree("<tr><td>" + caption + "</td><td>", v1.value, v2.value, "</td></tr>");
    }
  }

  lemma FrameSkeleton(d1: EmailData, d2: EmailData, year: nat, i: nat)
    requires SameShape(d1, d2) && i < 13
    ensures Skeleton(Frame(d1, year)[i]) == Skeleton(Frame(d2, year)[i])
  {
    var f1, f2 := Frame(d1, year), Frame(d2, year);
    if i == 3 || i == 4 || i == 6 || i == 7 {
      RowsSkeleton(d1, d2, year, i);
    } else if i == 0 {
      assert f1[0] == Header(d1) && f2[0] == Header(d2);
    } else if i == 2 {
      assert f1[2] == Pills(d1) && f2[2] == Pills(d2);
    } else if i == 11 {
      assert f1[11] == Copyright(d1, year) && f2[11] == Copyright(d2, year);
    } else {
      assert f1[i] == f2[i];
    }
  }

  lemma RowsSkeleton(d1: EmailData, d2: EmailData, year: nat, i: nat)
    requires SameShape(d1, d2) && (i == 3 || i == 4 || i == 6 || i == 7)
    ensures Skeleton(Frame(d1, year)[i]) == Skeleton(Frame(d2, year)[i])
  {
    if i == 3 {
      RowSkeleton("Full Name", Some(d1.fullName), Some(d2.fullName));
    } else if i == 4 {
      RowSkeleton("Email", Some(d1.email), Some(d2.email));
    } else if i == 6 {
      RowSkeleton("ZIP", Some(d1.zip), Some(d2.zip));
    } else {
      RowSkeleton("Service", Some(d1.workType), Some(d2.workType));
    }
  }

  lemma SectionsSkeleton(d1: EmailData, d2: EmailData, year: nat)
    requires SameShape(d1, d2)
    ensures Skeleton(Flatten(Sections(d1, year))) == Skeleton(Flatten(Sections(d2, year)))
  {
    var xs, ys := Sections(d1, year), Sections(d2, year);
    forall i | 0 <= i < |xs| ensures Skeleton(xs[i]) == Skeleton(ys[i]) {
      SectionSkeleton(d1, d2, year, i);
    }
    FlattenSkeleton(xs, ys);
  }

  lemma SectionSkeleton(d1: EmailData, d2: EmailData, year: nat, i: nat)
    requires SameShape(d1, d2) && i < 13
    ensures Skeleton(Sections(d1, year)[i]) == Skeleton(Sections(d2, year)[i])
  {
    var xs, ys := Sections(d1, year), Sections(d2, year);
    if i == 1 {
      assert xs[1] == Submitted(d1.submittedAt) && ys[1] == Submitted(d2.submittedAt);
      SubmittedSkeleton(d1.submittedAt, d2.submittedAt);
    } else if i == 5 {
      assert xs[5] == Row("Phone", d1.phone) && ys[5] == Row("Phone", d2.phone);
      RowSkeleton("Phone", d1.phone, d2.phone);
    } else if i == 9 {
      assert xs[9] == Notes(d1.message) && ys[9] == Notes(d2.message);
      NotesSkeleton(d1.message, d2.message);
    } else {
      assert xs[i] == Frame(Required(d1), year)[i] && ys[i] == Frame(Required(d2), year)[i];
      FrameSkeleton(Required(d1), Required(d2), year, i);
    }
  }

  lemma SubmittedSkeleton(s1: Option<string>, s2: Option<string>)
    requires Truthy(s1) == Truthy(s2)
    ensures Skeleton(Submitted(s1)) == Skeleton(Submitted(s2))
  {
    if Truthy(s1) {
      SkeletonOfThree("<div>Submitted ", s1.value, s2.value, "</div>");
    }
  }

  lemma NotesSkeleton(m1: Option<string>, m2: Option<string>)
    requires HasNotes(m1) == HasNotes(m2)
    ensures Skeleton(Notes(m1)) == Skeleton(Notes(m2))
  {
    if HasNotes(m1) {
      SkeletonOfThree(NotesOpen, m1.value, m2.value, NotesClose);
    }
  }


  /**
   * Every user value reaches the HTML through `escapeHtml`: two submissions
   * with the same optional parts give notices with the same number of `<`,
   * `>` and `"`, whatever their field values (no markup can be injected).
   */
  lemma UserValuesAddNoMarkup(d1: EmailData, d2: EmailData, year: nat, c: char)
    requires SameShape(d1, d2)
    requires c == '<' || c == '>' || c == '"'
    ensures Count(RenderContactEmail(d1, year), c) == Count(RenderContactEmail(d2, year), c)
  {
    SectionsSkeleton(d1, d2, year);
    SameSkeletonSameCount(Flatten(Sections(d1, year)), Flatten(Sections(d2, year)), EscapeHtml, c);
  }
}
