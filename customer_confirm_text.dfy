/**
 * The plain-text confirmation sent to the customer
 * (renderCustomerConfirmEmailText): a list of lines, the Phone line
 * `undefined` when there is no phone, passed through `filter(Boolean)` and
 * joined with a newline. Values are not escaped.
 */
module CustomerConfirmText {
  import opened Text
  import opened CustomerConfirmEmail

  const Newline: string := "\n"

  function Title(p: ConfirmPayload): string {
    p.brand + " — Inquiry Received"
  }

  function Hello(p: ConfirmPayload): string {
    "Hi " + Name(p) + ","
  }

  function Signature(p: ConfirmPayload): string {
    "— " + p.brand
  }

  /** `p.phone ? `Phone: ${p.phone}` : undefined`. */
  function PhoneEntry(phone: Option<string>): (r: Option<string>)
    ensures r.Some? <==> Truthy(phone)
    ensures Truthy(phone) ==> r.value == "Phone: " + phone.value
  {
    if Truthy(phone) then Some("Phone: " + phone.value) else None
  }

  function Request(p: ConfirmPayload): seq<Option<string>> {
    [ Some(Hello(p)), Some(""),
      Some("Thanks for reaching out! We received your request on " + p.submittedAt + "."), Some(""),
      Some("Service: " + p.workType) ]
  }

  const NextSteps: seq<Option<string>> :=
    [ Some(""),
      Some("A project specialist will contact you by email or phone within 24 hours (often sooner)."),
      Some("Next steps:"),
      Some("• Confirm goals, timeline, and budget"),
      Some("• Share options and an itemized quote"),
      Some("• Schedule a convenient on-site visit if needed"),
      Some(""),
      Some("Need to add or correct anything? Reply to this email and we’ll update your request."),
      Some("") ]

  /** The array literal, cut into sections; slot 3 holds the optional Phone entry. */
  function Frame(p: ConfirmPayload): (r: seq<seq<Option<string>>>)
    ensures |r| == 7
  {
    [ [Some(Title(p))],
      [Some("")],
      Request(p),
      [None],
      NextSteps,
      [Some("Visit us: " + p.siteUrl), Some("")],
      [Some(Signature(p))] ]
  }

  function Sections(p: ConfirmPayload): seq<seq<Option<string>>> {
    Frame(Required(p))[3 := [PhoneEntry(p.phone)]]
  }

  /** The array before `filter(Boolean)`. */
  function Entries(p: ConfirmPayload): seq<Option<string>> {
    Flatten(Sections(p))
  }

  /** The lines that survive `filter(Boolean)`. */
  function Lines(p: ConfirmPayload): seq<string> {
    Compact(Entries(p))
  }

  /** `renderCustomerConfirmEmailText(p)`. */
  function RenderCustomerConfirmText(p: ConfirmPayload): string {
    Join(Lines(p), Newline)
  }

  lemma SlotsOf(p: ConfirmPayload)
    ensures |Sections(p)| == 7
    ensures Sections(p)[0] == [Some(Title(p))]
    ensures Sections(p)[1] == [Some("")]
    ensures Sections(p)[2] == Request(p)
    ensures Sections(p)[3] == [PhoneEntry(p.phone)]
    ensures Sections(p)[5] == [Some("Visit us: " + p.siteUrl), Some("")]
    ensures Sections(p)[6] == [Some(Signature(p))]
  {
    assert Name(Required(p)) == Name(p);
  }

  /** The Phone line is there exactly when `phone` is non-empty, and carries it verbatim. */
  lemma PhoneLine(p: ConfirmPayload) returns (k: nat)
    ensures var base := Lines(p.(phone := None));
      && k <= |base|
      && (!Truthy(p.phone) ==> Lines(p) == base)
      && (Truthy(p.phone) ==> Lines(p) == base[..k] + ["Phone: " + p.phone.value] + base[k..])
  {
    var xs := Sections(p);
    var base := Lines(p.(phone := None));
    assert Sections(p.(phone := None)) == xs[3 := [None]];
    SlotsOf(p);
    CompactOne(None);
    CompactOne(PhoneEntry(p.phone));
    k := CompactReplace(xs, 3, [None]);
    if !Truthy(p.phone) {
      assert base[..k] + [] + base[k..] == base;
    }
  }

  /** The text opens with the title line and closes with the signature. */
  lemma FirstAndLastLine(p: ConfirmPayload)
    ensures var lines := Lines(p);
      && |lines| >= 2
      && lines[0] == Title(p)
      && lines[|lines| - 1] == Signature(p)
  {
    SlotsOf(p);
    CompactFlattenEnds(Sections(p));
    CompactOne(Some(Title(p)));
    CompactOne(Some(Signature(p)));
  }

  /** The joined text starts with the title and a newline, and ends with a newline and the signature. */
  lemma TextEnds(p: ConfirmPayload)
    ensures Title(p) + Newline <= RenderCustomerConfirmText(p)
    ensures EndsWith(RenderCustomerConfirmText(p), Newline + Signature(p))
  {
    FirstAndLastLine(p);
    JoinEnds(Lines(p), Newline);
  }

  lemma LineShown(p: ConfirmPayload, i: nat, j: nat)
    requires i < |Sections(p)| && j < |Sections(p)[i]| && Truthy(Sections(p)[i][j])
    ensures Sections(p)[i][j].value in Lines(p)
  {
    var xs := Sections(p);
    FlattenHas(xs, i, j);
    var f := Flatten(xs);
    var n :| 0 <= n < |f| && f[n] == xs[i][j];
    CompactKeeps(f, n);
  }

  /** The service and the site URL appear verbatim, each on a line of its own. */
  lemma ServiceAndSiteShown(p: ConfirmPayload)
    ensures "Service: " + p.workType in Lines(p)
    ensures "Visit us: " + p.siteUrl in Lines(p)
  {
    var xs := Sections(p);
    SlotsOf(p);
    assert xs[2][4] == Some("Service: " + p.workType);
    LineShown(p, 2, 4);
    assert xs[5][0] == Some("Visit us: " + p.siteUrl);
    LineShown(p, 5, 0);
  }

  /** As written, `filter(Boolean)` also removes the `''` spacer entries: the entries hold an empty string, but no line is empty. */
  lemma SpacersDropped(p: ConfirmPayload)
    ensures Some("") in Entries(p)
    ensures "" !in Lines(p)
  {
    var xs := Sections(p);
    SlotsOf(p);
    FlattenSplit(xs, 1);
    assert Some("") in Flatten(xs[..1]) + xs[1] + Flatten(xs[2..]);
    CompactNoEmpty(Entries(p));
  }

  /** Hence the greeting follows the title directly, with no blank line between them. */
  lemma NoBlankAfterTitle(p: ConfirmPayload)
    ensures |Lines(p)| >= 2 && Lines(p)[1] == Hello(p)
  {
    var xs := Sections(p);
    SlotsOf(p);
    var rest := Compact(Flatten(xs[4..]));
    var r := Request(p);
    assert Lines(p) == [Title(p)] + ([] + (Compact(r) + (Compact(xs[3]) + rest))) by {
      CompactFlattenFour(xs);
      CompactOne(Some(Title(p)));
      CompactOne(Some(""));
    }
    assert Compact(r) == [Hello(p)] + Compact(r[1..]) by {
      assert r == [r[0]] + r[1..];
      CompactAppend([r[0]], r[1..]);
      CompactOne(r[0]);
    }
  }

  /** With only the `undefined` entries removed, the spacers stay: a blank line separates the title from the greeting. */
  function IntendedLines(p: ConfirmPayload): seq<string> {
    Defined(Entries(p))
  }

  function IntendedText(p: ConfirmPayload): string {
    Join(IntendedLines(p), Newline)
  }

  lemma IntendedSpacers(p: ConfirmPayload)
    ensures var lines := IntendedLines(p);
      |lines| >= 3 && lines[0] == Title(p) && lines[1] == "" && lines[2] == Hello(p)
  {
    var xs := Sections(p);
    SlotsOf(p);
    var rest := Defined(Flatten(xs[4..]));
    var r := Request(p);
    assert IntendedLines(p) == [Title(p)] + ([""] + (Defined(r) + (Defined(xs[3]) + rest))) by {
      DefinedFlattenFour(xs);
      DefinedOne(Some(Title(p)));
      DefinedOne(Some(""));
    }
    assert Defined(r) == [Hello(p)] + Defined(r[1..]) by {
      assert r == [r[0]] + r[1..];
      DefinedAppend([r[0]], r[1..]);
      DefinedOne(r[0]);
    }
  }
}
