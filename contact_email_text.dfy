/**
 * The plain-text twin of the quote-request notice (renderContactEmailText):
 * a list of lines, some of them `undefined`, passed through
 * `filter(Boolean)` and joined with CRLF. Values are not escaped.
 */
module ContactEmailText {
  import opened Text
  import opened ContactEmail

  /** The separator line: sixty dashes. */
  const Rule: string := Dashes(60)

  function Dashes(n: nat): (r: string)
    ensures |r| == n && forall i :: 0 <= i < n ==> r[i] == '-'
  {
    seq(n, _ => '-')
  }
  const Crlf: string := "\r\n"

  /** The helper `L(k, v)`: `k: v` for a non-empty value, `undefined` otherwise. */
  function L(key: string, v: Option<string>): (r: Option<string>)
    ensures r.Some? <==> Truthy(v)
    ensures Truthy(v) ==> r.value == key + ": " + v.value
  {
    if Truthy(v) then Some(key + ": " + v.value) else None
  }

  function Title(d: EmailData): string {
    Brand(d) + " — New Quote Request"
  }

  function CopyrightLine(d: EmailData, year: nat): string {
    "© " + NatToString(year) + " " + Brand(d)
  }

  function SubmittedEntry(submittedAt: Option<string>): seq<Option<string>> {
    [if Truthy(submittedAt) then Some("Submitted: " + submittedAt.value) else None]
  }

  /** The three entries guarded by `message && message.trim()`; the notes line is the trimmed message. */
  function NotesEntries(message: Option<string>): seq<Option<string>> {
    if HasNotes(message) then [Some("Project Notes:"), Some(Trim(message.value)), Some(Rule)]
    else [None, None, None]
  }

  const Checklist: seq<Option<string>> :=
    [ Some("Quick Checklist:"), Some("• Confirm preferred contact time"),
      Some("• Measurements/photos (if available)"), Some("• Timeline, budget, permits, materials"),
      Some(""), Some("You can reply directly to this email.") ]

  function Lead(d: EmailData): seq<Option<string>> {
    [Some("Lead • Website"), Some("ZIP " + d.zip), Some(Rule), L("Full Name", Some(d.fullName)), L("Email", Some(d.email))]
  }

  lemma LeadFirst(d: EmailData)
    ensures Compact(Lead(d)) == ["Lead • Website"] + Compact(Lead(d)[1..])
    ensures Defined(Lead(d)) == ["Lead • Website"] + Defined(Lead(d)[1..])
  {
    var l := Lead(d);
    assert l == [l[0]] + l[1..];
    CompactAppend([l[0]], l[1..]);
    CompactOne(l[0]);
    DefinedAppend([l[0]], l[1..]);
    DefinedOne(l[0]);
  }

  /** The array literal, cut into sections; slots 1 (Submitted), 4 (Phone) and 6 (notes) hold the optional entries. */
  function Frame(d: EmailData, year: nat): (r: seq<seq<Option<string>>>)
    ensures |r| == 9
  {
    [ [Some(Title(d))],
      [None],
      [Some("")],
      Lead(d),
      [None],
      [L("ZIP", Some(d.zip)), L("Service", Some(d.workType)), Some(Rule)],
      [None, None, None],
      Checklist,
      [Some(CopyrightLine(d, year))] ]
  }

  function Sections(d: EmailData, year: nat): seq<seq<Option<string>>> {
    Frame(Required(d), year)[1 := SubmittedEntry(d.submittedAt)][4 := [L("Phone", d.phone)]][6 := NotesEntries(d.message)]
  }

  /** The array before `filter(Boolean)`. */
  function Entries(d: EmailData, year: nat): seq<Option<string>> {
    Flatten(Sections(d, year))
  }

  /** The lines that survive `filter(Boolean)`. */
  function Lines(d: EmailData, year: nat): seq<string> {
    Compact(Entries(d, year))
  }

  /** `renderContactEmailText(d)` in the year `year`. */
  function RenderContactEmailText(d: EmailData, year: nat): string {
    Join(Lines(d, year), Crlf)
  }

  lemma SlotsOf(d: EmailData, year: nat)
    ensures |Sections(d, year)| == 9
    ensures Sections(d, year)[0] == [Some(Title(d))]
    ensures Sections(d, year)[2] == [Some("")]
    ensures Sections(d, year)[3] == Lead(d)
    ensures Sections(d, year)[8] == [Some(CopyrightLine(d, year))]
  {
    assert Brand(Required(d)) == Brand(d);
  }

  /** The Phone line is there exactly when `phone` is non-empty, and carries it verbatim. */
  lemma PhoneLine(d: EmailData, year: nat) returns (k: nat)
    ensures var base := Lines(d.(phone := None), year);
      && k <= |base|
      && (!Truthy(d.phone) ==> Lines(d, year) == base)
      && (Truthy(d.phone) ==> Lines(d, year) == base[..k] + ["Phone: " + d.phone.value] + base[k..])
  {
    var xs := Sections(d, year);
    var base := Lines(d.(phone := None), year);
    assert Sections(d.(phone := None), year) == xs[4 := [None]];
    assert xs[4] == [L("Phone", d.phone)];
    CompactOne(None);
    CompactOne(L("Phone", d.phone));
    assert "Phone" + ": " == "Phone: ";
    k := CompactReplace(xs, 4, [None]);
    if !Truthy(d.phone) {
      assert base[..k] + [] + base[k..] == base;
    }
  }

  /** The Submitted line is there exactly when `submittedAt` is non-empty. */
  lemma SubmittedLine(d: EmailData, year: nat) returns (k: nat)
    ensures var base := Lines(d.(submittedAt := None), year);
      && k <= |base|
      && (!Truthy(d.submittedAt) ==> Lines(d, year) == base)
      && (Truthy(d.submittedAt) ==> Lines(d, year) == base[..k] + ["Submitted: " + d.submittedAt.value] + base[k..])
  {
    assert Sections(d.(submittedAt := None), year) == Sections(d, year)[1 := [None]];
    CompactOne(None);
    CompactOne(SubmittedEntry(d.submittedAt)[0]);
    k := CompactReplace(Sections(d, year), 1, [None]);
  }

  lemma NotesKept(message: Option<string>)
    ensures Compact(NotesEntries(message)) == if HasNotes(message) then ["Project Notes:", Trim(message.value), Rule] else []
  {
    var n := NotesEntries(message);
    CompactThree(n[0], n[1], n[2]);
    assert [n[0], n[1], n[2]] == n;
    if HasNotes(message) {
      var heading, t := "Project Notes:", Trim(message.value);
      assert n == [Some(heading), Some(t), Some(Rule)];
      assert heading != [] by {
        assert heading[0] == 'P';
      }
      CompactOne(Some(heading));
      CompactOne(Some(t));
      CompactOne(Some(Rule));
    } else {
      assert n == [None, None, None];
      CompactOne(None);
    }
  }

  /** The notes block is three lines (heading, trimmed message, rule) when the trimmed message is non-empty, and nothing otherwise. */
  lemma NotesLines(d: EmailData, year: nat) returns (k: nat)
    ensures var base := Lines(d.(message := None), year);
      && k <= |base|
      && (!HasNotes(d.message) ==> Lines(d, year) == base)
      && (HasNotes(d.message) ==> Lines(d, year) == base[..k] + ["Project Notes:", Trim(d.message.value), Rule] + base[k..])
  {
    var xs := Sections(d, year);
    var base := Lines(d.(message := None), year);
    assert Sections(d.(message := None), year) == xs[6 := NotesEntries(None)];
    assert xs[6] == NotesEntries(d.message);
    NotesKept(None);
    NotesKept(d.message);
    k := CompactReplace(xs, 6, NotesEntries(None));
    if !HasNotes(d.message) {
      assert base[..k] + [] + base[k..] == base;
    }
  }

  /** The text opens with the title line and closes with the copyright line. */
  lemma FirstAndLastLine(d: EmailData, year: nat)
    ensures var lines := Lines(d, year);
      && |lines| >= 2
      && lines[0] == Title(d)
      && lines[|lines| - 1] == CopyrightLine(d, year)
  {
    var xs := Sections(d, year);
    SlotsOf(d, year);
    CompactFlattenEnds(xs);
    CompactOne(Some(Title(d)));
    CompactOne(Some(CopyrightLine(d, year)));
  }

  /** The joined text starts with the title and a CRLF, and ends with a CRLF and the copyright line. */
  lemma TextEnds(d: EmailData, year: nat)
    ensures Title(d) + Crlf <= RenderContactEmailText(d, year)
    ensures EndsWith(RenderContactEmailText(d, year), Crlf + CopyrightLine(d, year))
  {
    FirstAndLastLine(d, year);
    JoinEnds(Lines(d, year), Crlf);
  }

  /** As written, `filter(Boolean)` also removes the `''` spacer entries: the entries hold an empty string, but no line is empty. */
  lemma SpacersDropped(d: EmailData, year: nat)
    ensures Some("") in Entries(d, year)
    ensures "" !in Lines(d, year)
  {
    var xs := Sections(d, year);
    SlotsOf(d, year);
    FlattenSplit(xs, 2);
    assert Some("") in Flatten(xs[..2]) + xs[2] + Flatten(xs[3..]);
    CompactNoEmpty(Entries(d, year));
  }

  /** Hence, without a Submitted line, the line right after the title is "Lead • Website" rather than a blank one. */
  lemma NoBlankAfterTitle(d: EmailData, year: nat)
    requires !Truthy(d.submittedAt)
    ensures |Lines(d, year)| >= 2 && Lines(d, year)[1] == "Lead • Website"
  {
    var xs := Sections(d, year);
    SlotsOf(d, year);
    var rest := Compact(Flatten(xs[4..]));
    assert Lines(d, year) == [Title(d)] + ([] + ([] + (Compact(Lead(d)) + rest))) by {
      CompactFlattenFour(xs);
      CompactOne(Some(Title(d)));
      assert xs[1] == [None];
      CompactOne(None);
      CompactOne(Some(""));
    }
    LeadFirst(d);
  }

  /** With only the `undefined` entries removed, the spacers stay: a blank line follows the title. */
  function IntendedLines(d: EmailData, year: nat): seq<string> {
    Defined(Entries(d, year))
  }

  function IntendedText(d: EmailData, year: nat): string {
    Join(IntendedLines(d, year), Crlf)
  }

  lemma IntendedSpacers(d: EmailData, year: nat)
    requires !Truthy(d.submittedAt)
    ensures var lines := IntendedLines(d, year);
      |lines| >= 3 && lines[0] == Title(d) && lines[1] == "" && lines[2] == "Lead • Website"
  {
    var xs := Sections(d, year);
    SlotsOf(d, year);
    var rest := Defined(Flatten(xs[4..]));
    assert IntendedLines(d, year) == [Title(d)] + ([] + ([""] + (Defined(Lead(d)) + rest))) by {
      DefinedFlattenFour(xs);
      DefinedOne(Some(Title(d)));
      assert xs[1] == [None];
      DefinedOne(None);
      DefinedOne(Some(""));
    }
    LeadFirst(d);
  }
}
