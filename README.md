# Imperial Home Remodeling — a verified model of the site's core

This project models the part of the Imperial Home Remodeling Next.js site
that carries real logic:

- the two zod contact schemas: the current `contactSchema` and the older `schema`;
- `escapeHtml` and the four mail renderers:
  - the quote-request notice, as HTML and as plain text;
  - the customer confirmation, as HTML and as plain text;
- the `/api/send-mail` route handler;
- the FAQ: its data fallback, `slug`, search filter and "expand/collapse all";
- the Projects gallery: item normalisation and the lightbox state machine;
- the locale switcher button: path stripping, the switch href and the menu state;
- the Reviews and Services carousels, review initials, and the Services chat prefill;
- the two contact forms' submit state machines.

Modelling conventions:

- A template literal is a list of `Piece`s: static `Lit` text and interpolated
  `Value`s. `Fill` evaluates it with an encoder (`EscapeHtml`, `Esc`, or the
  identity).
- A conditional block (`x ? \`…\` : ''`) is a section of such a list.
- The line arrays of the text renderers are lists of `Option<string>`. `None`
  stands for `undefined`. `Compact` is `filter(Boolean)`, which also drops `''`.
- A JavaScript optional string is an `Option<string>`. `Truthy` is JavaScript
  truthiness: present and non-empty.
- UI components whose hooks update state become classes. Their methods
  `modify` the fields those hooks set. Pure helpers are functions.
- `fetch`, nodemailer, the current year, `isEmail` (zod's e-mail check) and the
  Crisp chat widget are parameters or small datatypes.

Modules follow the source files:

| module | file |
|---|---|
| `Text` | JavaScript string helpers: `trim`, `split`, `toLowerCase`, `join`, `filter(Boolean)` |
| `Template` | template literals and their static skeleton |
| `ContactSchema` | `src/lib/schemas/contact.ts`, `src/components/contact/helpers/schema.ts` |
| `ContactEmail` | `src/lib/mail/renderContactEmail.ts` |
| `ContactEmailText` | `src/lib/mail/renderContactEmailText.ts` |
| `CustomerConfirmEmail` | `src/lib/mail/rendercustomerConfirmEmail.ts` |
| `CustomerConfirmText` | `src/lib/mail/renderCustomerConfirmText.ts` |
| `Http`, `SendMailRoute` | `src/app/api/send-mail/route.ts` |
| `Faq` | `src/components/FAQ.tsx` |
| `Projects` | `src/components/Projects.tsx` |
| `LocaleSwitcher` | `src/components/LocaleSwitcherFab.tsx` |
| `SnapCarousel`, `Reviews`, `Services` | `src/components/Reviews.tsx`, `src/components/Services.tsx` |
| `ContactForm` | `src/components/Contact.tsx` |
| `LegacyContactForm` | `src/components/contact/Contact.tsx` |

## Model

| member | source | states |
|---|---|---|
| ContactSchema.Issues | src/lib/schemas/contact.ts:15-41 | the set of failing keys is exactly the keys whose rule fails |
| ContactSchema.ParseContact | src/lib/schemas/contact.ts:15-41 | parsing succeeds iff every key's rule holds. On failure it reports a non-empty issue set, exactly the failing keys. On success the payload carries the input values, with the phone trimmed |
| ContactSchema.ParsedPhone | src/lib/schemas/contact.ts:20-23 | an omitted phone stays omitted; a present one comes out trimmed |
| ContactSchema.ValidIffEveryRule | src/lib/schemas/contact.ts:15-41 | valid iff name, e-mail, phone, ZIP, service, message, consent and honeypot rules all hold |
| ContactSchema.ZipExamples | src/lib/schemas/contact.ts:26 | exactly five ASCII digits pass; four, six and letters fail, as does a missing ZIP |
| ContactSchema.PhoneRule | src/lib/schemas/contact.ts:20-24 | trimming first never changes the verdict; a blank or whitespace-only phone passes; otherwise the trimmed phone needs at least 7 characters; omitted and empty both pass |
| ContactSchema.PhoneLengthIgnoresPadding | src/lib/schemas/contact.ts:22-24 | the 7-character bound is on the number without surrounding whitespace |
| ContactSchema.HoneypotRejects | src/lib/schemas/contact.ts:40 | a filled `company` field makes the parse fail, with `company` among the issues |
| ContactSchema.ConsentRequired | src/lib/schemas/contact.ts:37 | consent other than `true` fails the parse |
| ContactSchema.UnknownServiceRejected | src/lib/schemas/contact.ts:4-11 | every service outside the six listed is reported as a work-type issue, and the contact is invalid |
| ContactSchema.LegacyIssues | src/components/contact/helpers/schema.ts:2-22 | the older schema's issues are exactly its failing keys, and only its five keys |
| ContactSchema.LegacyValidIffEveryRule | src/components/contact/helpers/schema.ts:2-22 | the older schema accepts iff its five rules hold: name 5–30, e-mail ≤50 and an address, phone ≤15, service 1–50, message ≤500 |
| ContactSchema.LegacyIgnoresOtherKeys | src/components/contact/helpers/schema.ts:2-22 | ZIP, consent and honeypot do not affect the older schema |
| ContactSchema.SchemasDiffer | src/components/contact/helpers/schema.ts:2-22 | one input passes the older schema and fails the current one on exactly ZIP, service, consent and honeypot |
| ContactEmail.EscapeHtml | src/lib/mail/renderContactEmail.ts:152-158 | escaped text holds no `<`, `>` or `"` |
| ContactEmail.EscapeHtmlAppend | src/lib/mail/renderContactEmail.ts:152-158 | escaping works character by character, so it distributes over concatenation |
| ContactEmail.EscapeHtmlChar | src/lib/mail/renderContactEmail.ts:154-157 | a single character becomes its entity (`&amp;`, `&lt;`, `&gt;`, `&quot;`) or stays itself |
| ContactEmail.UnescapeEntity | src/lib/mail/renderContactEmail.ts:154-157 | decoding reads back one entity and continues |
| ContactEmail.UnescapeEscapeHtml | src/lib/mail/renderContactEmail.ts:152-158 | escaping loses nothing: decoding the escaped text gives the input back. `&` is replaced first, so no entity is escaped twice |
| ContactEmail.RowText | src/lib/mail/renderContactEmail.ts:34-41 | a row is empty iff its value is missing or empty; otherwise it shows the caption and the escaped value |
| ContactEmail.RowShows | src/lib/mail/renderContactEmail.ts:34-41 | a present row contains its caption and its escaped value |
| ContactEmail.Frame | src/lib/mail/renderContactEmail.ts:43-149 | the notice is thirteen sections, conditional blocks included |
| ContactEmail.PhoneRow | src/lib/mail/renderContactEmail.ts:98 | without a phone the notice is the phone-less one; with a phone, the escaped Phone row is inserted at one offset and nothing else changes |
| ContactEmail.SubmittedLine | src/lib/mail/renderContactEmail.ts:77-80 | the "Submitted …" line appears, escaped, exactly when `submittedAt` is non-empty |
| ContactEmail.ProjectNotes | src/lib/mail/renderContactEmail.ts:105-117 | the notes block appears exactly when the trimmed message is non-empty, and holds the untrimmed escaped message |
| ContactEmail.BrandDefault | src/lib/mail/renderContactEmail.ts:22 | omitting the brand (`Brand`, line 22) renders the same notice as giving "Imperial Home Remodeling" |
| ContactEmail.FooterLine | src/lib/mail/renderContactEmail.ts:139 | the footer shows © year and the escaped brand |
| ContactEmail.RowSkeleton | src/lib/mail/renderContactEmail.ts:34-41 | the markup of a row does not depend on its value, only on whether it is shown |
| ContactEmail.SubmittedSkeleton | src/lib/mail/renderContactEmail.ts:77-80 | the Submitted block's markup does not depend on the timestamp |
| ContactEmail.NotesSkeleton | src/lib/mail/renderContactEmail.ts:105-117 | the notes block's markup does not depend on the message text |
| ContactEmail.FrameSkeleton | src/lib/mail/renderContactEmail.ts:43-149 | each section's markup depends only on which optional parts are shown |
| ContactEmail.RowsSkeleton | src/lib/mail/renderContactEmail.ts:96-100 | the detail rows' markup depends only on which rows are shown |
| ContactEmail.SectionSkeleton | src/lib/mail/renderContactEmail.ts:43-149 | the same, section by section, once the optional blocks are placed |
| ContactEmail.SectionsSkeleton | src/lib/mail/renderContactEmail.ts:43-149 | two submissions with the same optional parts render the same markup around their values |
| ContactEmail.UserValuesAddNoMarkup | src/lib/mail/renderContactEmail.ts:43-158 | injection safety: the count of `<`, `>` and `"` in the notice is fixed by which optional parts are present, whatever the user typed |
| ContactEmailText.Frame | src/lib/mail/renderContactEmailText.ts:25-47 | the line array is nine sections |
| ContactEmailText.LeadFirst | src/lib/mail/renderContactEmailText.ts:29-33 | the lead block starts with "Lead • Website" under either filter |
| ContactEmailText.SlotsOf | src/lib/mail/renderContactEmailText.ts:25-47 | the title, `''` spacer, lead block and © line sit where the array puts them |
| ContactEmailText.PhoneLine | src/lib/mail/renderContactEmailText.ts:34 | "Phone: …" (built by `L`, which gives `undefined` for an empty value) is one extra line exactly when the phone is non-empty; the other lines are unchanged |
| ContactEmailText.SubmittedLine | src/lib/mail/renderContactEmailText.ts:27 | "Submitted: …" is one extra line exactly when `submittedAt` is non-empty |
| ContactEmailText.NotesKept | src/lib/mail/renderContactEmailText.ts:38-40 | the notes entries survive filtering as heading, trimmed message and rule, or not at all |
| ContactEmailText.NotesLines | src/lib/mail/renderContactEmailText.ts:38-40 | the notes block is three inserted lines with the trimmed message iff the trimmed message is non-empty |
| ContactEmailText.FirstAndLastLine | src/lib/mail/renderContactEmailText.ts:26-48 | the first line is the title and the last is © year brand |
| ContactEmailText.TextEnds | src/lib/mail/renderContactEmailText.ts:48-50 | the CRLF-joined text starts with the title line and ends with the © line |
| ContactEmailText.SpacersDropped | src/lib/mail/renderContactEmailText.ts:28-48 | as written, the array holds `''` entries but no output line is empty |
| ContactEmailText.NoBlankAfterTitle | src/lib/mail/renderContactEmailText.ts:26-48 | as written, with no Submitted line the title is followed directly by "Lead • Website" |
| ContactEmailText.IntendedSpacers | src/lib/mail/renderContactEmailText.ts:26-29 | dropping only `undefined` keeps a blank line between the title and "Lead • Website" |
| CustomerConfirmEmail.Lookup | src/lib/mail/rendercustomerConfirmEmail.ts:14 | the replacement table yields no `<`, `>` or `"` |
| CustomerConfirmEmail.Esc | src/lib/mail/rendercustomerConfirmEmail.ts:13-14 | the escaped text holds no `<`, `>` or `"` |
| CustomerConfirmEmail.EscTableEntity | src/lib/mail/rendercustomerConfirmEmail.ts:14 | each table entry is the entity `escapeHtml` uses |
| CustomerConfirmEmail.EscIsEscapeHtml | src/lib/mail/rendercustomerConfirmEmail.ts:13-14 | the single-pass `esc` equals the chained `escapeHtml` on every string |
| CustomerConfirmEmail.Name | src/lib/mail/rendercustomerConfirmEmail.ts:17 | the greeting always names someone: the full name, or "there" when it is empty |
| CustomerConfirmEmail.Frame | src/lib/mail/rendercustomerConfirmEmail.ts:23-84 | the confirmation is seven sections |
| CustomerConfirmEmail.OpeningStarts | src/lib/mail/rendercustomerConfirmEmail.ts:24 | the document starts with the doctype |
| CustomerConfirmEmail.FooterEnds | src/lib/mail/rendercustomerConfirmEmail.ts:79-83 | the document ends with `</html>` |
| CustomerConfirmEmail.Padded | src/lib/mail/rendercustomerConfirmEmail.ts:23-84 | the template opens and closes with a newline around the document |
| CustomerConfirmEmail.BodyEnds | src/lib/mail/rendercustomerConfirmEmail.ts:23-84 | the untrimmed template is a newline, the document, and a newline |
| CustomerConfirmEmail.TrimmedToDocument | src/lib/mail/rendercustomerConfirmEmail.ts:84 | `.trim()` leaves exactly the document: doctype first, `</html>` last |
| CustomerConfirmEmail.PhoneText | src/lib/mail/rendercustomerConfirmEmail.ts:21-58 | the phone paragraph is empty without a phone, and shows the escaped phone otherwise |
| CustomerConfirmEmail.PhoneInBody | src/lib/mail/rendercustomerConfirmEmail.ts:21-58 | a phone inserts its paragraph at one offset of the untrimmed body |
| CustomerConfirmEmail.PhoneParagraphShown | src/lib/mail/rendercustomerConfirmEmail.ts:21-84 | the same for the trimmed result: the phone paragraph is the only difference |
| CustomerConfirmEmail.GreetingShown | src/lib/mail/rendercustomerConfirmEmail.ts:17-53 | the greeting names the escaped name, or "there" |
| CustomerConfirmEmail.LinkText | src/lib/mail/rendercustomerConfirmEmail.ts:20-77 | the visit link uses the escaped site URL as both target and text |
| CustomerConfirmEmail.LinkShown | src/lib/mail/rendercustomerConfirmEmail.ts:77 | the link occurs in the confirmation |
| CustomerConfirmEmail.PhoneSkeleton | src/lib/mail/rendercustomerConfirmEmail.ts:58 | the phone paragraph's markup does not depend on the number |
| CustomerConfirmEmail.FrameSkeleton | src/lib/mail/rendercustomerConfirmEmail.ts:23-84 | every section's markup depends at most on whether a phone is given |
| CustomerConfirmEmail.FieldsAddNoMarkup | src/lib/mail/rendercustomerConfirmEmail.ts:13-84 | injection safety: the count of `<`, `>` and `"` depends only on whether a phone is given |
| CustomerConfirmText.Frame | src/lib/mail/renderCustomerConfirmText.ts:12-32 | the line array is seven sections |
| CustomerConfirmText.SlotsOf | src/lib/mail/renderCustomerConfirmText.ts:12-32 | title, spacer, request block, phone slot, visit line and signature sit where the array puts them |
| CustomerConfirmText.PhoneLine | src/lib/mail/renderCustomerConfirmText.ts:20 | the phone entry (`PhoneEntry`) is one extra line exactly when the phone is non-empty, and `undefined` otherwise |
| CustomerConfirmText.FirstAndLastLine | src/lib/mail/renderCustomerConfirmText.ts:13-32 | the text opens with "brand — Inquiry Received" and closes with "— brand" |
| CustomerConfirmText.TextEnds | src/lib/mail/renderCustomerConfirmText.ts:33 | the newline-joined text starts with the title line and ends with the signature |
| CustomerConfirmText.LineShown | src/lib/mail/renderCustomerConfirmText.ts:12-33 | every non-empty entry of the array is an output line |
| CustomerConfirmText.ServiceAndSiteShown | src/lib/mail/renderCustomerConfirmText.ts:19-30 | the service line and the site line are always present |
| CustomerConfirmText.SpacersDropped | src/lib/mail/renderCustomerConfirmText.ts:14-33 | as written, the array holds `''` entries but no output line is empty |
| CustomerConfirmText.NoBlankAfterTitle | src/lib/mail/renderCustomerConfirmText.ts:13-33 | as written, the greeting directly follows the title |
| CustomerConfirmText.IntendedSpacers | src/lib/mail/renderCustomerConfirmText.ts:13-15 | dropping only `undefined` keeps the blank line between title and greeting |
| Http.OkExamples | src/components/Contact.tsx:50 | examples only: 200, 204 and 299 are ok; 199, 300, 400 and 500 are not |
| SendMailRoute.From | src/app/api/send-mail/route.ts:25 | the sender is the quoted full name followed by the address in angle brackets |
| SendMailRoute.Subject | src/app/api/send-mail/route.ts:28 | the subject names the sender and quotes the work type |
| SendMailRoute.TelTarget | src/app/api/send-mail/route.ts:52-55 | the `tel:` target has no dashes or spaces, keeps only characters of the trimmed phone, and is the trimmed phone when that has none |
| SendMailRoute.Frame | src/app/api/send-mail/route.ts:30-83 | the HTML is five sections, the phone and message rows included |
| SendMailRoute.Compose | src/app/api/send-mail/route.ts:24-84 | the mail goes to the mailbox user, with the raw message as text and the rendered HTML |
| SendMailRoute.Outcome | src/app/api/send-mail/route.ts:9-93 | 200 exactly when name, e-mail and work type are present and the mail was delivered; a success body exactly on 200; otherwise a 4xx/5xx error: 400 "Missing fields" before any delivery, 500 "Email failed to send" on a failed one |
| SendMailRoute.PhoneRowText | src/app/api/send-mail/route.ts:47-58 | the phone row is empty without a phone, and otherwise links `tel:` to the cleaned number and shows the raw one |
| SendMailRoute.MessageRowText | src/app/api/send-mail/route.ts:63-71 | the message row is empty without a message, and otherwise shows it verbatim |
| SendMailRoute.PhoneRowShown | src/app/api/send-mail/route.ts:47-58 | a phone inserts exactly its row into the HTML |
| SendMailRoute.MessageRowShown | src/app/api/send-mail/route.ts:63-71 | a message inserts exactly its row into the HTML |
| SendMailRoute.ShownInSection | src/app/api/send-mail/route.ts:30-83 | text inside any section is inside the HTML |
| SendMailRoute.NameAndEmailVerbatim | src/app/api/send-mail/route.ts:40-44 | name and e-mail appear unescaped in the HTML |
| SendMailRoute.WorkTypeVerbatim | src/app/api/send-mail/route.ts:61 | the work type appears unescaped in the HTML |
| SendMailRoute.Transport.constructor | src/app/api/send-mail/route.ts:13-21 | a new transport has sent nothing |
| SendMailRoute.Transport.SendMail | src/app/api/send-mail/route.ts:24 | a send appends the mail to the outbox and reports whether it was delivered |
| SendMailRoute.Post | src/app/api/send-mail/route.ts:5-94 | invalid bodies send nothing; valid ones send exactly the composed mail; the reply is `Outcome` of the delivery |
| Faq.Data | src/components/FAQ.tsx:19-25 | categories if a non-empty array, else the flat items as one "General" category, else nothing |
| Faq.KeepSlugChars | src/components/FAQ.tsx:31 | only `a-z`, digits, whitespace and `-` survive, and a string of those is unchanged |
| Faq.KeepSlugCharsOne | src/components/FAQ.tsx:31 | a single character is kept exactly when it is `a-z`, a digit, whitespace or `-` |
| Faq.KeepSlugCharsAppend | src/components/FAQ.tsx:31 | the filter distributes over concatenation, so it decides character by character and keeps the order |
| Faq.KeepSlugCharsKeeps | src/components/FAQ.tsx:31 | every allowed character of the input survives, in place between the filtered text before and after it |
| Faq.DropRun | src/components/FAQ.tsx:31 | dropping a leading run leaves a suffix that does not start with the run's kind |
| Faq.CollapseRuns | src/components/FAQ.tsx:31 | the output holds only dashes and characters outside the run kind; text without such characters comes back unchanged; the first character is a dash exactly when the input starts with a run |
| Faq.CollapseRunsSplit | src/components/FAQ.tsx:31 | a maximal run between two other characters becomes exactly one `-` between the collapses of the text before and after it |
| Faq.CollapseDashes | src/components/FAQ.tsx:31 | after `/-+/g → '-'` there are no two dashes in a row |
| Faq.CollapseDashesIdle | src/components/FAQ.tsx:31 | collapsing a string with no double dash changes nothing |
| Faq.Slug | src/components/FAQ.tsx:30-31 | a slug is at most 80 characters of `a-z`, digits and `-`, with no double dash |
| Faq.ToLowerIdle | src/components/FAQ.tsx:31 | lower-casing a string without capitals changes nothing |
| Faq.SlugIdempotent | src/components/FAQ.tsx:30-31 | slugging a slug gives it back |
| Faq.SlugOfTwoWords | src/components/FAQ.tsx:30-31 | two words of `a-z` and digits separated by a space slug to the words joined by one `-`, cut at 80 characters |
| Faq.FilterItems | src/components/FAQ.tsx:67 | the kept items are exactly the matching ones |
| Faq.FilterItemsKeepsOrder | src/components/FAQ.tsx:67 | the kept items keep their order |
| Faq.FilterCats | src/components/FAQ.tsx:64-69 | no kept category is empty |
| Faq.FilterCatsSource | src/components/FAQ.tsx:64-69 | every kept category is a narrowed input category |
| Faq.FilterCatsComplete | src/components/FAQ.tsx:64-69 | every category with a match is kept |
| Faq.FilterCatsKeepsOrder | src/components/FAQ.tsx:64-69 | categories keep their order |
| Faq.TrimAllSpace | src/components/FAQ.tsx:62 | a whitespace-only query trims to empty |
| Faq.BlankQueryShowsAll | src/components/FAQ.tsx:62-63 | a blank query shows all the data |
| Faq.SearchKeepsMatches | src/components/FAQ.tsx:61-70 | a real query yields non-empty categories holding only matching items |
| Faq.SetAll | src/components/FAQ.tsx:41-45 | every `details` element ends open or closed as asked; without a list nothing happens |
| Projects.Normalize | src/components/Projects.tsx:21-35 | one slide at least; given slides kept; otherwise a single fallback slide labelled by the caption; title and description default to the caption, tags to empty (each `??` is `Coalesce`) |
| Projects.NormalizeAll | src/components/Projects.tsx:21-35 | one project per item, in order |
| Projects.EverySlideListNonEmpty | src/components/Projects.tsx:24-26 | every normalised project has a slide |
| Projects.JsRem | src/components/Projects.tsx:102-107 | JavaScript `%`: the result takes the sign of the dividend |
| Projects.StepsStayInRange | src/components/Projects.tsx:99-108 | next and previous stay within the slides and wrap at the ends |
| Projects.StepsInverse | src/components/Projects.tsx:99-108 | next then previous (and previous then next) return to the slide |
| Projects.Gallery.Total | src/components/Projects.tsx:101 | an open project has at least one slide |
| Projects.Gallery.constructor | src/components/Projects.tsx:21-39 | the gallery starts closed on the normalised projects |
| Projects.Gallery.OpenModal | src/components/Projects.tsx:45-50 | opening shows the chosen project at its first slide |
| Projects.Gallery.CloseModal | src/components/Projects.tsx:51-55 | closing clears the project and keeps the slide index |
| Projects.Gallery.NextSlide | src/components/Projects.tsx:99-103 | with a project open, advance with wrap-around; otherwise no change |
| Projects.Gallery.PrevSlide | src/components/Projects.tsx:104-108 | with a project open, step back with wrap-around; otherwise no change |
| Projects.Gallery.GoToSlide | src/components/Projects.tsx:307-325 | a thumbnail or dot selects its slide |
| Projects.Gallery.OnKey | src/components/Projects.tsx:57-70 | only while open: Escape closes, the arrows step, Home and End jump; Tab and other keys change no state |
| Projects.Gallery.OnPointerUp | src/components/Projects.tsx:115-124 | a swipe over 40 pixels steps: a leftward swipe advances, a rightward one goes back |
| Projects.SwipeThereAndBack | src/components/Projects.tsx:115-124 | a swipe and its opposite return to the same slide |
| LocaleSwitcher.PathOrRoot | src/components/LocaleSwitcherFab.tsx:22 | the path worked on is never empty: an empty or missing pathname becomes `/`, any other is kept |
| LocaleSwitcher.StripLocale | src/components/LocaleSwitcherFab.tsx:23 | the result is a suffix of the path, shorter by nothing or by exactly the 3-character prefix; after a locale prefix what is left is empty or starts with `/` |
| LocaleSwitcher.StripAfterPrefix | src/components/LocaleSwitcherFab.tsx:23 | stripping a locale prefix gives back the rest of the path |
| LocaleSwitcher.StripExamples | src/components/LocaleSwitcherFab.tsx:23 | `/en/about` → `/about`, `/es` → empty, `/english` unchanged, only one prefix removed |
| LocaleSwitcher.Base | src/components/LocaleSwitcherFab.tsx:47 | the base always starts with `/`, adding one only when missing |
| LocaleSwitcher.Href | src/components/LocaleSwitcherFab.tsx:48 | the href starts with the base and ends with the hash, and contains `?` and the query whenever the query is non-empty |
| LocaleSwitcher.SwitchHref | src/components/LocaleSwitcherFab.tsx:22-48 | the switch target is always an absolute path |
| LocaleSwitcher.SwitchKeepsPage | src/components/LocaleSwitcherFab.tsx:44-49 | switching keeps the page below the locale, with its query and hash |
| LocaleSwitcher.SwitchFromLocaleRoot | src/components/LocaleSwitcherFab.tsx:23-47 | switching from a locale's home page targets `/` |
| LocaleSwitcher.Find | src/components/LocaleSwitcherFab.tsx:53 | the active locale is the listed one with the current code, or none |
| LocaleSwitcher.LabelFallback | src/components/LocaleSwitcherFab.tsx:68-69 | an unknown locale shows 🌐 and "EN"; the known ones show their upper-cased code |
| LocaleSwitcher.LocaleMenu.constructor | src/components/LocaleSwitcherFab.tsx:17 | the menu starts closed, with no navigation |
| LocaleSwitcher.LocaleMenu.ToggleFab | src/components/LocaleSwitcherFab.tsx:60 | the button flips the menu |
| LocaleSwitcher.LocaleMenu.OnEscape | src/components/LocaleSwitcherFab.tsx:37-42 | Escape closes the menu |
| LocaleSwitcher.LocaleMenu.OnDocumentClick | src/components/LocaleSwitcherFab.tsx:27-34 | a click outside closes the menu; one inside leaves it as it was |
| LocaleSwitcher.LocaleMenu.SwitchTo | src/components/LocaleSwitcherFab.tsx:44-51 | a switch replaces the route with the switch href in the new locale and closes the menu |
| SnapCarousel.NextTarget | src/components/Reviews.tsx:52 | from a card, the target is a card no earlier than the active one |
| SnapCarousel.PrevTarget | src/components/Reviews.tsx:53 | the target is never negative and never after the active card |
| SnapCarousel.TargetsInRange | src/components/Reviews.tsx:52-53 | both targets stay on a card, and each stays put only at its end |
| SnapCarousel.StepsInverse | src/components/Reviews.tsx:52-53 | away from the ends, next and previous undo each other |
| SnapCarousel.KeyTarget | src/components/Reviews.tsx:51-54 | from a card, the key target is still a card, at most one step away; other keys keep the active one |
| SnapCarousel.Carousel.constructor | src/components/Reviews.tsx:19 | the carousel starts on the first card |
| SnapCarousel.Carousel.SnapTo | src/components/Reviews.tsx:21-26 | snapping to an existing card activates it; a missing card is a no-op |
| SnapCarousel.Carousel.OnKey | src/components/Services.tsx:63-66 | a track key snaps to its target; other keys change nothing |
| SnapCarousel.Carousel.OnPrevButton | src/components/Reviews.tsx:140 | the previous button snaps to the previous card |
| SnapCarousel.Carousel.OnNextButton | src/components/Services.tsx:168 | the next button snaps to the next card |
| SnapCarousel.NextThenPrev | src/components/Reviews.tsx:140-160 | next then previous returns to the card |
| Reviews.Heads | src/components/Reviews.tsx:15 | at most one letter per part, and the first letter of every non-empty part is among them |
| Reviews.Words | src/components/Reviews.tsx:15 | the words are non-empty parts, and every non-empty part is a word |
| Reviews.HeadsOfWords | src/components/Reviews.tsx:15 | the heads are exactly one letter per word: the first letter of each, in order |
| Reviews.HeadsAppend | src/components/Reviews.tsx:15 | first letters distribute over word lists |
| Reviews.Initials | src/components/Reviews.tsx:14-15 | initials are at most two characters |
| Reviews.TwoWords | src/components/Reviews.tsx:14-15 | "first last" gives both upper-cased first letters |
| Reviews.SplitDoubled | src/components/Reviews.tsx:15 | splitting on a doubled separator yields one extra empty word |
| Reviews.SpaceSplits | src/components/Reviews.tsx:15 | a single and a double space split into the same words, apart from one empty word |
| Reviews.HeadsSkipEmpty | src/components/Reviews.tsx:15 | an empty word adds no initial |
| Reviews.DoubleSpaceIgnored | src/components/Reviews.tsx:14-15 | a doubled space does not change the initials |
| Reviews.AtMostTwoWords | src/components/Reviews.tsx:14-15 | whatever follows the first word, the first initial is its upper-cased first letter |
| Reviews.FirstTwoWords | src/components/Reviews.tsx:14-15 | whatever follows the first two words, the initials are their two upper-cased first letters |
| Services.Prefill | src/components/Services.tsx:16 | the chat message is the fixed opening, the service, then the fixed closing |
| Services.ServiceOf | src/components/Services.tsx:16 | reading the service back out of a message of the prefill's shape |
| Services.PrefillNamesService | src/components/Services.tsx:16 | the prefilled message names exactly the service |
| Services.PrefillInjective | src/components/Services.tsx:16 | different services give different messages |
| Services.OpenCrispFor | src/components/Services.tsx:15-23 | with Crisp loaded it pushes exactly `chat:open` and then a message whose service reads back as the card's own; otherwise it scrolls to the contact form; it never does nothing |
| Services.OnCardKey | src/components/Services.tsx:25-30 | Enter or Space on a card acts like a click; other keys do nothing |
| Services.ChatNamesCard | src/components/Services.tsx:25-30 | a keyboard-opened chat asks about that card's service |
| ContactForm.ServiceOptions | src/components/Contact.tsx:18-21 | translated services if a non-empty array, else the six built-in ones; never empty |
| ContactForm.DefaultsRejected | src/components/Contact.tsx:30-39 | the blank defaults fail the current schema on name, ZIP, service, message and consent (and e-mail when "" is no address) |
| ContactForm.QuoteForm.constructor | src/components/Contact.tsx:15 | the status starts idle |
| ContactForm.QuoteForm.OnSubmit | src/components/Contact.tsx:42-56 | status goes idle, then ok iff the response was 2xx (else error); the form is reset only on success |
| ContactForm.QuoteForm.HandleSubmit | src/components/Contact.tsx:42-56 | an invalid form never submits; a valid one runs the submit |
| ContactForm.SubmitDefaults | src/components/Contact.tsx:30-56 | submitting the untouched form changes nothing |
| LegacyContactForm.SuccessAfter | src/components/contact/Contact.tsx:22-27 | 200 → success; a thrown fetch → failure; any other status leaves the previous value |
| LegacyContactForm.NonTwoHundredKeepsNull | src/components/contact/Contact.tsx:22-25 | a 4xx/5xx reply reports neither success nor failure |
| LegacyContactForm.FormsReadSuccess | src/components/contact/Contact.tsx:22-25 | the older form's "200 only" success implies the newer form's `res.ok`; they differ only on 201–299, 204 for instance |
| LegacyContactForm.FormsAgreeOnRoute | src/app/api/send-mail/route.ts:86-93 | on the route's replies both forms report success exactly when the fields were there and the mail went out |
| LegacyContactForm.LegacyForm.constructor | src/components/contact/Contact.tsx:13-14 | no result yet and not loading |
| LegacyContactForm.LegacyForm.OnSubmit | src/components/contact/Contact.tsx:15-31 | loading goes on and then off; the result follows `SuccessAfter`; the form is reset only on 200 |

## Left out

- Markup and inline styles are abbreviated: each template keeps its static text only around the interpolations and the conditional blocks. Counts of `<`, `>` and `"` are about that abbreviated markup.
- The current year (`new Date().getFullYear()`) is a parameter `year`, and `Date` formatting is left out.
- zod's `.email()` check is an uninterpreted parameter `isEmail`. `z.enum`, `.regex` and `.min`/`.max` are written out. Lengths count characters, not UTF-16 code units.
- `toLowerCase` and `toUpperCase` map ASCII letters only; other letters are left unchanged. Whitespace for `trim` and `\s` is JavaScript's set: the ASCII controls, the space, NBSP, the Unicode space separators, the line and paragraph separators and the BOM.
- Inputs of the wrong JavaScript type (a number where a string is expected, say) are not modelled: every field is a string or a missing one.
- nodemailer, `process.env`, `req.json()` and `NextResponse` are replaced: the transport is a class whose delivery outcome is fixed at construction, and the reply is a status and a body.
- `fetch` is a `FetchOutcome`: a response status or a thrown error. `router.replace` is recorded as a `Navigation` value, not performed.
- The Crisp widget is an `Effect` value, and "scroll to #contact" is one constructor of it.
- DOM geometry is left out: the carousels' nearest-centre scroll handler, `scrollIntoView`, the focus trap (`trapFocus`), `requestAnimationFrame` focus restore, and `document.body.style.overflow`.
- `SnapCarousel.Carousel.SnapTo`: whether a child element exists is a mounted flag plus a card count, not a DOM query.
- FAQ `openChat` is left out: it is the same Crisp pattern as Services' `openCrispFor`, and it feeds no state.
- `Projects.Gallery.OnPointerUp`: the pointer delta is an integer; pointer capture and `clientX` are left out.
- `LegacyContactForm.LegacyForm.OnSubmit`: `reset()` is counted rather than restoring `initialValues`. `src/components/contact/helpers/index.ts` is not part of this model.
- `ContactForm.QuoteForm.HandleSubmit`: react-hook-form's `handleSubmit` is a schema check before `onSubmit`; field error messages are left out.
- `ContactForm.ServiceOptions`: a translated value that is not an array is modelled as `None`.
- `CustomerConfirmText.TextEnds`: the text is not split back into lines, because a line may itself contain `\n`.
- `SendMailRoute.Post`: `await req.json()` (route.ts:6) runs outside the `try`, so an unparsable or `null` body throws before the 400 guard; the model starts from a parsed body object. The `console.error` logging of the failure (line 88) is left out.
- `Http.OkExamples`: states `res.ok` on sample statuses only; the all-statuses reading of `res.ok` is in `LegacyContactForm.FormsReadSuccess` and `ContactForm.QuoteForm.OnSubmit`.
- `Reviews.Initials`: the upper-casing is ASCII only, and a first letter outside the Basic Multilingual Plane counts as one character rather than two UTF-16 code units.

## Findings

| source | as written | input that shows it | evidently intended | confidence | as-written member | corrected member |
|---|---|---|---|---|---|---|
| src/lib/mail/renderContactEmailText.ts:28-48 | `''` spacer entries are listed, but `filter(Boolean)` removes them with the `undefined` ones | any submission without `submittedAt`: line 2 is "Lead • Website", not a blank line | drop only `undefined`, so the blank spacer lines survive | not executed | ContactEmailText.NoBlankAfterTitle | ContactEmailText.IntendedSpacers |
| src/lib/mail/renderCustomerConfirmText.ts:14-33 | the seven `''` spacer lines are removed by `filter(Boolean)` | any payload: the greeting follows the title with no blank line between them | drop only the missing phone line, keeping the blank lines | not executed | CustomerConfirmText.NoBlankAfterTitle | CustomerConfirmText.IntendedSpacers |
