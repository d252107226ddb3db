/**
 * The services cards: activating a card opens the Crisp chat with a
 * prefilled message naming the service, or scrolls to the contact form
 * when the chat widget is not loaded.
 */
module Services {
  import opened SnapCarousel

  const PrefillOpen: string := "Hi! I'm interested in "
  const PrefillClose: string := ". Can I get a free consultation and quote?"

  /** The message `openCrispFor(service)` sends. */
  function Prefill(service: string): (r: string)
    ensures PrefillOpen <= r
    ensures |r| == |PrefillOpen| + |service| + |PrefillClose|
  {
    PrefillOpen + service + PrefillClose
  }

  /** The service named in a prefilled message: the text between the fixed opening and closing. */
  function ServiceOf(msg: string): (r: string)
    requires |msg| >= |PrefillOpen| + |PrefillClose|
    ensures |r| == |msg| - |PrefillOpen| - |PrefillClose|
  {
    msg[|PrefillOpen|..|msg| - |PrefillClose|]
  }

  lemma Middle(a: string, s: string, b: string)
    ensures (a + s + b)[|a|..|a| + |s|] == s
  {
  }

  /** The service can be read back from its message, so different services send different messages. */
  lemma PrefillNamesService(service: string)
    ensures ServiceOf(Prefill(service)) == service
  {
    Middle(PrefillOpen, service, PrefillClose);
  }

  lemma PrefillInjective(s1: string, s2: string)
    requires Prefill(s1) == Prefill(s2)
    ensures s1 == s2
  {
    PrefillNamesService(s1);
    PrefillNamesService(s2);
  }

  /** A command pushed onto the `$crisp` queue. */
  datatype CrispCommand = ChatOpen | MessageSend(text: string)

  /** What activating a card does. */
  datatype Effect = Pushed(commands: seq<CrispCommand>) | ScrollToContact | Nothing

  /** `openCrispFor(service)`: with the widget loaded, open the chat and send the prefill; otherwise scroll to the form. */
  function OpenCrispFor(service: string, crispLoaded: bool): (r: Effect)
    ensures r != Nothing
    ensures r.Pushed? <==> crispLoaded
    ensures r.Pushed? ==> (|r.commands| == 2 && r.commands[0] == ChatOpen
      && r.commands[1] == MessageSend(Prefill(service)) && ServiceOf(Prefill(service)) == service)
    ensures crispLoaded ==> r == Pushed([ChatOpen, MessageSend(Prefill(service))])
    ensures !crispLoaded ==> r == ScrollToContact
  {
    if crispLoaded then
      PrefillNamesService(service);
      Pushed([ChatOpen, MessageSend(Prefill(service))])
    else ScrollToContact
  }

  /** A card's key handler: Enter and Space activate the card, every other key does nothing. */
  function OnCardKey(service: string, k: Key, crispLoaded: bool): (r: Effect)
    ensures (k == Enter || k == Space) ==> r == OpenCrispFor(service, crispLoaded)
    ensures r == Nothing <==> (k != Enter && k != Space)
  {
    if k == Enter || k == Space then OpenCrispFor(service, crispLoaded) else Nothing
  }

  /** The message the chat receives names the card's service. */
  lemma ChatNamesCard(service: string, k: Key)
    requires k == Enter || k == Space
    ensures var e := OnCardKey(service, k, true);
      e.Pushed? && |e.commands| == 2 && e.commands[0] == ChatOpen
      && e.commands[1].MessageSend? && ServiceOf(e.commands[1].text) == service
  {
    PrefillNamesService(service);
  }
}
