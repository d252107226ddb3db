/**
 * The floating language switcher: removal of the locale prefix from the
 * current path, composition of the link to the same page in the other
 * language, the label on the button, and the `open` flag of its menu.
 */
module LocaleSwitcher {
  import opened Text

  datatype LocaleEntry = LocaleEntry(code: string, name: string, flag: string)

  /** `LOCALES`. */
  const Locales: seq<LocaleEntry> := [LocaleEntry("en", "English", "🇺🇸"), LocaleEntry("es", "Español", "🇪🇸")]

  /** `usePathname() || '/'`: the path worked on is never empty. */
  function PathOrRoot(raw: Option<string>): (r: string)
    ensures r != []
    ensures Truthy(raw) ==> r == raw.value
    ensures !Truthy(raw) ==> r == "/"
  {
    if Truthy(raw) then raw.value else "/"
  }

  /** The path starts with `/en` or `/es` followed by `/` or by nothing. */
  predicate HasLocalePrefix(p: string) {
    |p| >= 3 && (p[..3] == "/en" || p[..3] == "/es") && (|p| == 3 || p[3] == '/')
  }

  /** `p.replace(/^\/(en|es)(?=\/|$)/, '')`: one leading locale segment is removed. */
  function StripLocale(p: string): (r: string)
    ensures |r| <= |p| && r == p[|p| - |r|..]
    ensures |p| - |r| == 0 || |p| - |r| == 3
    ensures HasLocalePrefix(p) ==> r == [] || r[0] == '/'
    ensures HasLocalePrefix(p) ==> r == p[3..]
    ensures !HasLocalePrefix(p) ==> r == p
  {
    if HasLocalePrefix(p) then p[3..] else p
  }

  /** Putting a locale segment in front of a path and stripping it again gives the path back. */
  lemma StripAfterPrefix(code: string, rest: string)
    requires code == "en" || code == "es"
    requires rest == "" || rest[0] == '/'
    ensures StripLocale("/" + code + rest) == rest
  {
    var p := "/" + code + rest;
    assert p[..3] == "/" + code;
    assert p[3..] == rest;
  }

  lemma StripExamples()
    ensures StripLocale("/en" + "/about") == "/about"
    ensures StripLocale("/es") == ""
    ensures StripLocale("/en" + "glish") == "/en" + "glish"
    ensures StripLocale("/en" + "/es") == "/es"
  {
    StripAfterPrefix("en", "/about");
    assert "/" + "en" == "/en";
    StripAfterPrefix("es", "");
    assert "/" + "es" + "" == "/es";
    var g := "/en" + "glish";
    assert g[3] == 'g';
    StripAfterPrefix("en", "/es");
  }

  /** `base`: the path with a leading `/`. */
  function Base(p: string): (r: string)
    ensures |r| >= 1 && r[0] == '/'
    ensures r == p || r == "/" + p
    ensures p != [] && p[0] == '/' ==> r == p
  {
    if |p| >= 1 && p[0] == '/' then p else "/" + p
  }

  /** `href`: the base, then `?` and the query string when there is one, then the hash. */
  function Href(base: string, qs: string, hash: string): (r: string)
    ensures base <= r && EndsWith(r, hash)
    ensures qs != "" ==> IsInfix("?" + qs, r)
    ensures qs != "" ==> r == base + "?" + qs + hash
    ensures qs == "" ==> r == base + hash
  {
    if qs != "" then
      InfixOf(base, "?" + qs, hash);
      assert base + "?" + qs + hash == base + ("?" + qs) + hash;
      base + "?" + qs + hash
    else base + hash
  }

  /** The link `switchTo` navigates to, from the current raw path, query string and hash. */
  function SwitchHref(raw: Option<string>, qs: string, hash: string): (r: string)
    ensures |r| >= 1 && r[0] == '/'
  {
    Href(Base(StripLocale(PathOrRoot(raw))), qs, hash)
  }

  /** Switching from a localised page keeps the page: the locale segment is dropped and the rest of the path kept. */
  lemma SwitchKeepsPage(code: string, rest: string, qs: string, hash: string)
    requires code == "en" || code == "es"
    requires rest != "" && rest[0] == '/'
    ensures SwitchHref(Some("/" + code + rest), qs, hash) == Href(rest, qs, hash)
  {
    StripAfterPrefix(code, rest);
  }

  /** From the bare locale root, the link goes to the site root. */
  lemma SwitchFromLocaleRoot(code: string)
    requires code == "en" || code == "es"
    ensures SwitchHref(Some("/" + code), "", "") == "/"
  {
    StripAfterPrefix(code, "");
    assert "/" + code + "" == "/" + code;
  }

  /** `LOCALES.find(l => l.code === current)`. */
  function Find(current: string): (r: Option<LocaleEntry>)
    ensures r.Some? ==> r.value in Locales && r.value.code == current
    ensures r.None? ==> forall l :: l in Locales ==> l.code != current
  {
    if current == "en" then Some(Locales[0])
    else if current == "es" then Some(Locales[1])
    else None
  }

  /** The button text `(active?.code ?? 'en').toUpperCase()`. */
  function FabLabel(current: string): string {
    var active := Find(current);
    ToUpper(if active.Some? then active.value.code else "en")
  }

  /** The button flag `active?.flag ?? '🌐'`. */
  function FabFlag(current: string): string {
    var active := Find(current);
    if active.Some? then active.value.flag else "🌐"
  }

  /** An unknown locale shows as "EN" with the globe; the known ones show their own code. */
  lemma LabelFallback(current: string)
    ensures current != "en" && current != "es" ==> FabLabel(current) == "EN" && FabFlag(current) == "🌐"
    ensures current == "en" ==> FabLabel(current) == "EN"
    ensures current == "es" ==> FabLabel(current) == "ES"
  {
    var en := ToUpper("en");
    assert en[0] == 'E' && en[1] == 'N';
    var es := ToUpper("es");
    assert es[0] == 'E' && es[1] == 'S';
  }

  /** A call to `router.replace(href, { locale })`. */
  datatype Navigation = Navigation(href: string, locale: string)

  /** The switcher's state: whether the menu is open, and the navigations it has asked the router for. */
  class LocaleMenu {
    var open: bool
    var navigations: seq<Navigation>

    constructor ()
      ensures !open && navigations == []
    {
      open := false;
      navigations := [];
    }

    /** The button: `setOpen(v => !v)`. */
    method ToggleFab()
      modifies this
      ensures open == !old(open) && navigations == old(navigations)
    {
      open := !open;
    }

    /** Escape closes the menu (the listener exists only while it is open). */
    method OnEscape()
      modifies this
      ensures !open && navigations == old(navigations)
    {
      if open {
        open := false;
      }
    }

    /** A click anywhere in the document: outside the switcher it closes an open menu. */
    method OnDocumentClick(inside: bool)
      modifies this
      ensures open == (old(open) && inside) && navigations == old(navigations)
    {
      if open && !inside {
        open := false;
      }
    }

    /** `switchTo(next)`: navigate to the same page in `next`, then close the menu. */
    method SwitchTo(next: string, raw: Option<string>, qs: string, hash: string)
      modifies this
      ensures navigations == old(navigations) + [Navigation(SwitchHref(raw, qs, hash), next)]
      ensures !open
    {
      var pathname := StripLocale(PathOrRoot(raw));
      var base := Base(pathname);
      var href := Href(base, qs, hash);
      navigations := navigations + [Navigation(href, next)];
      open := false;
    }
  }
}
