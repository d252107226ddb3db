/**
 * The FAQ section: the `slug` used for anchor ids, the choice between
 * grouped and flat translated entries (`data`), the case-insensitive search
 * (`filtered`) and the Expand/Collapse-all buttons (`setAll`), which set the
 * `open` flag of every `<details>` element under the list.
 */
module Faq {
  import opened Text

  // ---------------------------------------------------------------------------
  // slug
  // ---------------------------------------------------------------------------

  /** The characters `/[^a-z0-9\s-]/g` keeps. */
  predicate KeptBySlug(c: char) {
    'a' <= c <= 'z' || '0' <= c <= '9' || IsSpace(c) || c == '-'
  }

  /** The characters a slug is made of. */
  predicate SlugChar(c: char) {
    'a' <= c <= 'z' || '0' <= c <= '9' || c == '-'
  }

  predicate IsDash(c: char) {
    c == '-'
  }

  /** No two adjacent dashes. */
  predicate NoDoubleDash(s: string) {
    forall i :: 0 <= i < |s| - 1 ==> !(s[i] == '-' && s[i + 1] == '-')
  }

  /** `.replace(/[^a-z0-9\s-]/g, '')`. */
  function KeepSlugChars(s: string): (r: string)
    ensures forall c :: c in r ==> c in s && KeptBySlug(c)
    ensures (forall c :: c in s ==> KeptBySlug(c)) ==> r == s
  {
    if s == [] then []
    else (if KeptBySlug(s[0]) then [s[0]] else []) + KeepSlugChars(s[1..])
  }

  /** The filter keeps a single character exactly when the pattern allows it. */
  lemma KeepSlugCharsOne(c: char)
    ensures KeepSlugChars([c]) == if KeptBySlug(c) then [c] else []
  {
    assert [c][1..] == [];
  }

  /** The filter works piece by piece: filtering a concatenation concatenates the filtered pieces. */
  lemma {:induction false} KeepSlugCharsAppend(a: string, b: string)
    ensures KeepSlugChars(a + b) == KeepSlugChars(a) + KeepSlugChars(b)
    decreases |a|
  {
    if a == [] {
      assert a + b == b;
    } else {
      assert (a + b)[0] == a[0] && (a + b)[1..] == a[1..] + b;
      KeepSlugCharsAppend(a[1..], b);
    }
  }

  /** Every allowed character survives the filter, in its place between what the filter makes of its two sides. */
  lemma KeepSlugCharsKeeps(s: string, i: nat)
    requires i < |s| && KeptBySlug(s[i])
    ensures KeepSlugChars(s) == KeepSlugChars(s[..i]) + [s[i]] + KeepSlugChars(s[i + 1..])
  {
    SplitAtIndex(s, i);
    KeepSlugCharsAround(s[..i], s[i], s[i + 1..]);
  }

  lemma SplitAtIndex(s: string, i: nat)
    requires i < |s|
    ensures s == s[..i] + ([s[i]] + s[i + 1..])
  {
  }

  lemma KeepSlugCharsAround(x: string, c: char, y: string)
    requires KeptBySlug(c)
    ensures KeepSlugChars(x + ([c] + y)) == KeepSlugChars(x) + [c] + KeepSlugChars(y)
  {
    KeepSlugCharsAppend(x, [c] + y);
    KeepSlugCharsAppend([c], y);
    KeepSlugCharsOne(c);
    var u, v := KeepSlugChars(x), KeepSlugChars(y);
    assert u + ([c] + v) == u + [c] + v;
  }

  /** `s` without its leading run of characters satisfying `p`. */
  function DropRun(s: string, p: char -> bool): (r: string)
    ensures |r| <= |s| && r == s[|s| - |r|..]
    ensures r != [] ==> !p(r[0])
    ensures s != [] && p(s[0]) ==> |r| < |s|
    ensures s != [] && !p(s[0]) ==> r == s
  {
    if s != [] && p(s[0]) then
      var r := DropRun(s[1..], p);
      assert s[1..][|s| - 1 - |r|..] == s[|s| - |r|..];
      r
    else s
  }

  /** `.replace(/x+/g, '-')`, where `p` says which characters `x` matches: every maximal run becomes one dash. */
  function CollapseRuns(s: string, p: char -> bool): (r: string)
    ensures forall c :: c in r ==> c == '-' || (c in s && !p(c))
    ensures (forall c :: c in s ==> !p(c)) ==> r == s
    ensures s != [] && p(s[0]) ==> r != [] && r[0] == '-'
    ensures s != [] && !p(s[0]) ==> r != [] && r[0] == s[0]
    decreases |s|
  {
    if s == [] then []
    else if p(s[0]) then
      var t := DropRun(s, p);
      assert forall c :: c in t ==> c in s;
      ['-'] + CollapseRuns(t, p)
    else
      [s[0]] + CollapseRuns(s[1..], p)
  }

  /** A run of `p` characters followed by something that does not start with one is dropped whole. */
  lemma {:induction false} DropRunWhole(w: string, b: string, p: char -> bool)
    requires forall i :: 0 <= i < |w| ==> p(w[i])
    requires b == [] || !p(b[0])
    ensures DropRun(w + b, p) == b
    decreases |w|
  {
    if w != [] {
      assert (w + b)[1..] == w[1..] + b;
      DropRunWhole(w[1..], b, p);
    }
  }

  /** When `a` ends in a character outside `p`, the leading run of `a + rest` lies inside `a`. */
  lemma {:induction false} DropRunWithin(a: string, rest: string, p: char -> bool)
    requires a != [] && !p(a[|a| - 1])
    ensures DropRun(a + rest, p) == DropRun(a, p) + rest
    decreases |a|
  {
    var s := a + rest;
    assert s[0] == a[0];
    if p(a[0]) {
      var u := a[1..];
      assert u != [] && u[|u| - 1] == a[|a| - 1];
      assert s[1..] == u + rest;
      DropRunWithin(u, rest, p);
      assert DropRun(s, p) == DropRun(u + rest, p);
      assert DropRun(a, p) == DropRun(u, p);
    } else {
      assert DropRun(s, p) == s && DropRun(a, p) == a;
    }
  }

  /** When `a` ends in a character outside `p`, dropping its leading run keeps that last character. */
  lemma {:induction false} DropRunKeepsEnd(a: string, p: char -> bool)
    requires a != [] && !p(a[|a| - 1])
    ensures DropRun(a, p) != [] && !p(DropRun(a, p)[|DropRun(a, p)| - 1])
    decreases |a|
  {
    if p(a[0]) {
      var u := a[1..];
      assert u != [] && u[|u| - 1] == a[|a| - 1];
      DropRunKeepsEnd(u, p);
      assert DropRun(a, p) == DropRun(u, p);
    }
  }

  lemma Regroup(x: string, w: string, b: string)
    ensures x + (w + b) == x + w + b
  {
  }

  lemma ConsAround(c: char, x: string, y: string)
    ensures [c] + (x + "-" + y) == ([c] + x) + "-" + y
  {
  }

  /** A run at the very start: one dash, then the collapse of what follows it. */
  lemma SplitAtStart(w: string, b: string, p: char -> bool)
    requires w != [] && forall i :: 0 <= i < |w| ==> p(w[i])
    requires b == [] || !p(b[0])
    ensures CollapseRuns(w + b, p) == ['-'] + CollapseRuns(b, p)
  {
    assert (w + b)[0] == w[0];
    DropRunWhole(w, b, p);
  }

  lemma EmptyFront(a: string, w: string, b: string, y: string)
    requires a == []
    ensures a + w + b == w + b && a + "-" + y == ['-'] + y
  {
  }

  /** A leading run of `a` becomes one dash, whatever follows `a`. */
  lemma UnfoldRun(a: string, t: string, r: string, p: char -> bool)
    requires a != [] && p(a[0])
    requires DropRun(a + r, p) == t + r
    ensures CollapseRuns(a + r, p) == ['-'] + CollapseRuns(t + r, p)
  {
    assert (a + r)[0] == a[0];
  }

  /** A kept first character of `a` stays, whatever follows `a`. */
  lemma UnfoldKept(a: string, r: string, p: char -> bool)
    requires a != [] && !p(a[0])
    ensures CollapseRuns(a + r, p) == [a[0]] + CollapseRuns(a[1..] + r, p)
  {
    assert (a + r)[0] == a[0] && (a + r)[1..] == a[1..] + r;
  }

  /** One step past a leading run of `a`, given the split of what follows that run. */
  lemma SplitPastRun(a: string, w: string, b: string, p: char -> bool)
    requires a != [] && p(a[0]) && !p(a[|a| - 1])
    requires CollapseRuns(DropRun(a, p) + w + b, p) == CollapseRuns(DropRun(a, p), p) + "-" + CollapseRuns(b, p)
    ensures CollapseRuns(a + w + b, p) == CollapseRuns(a, p) + "-" + CollapseRuns(b, p)
  {
    var t := DropRun(a, p);
    DropRunWithin(a, w + b, p);
    UnfoldRun(a, t, w + b, p);
    Regroup(a, w, b);
    Regroup(t, w, b);
    ConsAround('-', CollapseRuns(t, p), CollapseRuns(b, p));
  }

  /** One step past a kept first character of `a`, given the split of the rest. */
  lemma SplitPastKept(a: string, w: string, b: string, p: char -> bool)
    requires a != [] && !p(a[0])
    requires CollapseRuns(a[1..] + w + b, p) == CollapseRuns(a[1..], p) + "-" + CollapseRuns(b, p)
    ensures CollapseRuns(a + w + b, p) == CollapseRuns(a, p) + "-" + CollapseRuns(b, p)
  {
    UnfoldKept(a, w + b, p);
    Regroup(a, w, b);
    Regroup(a[1..], w, b);
    ConsAround(a[0], CollapseRuns(a[1..], p), CollapseRuns(b, p));
  }

  /**
   * The collapse works run by run: a maximal run `w` of `p` characters,
   * with `a` before it and `b` after it, becomes exactly one dash between
   * the collapses of `a` and of `b`.
   */
  lemma {:induction false} CollapseRunsSplit(a: string, w: string, b: string, p: char -> bool)
    requires w != [] && forall i :: 0 <= i < |w| ==> p(w[i])
    requires a == [] || !p(a[|a| - 1])
    requires b == [] || !p(b[0])
    ensures CollapseRuns(a + w + b, p) == CollapseRuns(a, p) + "-" + CollapseRuns(b, p)
    decreases |a|, 1
  {
    if a == [] {
      SplitAtStart(w, b, p);
      EmptyFront(a, w, b, CollapseRuns(b, p));
      assert CollapseRuns(a, p) == a;
    } else if p(a[0]) {
      SplitRunFirst(a, w, b, p);
    } else {
      SplitKeptFirst(a, w, b, p);
    }
  }

  /** `CollapseRunsSplit` when `a` starts with a run. */
  lemma {:induction false} SplitRunFirst(a: string, w: string, b: string, p: char -> bool)
    requires w != [] && forall i :: 0 <= i < |w| ==> p(w[i])
    requires a != [] && p(a[0]) && !p(a[|a| - 1])
    requires b == [] || !p(b[0])
    ensures CollapseRuns(a + w + b, p) == CollapseRuns(a, p) + "-" + CollapseRuns(b, p)
    decreases |a|, 0
  {
    DropRunKeepsEnd(a, p);
    CollapseRunsSplit(DropRun(a, p), w, b, p);
    SplitPastRun(a, w, b, p);
  }

  /** `CollapseRunsSplit` when `a` starts with a kept character. */
  lemma {:induction false} SplitKeptFirst(a: string, w: string, b: string, p: char -> bool)
    requires w != [] && forall i :: 0 <= i < |w| ==> p(w[i])
    requires a != [] && !p(a[0]) && !p(a[|a| - 1])
    requires b == [] || !p(b[0])
    ensures CollapseRuns(a + w + b, p) == CollapseRuns(a, p) + "-" + CollapseRuns(b, p)
    decreases |a|, 0
  {
    var u := a[1..];
    assert u == [] || u[|u| - 1] == a[|a| - 1];
    CollapseRunsSplit(u, w, b, p);
    SplitPastKept(a, w, b, p);
  }

  /** After runs of dashes are collapsed, no two dashes are adjacent. */
  lemma {:induction false} CollapseDashes(s: string)
    ensures NoDoubleDash(CollapseRuns(s, IsDash))
    decreases |s|
  {
    if s != [] {
      if IsDash(s[0]) {
        var t := DropRun(s, IsDash);
        CollapseDashes(t);
        var r := CollapseRuns(t, IsDash);
        assert CollapseRuns(s, IsDash) == ['-'] + r;
        NoDoubleDashCons('-', r);
      } else {
        var r := CollapseRuns(s[1..], IsDash);
        CollapseDashes(s[1..]);
        assert CollapseRuns(s, IsDash) == [s[0]] + r;
        NoDoubleDashCons(s[0], r);
      }
    }
  }

  lemma NoDoubleDashCons(c: char, r: string)
    requires NoDoubleDash(r)
    requires c != '-' || r == [] || r[0] != '-'
    ensures NoDoubleDash([c] + r)
  {
    var s := [c] + r;
    forall i | 0 <= i < |s| - 1
      ensures !(s[i] == '-' && s[i + 1] == '-')
    {
      if i > 0 {
        assert s[i] == r[i - 1] && s[i + 1] == r[i];
      }
    }
  }

  /** A string without adjacent dashes is left alone by the dash collapse. */
  lemma {:induction false} CollapseDashesIdle(s: string)
    requires NoDoubleDash(s)
    ensures CollapseRuns(s, IsDash) == s
    decreases |s|
  {
    if s != [] {
      var t := s[1..];
      assert NoDoubleDash(t) by {
        forall i | 0 <= i < |t| - 1
          ensures !(t[i] == '-' && t[i + 1] == '-')
        {
          assert t[i] == s[i + 1] && t[i + 1] == s[i + 2];
        }
      }
      CollapseDashesIdle(t);
      if IsDash(s[0]) {
        assert DropRun(s, IsDash) == t by {
          if t != [] {
            assert t[0] == s[1] && !IsDash(s[1]);
          }
        }
        assert CollapseRuns(s, IsDash) == ['-'] + CollapseRuns(t, IsDash);
      } else {
        assert CollapseRuns(s, IsDash) == [s[0]] + CollapseRuns(t, IsDash);
      }
      assert s == [s[0]] + t;
    }
  }

  /** `slug(s)`: lower-case, drop everything but letters, digits, spaces and dashes, dash the space runs, collapse the dash runs, keep 80 characters. */
  function Slug(s: string): (r: string)
    ensures |r| <= 80
    ensures forall i :: 0 <= i < |r| ==> SlugChar(r[i])
    ensures NoDoubleDash(r)
  {
    var kept := KeepSlugChars(ToLower(s));
    var dashed := CollapseRuns(kept, IsSpace);
    var single := CollapseRuns(dashed, IsDash);
    CollapseDashes(dashed);
    assert forall c :: c in single ==> SlugChar(c);
    Take(single, 80)
  }

  /** Lower-casing leaves a string with no upper-case ASCII letter unchanged. */
  lemma ToLowerIdle(s: string)
    requires forall i :: 0 <= i < |s| ==> !('A' <= s[i] <= 'Z')
    ensures ToLower(s) == s
  {
  }

  /** `slug` is idempotent: a slug is its own slug. */
  lemma SlugIdempotent(s: string)
    ensures Slug(Slug(s)) == Slug(s)
  {
    var t := Slug(s);
    ToLowerIdle(t);
    assert forall c :: c in t ==> KeptBySlug(c) && !IsSpace(c);
    assert KeepSlugChars(t) == t;
    assert CollapseRuns(t, IsSpace) == t;
    CollapseDashesIdle(t);
  }

  /** A word a slug keeps as it is: non-empty, lower-case letters and digits only. */
  predicate SlugWord(w: string) {
    w != [] && forall i :: 0 <= i < |w| ==> 'a' <= w[i] <= 'z' || '0' <= w[i] <= '9'
  }

  /** Two slug words separated by a space slug to the two words joined by one dash, cut at 80 characters. */
  lemma SlugOfTwoWords(a: string, b: string)
    requires SlugWord(a) && SlugWord(b)
    ensures Slug(a + " " + b) == Take(a + "-" + b, 80)
  {
    TwoWordsKept(a, b);
    SpaceBecomesDash(a, b);
    DashJoinNoDouble(a, b);
    CollapseDashesIdle(a + "-" + b);
  }

  lemma SpaceBecomesDash(a: string, b: string)
    requires SlugWord(a) && SlugWord(b)
    ensures CollapseRuns(a + " " + b, IsSpace) == a + "-" + b
  {
    WordIdle(a);
    WordIdle(b);
    assert a + " " + b == a + [' '] + b;
    CollapseRunsSplit(a, [' '], b, IsSpace);
  }

  lemma DashJoinNoDouble(a: string, b: string)
    requires SlugWord(a) && SlugWord(b)
    ensures NoDoubleDash(a + "-" + b)
  {
    var d := a + "-" + b;
    forall i | 0 <= i < |d| - 1
      ensures !(d[i] == '-' && d[i + 1] == '-')
    {
      if i < |a| {
        assert d[i] == a[i];
      } else {
        assert d[i + 1] == b[i - |a|];
      }
    }
  }

  /** A slug word has no run to collapse. */
  lemma WordIdle(w: string)
    requires SlugWord(w)
    ensures CollapseRuns(w, IsSpace) == w
    ensures !IsSpace(w[0]) && !IsSpace(w[|w| - 1])
  {
    assert forall c :: c in w ==> !IsSpace(c);
  }

  /** Lower-casing and the character filter leave two slug words around a space alone. */
  lemma TwoWordsKept(a: string, b: string)
    requires SlugWord(a) && SlugWord(b)
    ensures KeepSlugChars(ToLower(a + " " + b)) == a + " " + b
  {
    var s := a + " " + b;
    forall i | 0 <= i < |s|
      ensures !('A' <= s[i] <= 'Z') && KeptBySlug(s[i])
    {
      if i < |a| {
        assert s[i] == a[i];
      } else if i > |a| {
        assert s[i] == b[i - |a| - 1];
      }
    }
    ToLowerIdle(s);
  }

  // ---------------------------------------------------------------------------
  // data
  // ---------------------------------------------------------------------------

  datatype QA = QA(q: string, a: string)

  datatype Category = Category(name: string, items: seq<QA>)

  /** `Array.isArray(v) && v.length`: `None` stands for a translation that is not an array. */
  predicate NonEmptyArray<T>(v: Option<seq<T>>) {
    v.Some? && v.value != []
  }

  /** `data`: the grouped entries when there are any, else the flat ones under one "General" category, else nothing. */
  function Data(categories: Option<seq<Category>>, flatItems: Option<seq<QA>>): (r: seq<Category>)
    ensures r == [] <==> !NonEmptyArray(categories) && !NonEmptyArray(flatItems)
    ensures NonEmptyArray(categories) ==> r == categories.value
    ensures !NonEmptyArray(categories) && NonEmptyArray(flatItems) ==> r == [Category("General", flatItems.value)]
  {
    if NonEmptyArray(categories) then categories.value
    else if NonEmptyArray(flatItems) then [Category("General", flatItems.value)]
    else []
  }

  // ---------------------------------------------------------------------------
  // filtered
  // ---------------------------------------------------------------------------

  /** `xs` is `ys` with some elements removed, order kept. */
  predicate SubseqOf<T(==)>(xs: seq<T>, ys: seq<T>)
    decreases |ys|
  {
    if xs == [] then true
    else if ys == [] then false
    else if xs[0] == ys[0] then SubseqOf(xs[1..], ys[1..])
    else SubseqOf(xs, ys[1..])
  }

  /** The search term: `query.trim().toLowerCase()`. */
  function Needle(query: string): string {
    ToLower(Trim(query))
  }

  /** `it.q.toLowerCase().includes(q) || it.a.toLowerCase().includes(q)`. */
  predicate Matches(it: QA, q: string) {
    IsInfix(q, ToLower(it.q)) || IsInfix(q, ToLower(it.a))
  }

  /** `items.filter(it => matches(it, q))`. */
  function FilterItems(items: seq<QA>, q: string): (r: seq<QA>)
    ensures |r| <= |items|
    ensures forall i :: 0 <= i < |r| ==> Matches(r[i], q) && r[i] in items
    ensures forall i :: 0 <= i < |items| && Matches(items[i], q) ==> items[i] in r
  {
    if items == [] then []
    else (if Matches(items[0], q) then [items[0]] else []) + FilterItems(items[1..], q)
  }

  lemma {:induction false} FilterItemsKeepsOrder(items: seq<QA>, q: string)
    ensures SubseqOf(FilterItems(items, q), items)
    decreases |items|
  {
    if items != [] {
      FilterItemsKeepsOrder(items[1..], q);
      var rest := FilterItems(items[1..], q);
      var r := FilterItems(items, q);
      if Matches(items[0], q) {
        assert r == [items[0]] + rest;
        assert r[0] == items[0] && r[1..] == rest;
      } else {
        assert r == rest;
        if rest != [] {
          assert Matches(rest[0], q);
        }
      }
    }
  }

  /** A category with only its matching items. */
  function Narrow(cat: Category, q: string): Category {
    cat.(items := FilterItems(cat.items, q))
  }

  /** `.map(cat => ({...cat, items: …})).filter(cat => cat.items.length > 0)`. */
  function FilterCats(cats: seq<Category>, q: string): (r: seq<Category>)
    ensures |r| <= |cats|
    ensures forall i :: 0 <= i < |r| ==> r[i].items != []
  {
    if cats == [] then []
    else
      var head := Narrow(cats[0], q);
      (if head.items != [] then [head] else []) + FilterCats(cats[1..], q)
  }

  /** Each category shown is an input category narrowed to its matching items. */
  lemma {:induction false} FilterCatsSource(cats: seq<Category>, q: string, i: nat) returns (j: nat)
    requires i < |FilterCats(cats, q)|
    ensures j < |cats| && FilterCats(cats, q)[i] == Narrow(cats[j], q)
    decreases |cats|
  {
    var head := Narrow(cats[0], q);
    var rest := FilterCats(cats[1..], q);
    if head.items != [] && i == 0 {
      j := 0;
    } else {
      var i' := if head.items != [] then i - 1 else i;
      assert FilterCats(cats, q)[i] == rest[i'];
      var j' := FilterCatsSource(cats[1..], q, i');
      j := j' + 1;
    }
  }

  /** Every input category with a matching item is shown. */
  lemma {:induction false} FilterCatsComplete(cats: seq<Category>, q: string, j: nat)
    requires j < |cats| && Narrow(cats[j], q).items != []
    ensures Narrow(cats[j], q) in FilterCats(cats, q)
    decreases |cats|
  {
    if j > 0 {
      FilterCatsComplete(cats[1..], q, j - 1);
      assert cats[1..][j - 1] == cats[j];
    }
  }

  /** The categories shown keep their input order. */
  lemma {:induction false} FilterCatsKeepsOrder(cats: seq<Category>, q: string)
    ensures SubseqOf(FilterCats(cats, q), seq(|cats|, i requires 0 <= i < |cats| => Narrow(cats[i], q)))
    decreases |cats|
  {
    if cats != [] {
      var m := seq(|cats|, i requires 0 <= i < |cats| => Narrow(cats[i], q));
      var m' := seq(|cats| - 1, i requires 0 <= i < |cats| - 1 => Narrow(cats[1..][i], q));
      assert m[1..] == m';
      FilterCatsKeepsOrder(cats[1..], q);
      var rest := FilterCats(cats[1..], q);
      var head := Narrow(cats[0], q);
      var r := FilterCats(cats, q);
      assert m[0] == head;
      if head.items != [] {
        assert r == [head] + rest;
        assert r[0] == m[0] && r[1..] == rest;
      } else {
        assert r == rest;
        if rest != [] {
          assert rest[0].items != [];
        }
      }
    }
  }

  /** `filtered`: all of `data` for a blank query, otherwise the narrowed non-empty categories. */
  function Filtered(data: seq<Category>, query: string): seq<Category> {
    var q := Needle(query);
    if q == "" then data else FilterCats(data, q)
  }

  lemma TrimAllSpace(s: string)
    requires AllSpace(s)
    ensures Trim(s) == ""
  {
  }

  /** A blank or whitespace-only query shows every category and item. */
  lemma BlankQueryShowsAll(data: seq<Category>, query: string)
    requires AllSpace(query)
    ensures Filtered(data, query) == data
  {
    TrimAllSpace(query);
  }

  /**
   * A non-blank query keeps exactly the items whose question or answer
   * contains it, ignoring case and surrounding spaces, and drops the
   * categories left without items.
   */
  lemma SearchKeepsMatches(data: seq<Category>, query: string)
    requires Needle(query) != ""
    ensures var r := Filtered(data, query);
      && |r| <= |data|
      && (forall i :: 0 <= i < |r| ==> r[i].items != [])
      && (forall i, k :: 0 <= i < |r| && 0 <= k < |r[i].items| ==> Matches(r[i].items[k], Needle(query)))
  {
    var q := Needle(query);
    var r := Filtered(data, query);
    forall i, k | 0 <= i < |r| && 0 <= k < |r[i].items| ensures Matches(r[i].items[k], q) {
      var j := FilterCatsSource(data, q, i);
    }
  }

  // ---------------------------------------------------------------------------
  // setAll
  // ---------------------------------------------------------------------------

  /**
   * `setAll(open)`: `details` holds the `open` flags of the `<details>`
   * elements under the list (`null` before it is mounted, when nothing happens).
   */
  method SetAll(details: array?<bool>, open: bool)
    modifies details
    ensures details != null ==> forall i :: 0 <= i < details.Length ==> details[i] == open
  {
    if details == null {
      return;
    }
    var k := 0;
    while k < details.Length
      invariant 0 <= k <= details.Length
      invariant forall i :: 0 <= i < k ==> details[i] == open
    {
      details[k] := open;
      k := k + 1;
    }
  }
}
