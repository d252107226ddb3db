/**
 * JavaScript string primitives used throughout the site's code, over
 * `seq<char>`: optional values, truthiness, `trim` and the `\s` class,
 * global `replace` of one character, `split`/`join` on a separator,
 * decimal rendering of a number, ASCII case mapping, substring search.
 */
module Text {

  /** A value that may be `undefined`. */
  datatype Option<+T> = None | Some(value: T)

  /** JavaScript truthiness of a value typed `string | undefined`: defined and non-empty. */
  predicate Truthy(v: Option<string>) {
    v.Some? && v.value != ""
  }

  /** `v ?? ''`. */
  function OrEmpty(v: Option<string>): (r: string)
    ensures r == "" <==> !Truthy(v)
  {
    if v.Some? then v.value else ""
  }

  /** `a || b` on strings: `a` when it is non-empty, otherwise `b`. */
  function OrElse(a: string, b: string): (r: string)
    ensures r == a || r == b
    ensures a != "" ==> r == a
  {
    if a != "" then a else b
  }

  /**
   * The characters matched by `\s` and removed by `String.prototype.trim`:
   * WhiteSpace (TAB, VT, FF, ZWNBSP and the Zs category) and LineTerminator.
   */
  predicate IsSpace(c: char) {
    c == '\t' || c == '\n' || c == '\U{0B}' || c == '\U{0C}' || c == '\r' || c == ' '
    || c == '\U{A0}' || c == '\U{1680}' || ('\U{2000}' <= c <= '\U{200A}')
    || c == '\U{2028}' || c == '\U{2029}' || c == '\U{202F}' || c == '\U{205F}'
    || c == '\U{3000}' || c == '\U{FEFF}'
  }

  function TrimStart(s: string): (r: string)
    ensures |r| <= |s| && r == s[|s| - |r|..]
    ensures forall i :: 0 <= i < |s| - |r| ==> IsSpace(s[i])
    ensures r != [] ==> !IsSpace(r[0])
  {
    if s != [] && IsSpace(s[0]) then
      var t := s[1..];
      var r := TrimStart(t);
      assert t[|t| - |r|..] == s[|s| - |r|..];
      assert forall i :: 1 <= i < |s| - |r| ==> s[i] == t[i - 1];
      r
    else s
  }

  function TrimEnd(s: string): (r: string)
    ensures |r| <= |s| && r == s[..|r|]
    ensures forall i :: |r| <= i < |s| ==> IsSpace(s[i])
    ensures r != [] ==> !IsSpace(r[|r| - 1])
  {
    if s != [] && IsSpace(s[|s| - 1]) then
      var t := s[..|s| - 1];
      var r := TrimEnd(t);
      assert t[..|r|] == s[..|r|];
      assert forall i :: |r| <= i < |t| ==> s[i] == t[i];
      r
    else s
  }

  /** `s.trim()`: the longest slice of `s` that neither starts nor ends with a space. */
  function Trim(s: string): (r: string)
    ensures |r| <= |s| && IsInfix(r, s)
    ensures r != [] ==> !IsSpace(r[0]) && !IsSpace(r[|r| - 1])
  {
    var t := TrimStart(s);
    var r := TrimEnd(t);
    PrefixOfSuffix(s, t, r);
    r
  }

  /** A prefix of a suffix of `s` occurs in `s`. */
  lemma PrefixOfSuffix(s: string, t: string, r: string)
    requires |t| <= |s| && t == s[|s| - |t|..]
    requires |r| <= |t| && r == t[..|r|]
    ensures IsInfix(r, s)
    ensures r != [] ==> r[0] == t[0]
  {
    var k := |s| - |t|;
    assert s[k..k + |r|] == r;
    assert InfixAt(r, s, k);
  }

  predicate AllSpace(s: string) {
    forall i :: 0 <= i < |s| ==> IsSpace(s[i])
  }

  lemma {:induction false} TrimStartPast(w: string, x: string)
    requires AllSpace(w)
    requires x == [] || !IsSpace(x[0])
    ensures TrimStart(w + x) == x
    decreases |w|
  {
    if w == [] {
      assert w + x == x;
    } else {
      assert (w + x)[1..] == w[1..] + x;
      TrimStartPast(w[1..], x);
    }
  }

  lemma {:induction false} TrimEndPast(x: string, w: string)
    requires AllSpace(w)
    requires x == [] || !IsSpace(x[|x| - 1])
    ensures TrimEnd(x + w) == x
    decreases |w|
  {
    if w == [] {
      assert x + w == x;
    } else {
      assert (x + w)[..|x + w| - 1] == x + w[..|w| - 1];
      TrimEndPast(x, w[..|w| - 1]);
    }
  }

  /** Trimming strips exactly the surrounding whitespace of a string that starts and ends with a non-space. */
  lemma TrimAround(w1: string, x: string, w2: string)
    requires AllSpace(w1) && AllSpace(w2)
    requires x != [] && !IsSpace(x[0]) && !IsSpace(x[|x| - 1])
    ensures Trim(w1 + x + w2) == x
  {
    assert w1 + x + w2 == w1 + (x + w2);
    TrimStartPast(w1, x + w2);
    TrimEndPast(x, w2);
  }

  /** `s.replace(/c/g, rep)` (and `s.replaceAll(c, rep)`) for a single character `c`. */
  function ReplaceChar(s: string, c: char, rep: string): (r: string)
    ensures c !in rep ==> c !in r
    ensures forall d :: d in r ==> d in rep || (d in s && d != c)
    ensures c !in s ==> r == s
  {
    if s == [] then [] else (if s[0] == c then rep else [s[0]]) + ReplaceChar(s[1..], c, rep)
  }

  lemma ReplaceCharSingle(d: char, c: char, rep: string)
    ensures ReplaceChar([d], c, rep) == if d == c then rep else [d]
  {
    assert [d][1..] == [];
  }

  lemma {:induction false} ReplaceCharAppend(a: string, b: string, c: char, rep: string)
    ensures ReplaceChar(a + b, c, rep) == ReplaceChar(a, c, rep) + ReplaceChar(b, c, rep)
    decreases |a|
  {
    if a == [] {
      assert a + b == b;
    } else {
      assert (a + b)[0] == a[0] && (a + b)[1..] == a[1..] + b;
      ReplaceCharAppend(a[1..], b, c, rep);
    }
  }

  /** The number of occurrences of `c` in `s`. */
  function Count(s: string, c: char): (n: nat)
    ensures n <= |s|
    ensures n == 0 <==> c !in s
  {
    if s == [] then 0 else (if s[0] == c then 1 else 0) + Count(s[1..], c)
  }

  lemma {:induction false} CountAppend(a: string, b: string, c: char)
    ensures Count(a + b, c) == Count(a, c) + Count(b, c)
    decreases |a|
  {
    if a == [] {
      assert a + b == b;
    } else {
      assert (a + b)[0] == a[0] && (a + b)[1..] == a[1..] + b;
      CountAppend(a[1..], b, c);
    }
  }

  /** `s.includes(sub)`. */
  predicate IsInfix(sub: string, s: string) {
    exists k :: 0 <= k <= |s| - |sub| && InfixAt(sub, s, k)
  }

  /** `s.endsWith(suffix)`. */
  predicate EndsWith(s: string, suffix: string) {
    |suffix| <= |s| && s[|s| - |suffix|..] == suffix
  }

  /** A text that starts like its first part and ends like its last part. */
  lemma Framed(pre: string, a: string, m: string, z: string, suf: string)
    requires pre <= a && EndsWith(z, suf)
    ensures pre <= a + (m + z) && EndsWith(a + (m + z), suf)
  {
    var x := a + (m + z);
    assert x[..|a|] == a;
    assert x[|a| + |m|..] == z;
    assert x[|x| - |suf|..] == z[|z| - |suf|..];
  }

  /** `sub` occurs in `s` at offset `k`. */
  predicate InfixAt(sub: string, s: string, k: int) {
    0 <= k <= |s| - |sub| && s[k..k + |sub|] == sub
  }

  lemma InfixOf(a: string, sub: string, b: string)
    ensures IsInfix(sub, a + sub + b)
  {
    var s := a + sub + b;
    assert InfixAt(sub, s, |a|);
  }

  /** The second and fourth of five concatenated strings occur in the whole. */
  lemma InfixOfFive(a: string, b: string, c: string, d: string, e: string)
    ensures IsInfix(b, a + b + c + d + e) && IsInfix(d, a + b + c + d + e)
  {
    var s := a + b + c + d + e;
    assert s[|a|..|a| + |b|] == b;
    assert InfixAt(b, s, |a|);
    assert s[|a| + |b| + |c|..|a| + |b| + |c| + |d|] == d;
    assert InfixAt(d, s, |a| + |b| + |c|);
  }

  /** The same, for the grouping a template of five pieces is filled in. */
  lemma InfixOfFiveNested(a: string, b: string, c: string, d: string, e: string)
    ensures IsInfix(b, a + (b + (c + d + e))) && IsInfix(d, a + (b + (c + d + e)))
  {
    var s := a + (b + (c + d + e));
    assert s[|a|..|a| + |b|] == b;
    assert InfixAt(b, s, |a|);
    assert s[|a| + |b| + |c|..|a| + |b| + |c| + |d|] == d;
    assert InfixAt(d, s, |a| + |b| + |c|);
  }

  lemma InfixTrans(x: string, y: string, z: string)
    requires IsInfix(x, y) && IsInfix(y, z)
    ensures IsInfix(x, z)
  {
    var k :| 0 <= k <= |y| - |x| && InfixAt(x, y, k);
    var m :| 0 <= m <= |z| - |y| && InfixAt(y, z, m);
    assert z[m..m + |y|] == y;
    forall i | 0 <= i < |x| ensures z[m + k + i] == x[i] {
      assert y[k + i] == x[i];
      assert z[m..m + |y|][k + i] == z[m + k + i];
    }
    assert z[m + k..m + k + |x|] == x;
    assert InfixAt(x, z, m + k);
  }

  /** Concatenation of a list of strings (`parts.join('')`). */
  function Concat(parts: seq<string>): (r: string)
    ensures parts == [] ==> r == ""
  {
    if parts == [] then "" else parts[0] + Concat(parts[1..])
  }

  lemma {:induction false} ConcatAppend(a: seq<string>, b: seq<string>)
    ensures Concat(a + b) == Concat(a) + Concat(b)
    decreases |a|
  {
    if a == [] {
      assert a + b == b;
    } else {
      assert (a + b)[0] == a[0] && (a + b)[1..] == a[1..] + b;
      ConcatAppend(a[1..], b);
    }
  }

  /** `parts.join(sep)`. */
  function Join(parts: seq<string>, sep: string): (r: string)
    ensures |parts| == 1 ==> r == parts[0]
  {
    if parts == [] then "" else if |parts| == 1 then parts[0] else parts[0] + sep + Join(parts[1..], sep)
  }

  lemma {:induction false} JoinEnds(parts: seq<string>, sep: string)
    requires |parts| >= 2
    ensures parts[0] + sep <= Join(parts, sep)
    ensures EndsWith(Join(parts, sep), sep + parts[|parts| - 1])
    decreases |parts|
  {
    var j := Join(parts, sep);
    if |parts| == 2 {
      assert j == parts[0] + sep + parts[1];
    } else {
      JoinEnds(parts[1..], sep);
      var t := Join(parts[1..], sep);
      var pre := parts[0] + sep;
      assert j == pre + t;
      assert j[|j| - |sep + parts[|parts| - 1]|..] == t[|t| - |sep + parts[|parts| - 1]|..];
    }
  }

  /** `s.split(c)` for a one-character separator. */
  function Split(s: string, c: char): (parts: seq<string>)
    ensures |parts| >= 1
  {
    if s == [] then [""]
    else
      var rest := Split(s[1..], c);
      if s[0] == c then [""] + rest else [[s[0]] + rest[0]] + rest[1..]
  }

  /** No part holds the separator, and there is one more part than occurrences of it. */
  lemma {:induction false} SplitParts(s: string, c: char)
    ensures forall i :: 0 <= i < |Split(s, c)| ==> c !in Split(s, c)[i]
    ensures |Split(s, c)| == Count(s, c) + 1
    decreases |s|
  {
    if s != [] {
      SplitParts(s[1..], c);
      assert s == [s[0]] + s[1..];
      CountAppend([s[0]], s[1..], c);
    }
  }

  /** Joining the parts of a split with the separator gives back the string. */
  lemma {:induction false} JoinSplit(s: string, c: char)
    ensures Join(Split(s, c), [c]) == s
    decreases |s|
  {
    if s != [] {
      JoinSplit(s[1..], c);
      var rest := Split(s[1..], c);
      if s[0] == c {
        assert Split(s, c)[1..] == rest;
      } else {
        var parts := Split(s, c);
        if |rest| == 1 {
          assert parts == [[s[0]] + rest[0]];
        } else {
          assert parts[1..] == rest[1..];
          assert Join(rest, [c]) == rest[0] + [c] + Join(rest[1..], [c]);
        }
      }
    }
  }

  /** Splitting a join recovers the parts when no part contains the separator. */
  lemma {:induction false} SplitJoin(parts: seq<string>, c: char)
    requires |parts| >= 1
    requires forall i :: 0 <= i < |parts| ==> c !in parts[i]
    ensures Split(Join(parts, [c]), c) == parts
    decreases |parts|, |parts[0]|
  {
    if |parts| == 1 {
      SplitNoSep(parts[0], c);
    } else if parts[0] == [] {
      SplitJoin(parts[1..], c);
      var j := Join(parts, [c]);
      assert j == [c] + Join(parts[1..], [c]);
      assert j[1..] == Join(parts[1..], [c]);
    } else {
      var p0 := parts[0];
      var shorter := [p0[1..]] + parts[1..];
      SplitJoin(shorter, c);
      var j := Join(parts, [c]);
      assert j == p0 + [c] + Join(parts[1..], [c]);
      assert j[1..] == Join(shorter, [c]);
      assert p0 == [p0[0]] + p0[1..];
    }
  }

  /** Splitting at one occurrence of the separator splits both sides independently. */
  lemma {:induction false} SplitAround(a: string, b: string, c: char)
    ensures Split(a + [c] + b, c) == Split(a, c) + Split(b, c)
    decreases |a|
  {
    if a == [] {
      assert a + [c] + b == [c] + b;
      SplitCons(c, b, c);
    } else {
      SplitAround(a[1..], b, c);
      SplitAroundStep(a, b, c);
    }
  }

  /** The induction step of `SplitAround`: the first character of `a` is put back in front. */
  lemma SplitAroundStep(a: string, b: string, c: char)
    requires a != []
    requires Split(a[1..] + [c] + b, c) == Split(a[1..], c) + Split(b, c)
    ensures Split(a + [c] + b, c) == Split(a, c) + Split(b, c)
  {
    var x, rest := a[0], a[1..];
    var t := rest + [c] + b;
    assert a + [c] + b == [x] + t;
    assert a == [x] + rest;
    if x == c {
      SplitStepSep(x, t, rest, Split(b, c), c);
    } else {
      SplitStepOther(x, t, rest, Split(b, c), c);
    }
  }

  lemma SplitStepSep(x: char, t: string, rest: string, rb: seq<string>, c: char)
    requires x == c
    requires Split(t, c) == Split(rest, c) + rb
    ensures Split([x] + t, c) == Split([x] + rest, c) + rb
  {
    SplitCons(x, t, c);
    SplitCons(x, rest, c);
  }

  lemma SplitStepOther(x: char, t: string, rest: string, rb: seq<string>, c: char)
    requires x != c
    requires Split(t, c) == Split(rest, c) + rb
    ensures Split([x] + t, c) == Split([x] + rest, c) + rb
  {
    var ra := Split(rest, c);
    var h := [x] + ra[0];
    assert Split([x] + t, c) == [h] + (ra[1..] + rb) by {
      var rt := Split(t, c);
      assert rt[0] == ra[0] && rt[1..] == ra[1..] + rb;
      SplitCons(x, t, c);
    }
    assert Split([x] + rest, c) == [h] + ra[1..] by {
      SplitCons(x, rest, c);
    }
    assert [h] + (ra[1..] + rb) == [h] + ra[1..] + rb;
  }

  /** Splitting a string one character longer at the front. */
  lemma SplitCons(x: char, t: string, c: char)
    ensures x == c ==> Split([x] + t, c) == [""] + Split(t, c)
    ensures x != c ==> Split([x] + t, c) == [[x] + Split(t, c)[0]] + Split(t, c)[1..]
  {
    assert ([x] + t)[0] == x && ([x] + t)[1..] == t;
  }

  lemma {:induction false} SplitNoSep(s: string, c: char)
    requires c !in s
    ensures Split(s, c) == [s]
    decreases |s|
  {
    if s != [] {
      SplitNoSep(s[1..], c);
      assert [s[0]] + s[1..] == s;
    }
  }

  predicate IsDigit(c: char) {
    '0' <= c <= '9'
  }

  function DigitChar(d: nat): (c: char)
    requires d < 10
    ensures IsDigit(c)
  {
    "0123456789"[d]
  }

  /** `String(n)` for a non-negative integer: its decimal digits, without leading zeros. */
  function NatToString(n: nat): (r: string)
    ensures r != []
    ensures forall i :: 0 <= i < |r| ==> IsDigit(r[i])
    ensures |r| > 1 ==> r[0] != '0'
  {
    if n < 10 then [DigitChar(n)] else NatToString(n / 10) + [DigitChar(n % 10)]
  }

  function LowerChar(c: char): (d: char)
    ensures 'A' <= c <= 'Z' ==> 'a' <= d <= 'z'
    ensures !('A' <= d <= 'Z')
  {
    if 'A' <= c <= 'Z' then (c as int + 32) as char else c
  }

  function UpperChar(c: char): (d: char)
    ensures 'a' <= c <= 'z' ==> 'A' <= d <= 'Z'
    ensures !('a' <= d <= 'z')
  {
    if 'a' <= c <= 'z' then (c as int - 32) as char else c
  }

  /** `toLowerCase` over the ASCII letters. */
  function ToLower(s: string): (r: string)
    ensures |r| == |s|
    ensures forall i :: 0 <= i < |s| ==> r[i] == LowerChar(s[i])
  {
    seq(|s|, i requires 0 <= i < |s| => LowerChar(s[i]))
  }

  /** `toUpperCase` over the ASCII letters. */
  function ToUpper(s: string): (r: string)
    ensures |r| == |s|
    ensures forall i :: 0 <= i < |s| ==> r[i] == UpperChar(s[i])
  {
    seq(|s|, i requires 0 <= i < |s| => UpperChar(s[i]))
  }

  /** `s.slice(0, n)`. */
  function Take(s: string, n: nat): (r: string)
    ensures |r| <= n && r <= s
    ensures |s| <= n ==> r == s
  {
    if |s| <= n then s else s[..n]
  }

  // ---------------------------------------------------------------------------
  // Lists assembled from sections; `filter(Boolean)` on optional strings
  // ---------------------------------------------------------------------------

  /** A list assembled from consecutive sections. */
  function Flatten<T>(sections: seq<seq<T>>): (r: seq<T>)
    ensures sections == [] ==> r == []
  {
    if sections == [] then [] else sections[0] + Flatten(sections[1..])
  }

  lemma {:induction false} FlattenSplit<T>(xs: seq<seq<T>>, i: nat)
    requires i < |xs|
    ensures Flatten(xs) == Flatten(xs[..i]) + xs[i] + Flatten(xs[i + 1..])
    decreases i
  {
    if i == 0 {
      assert xs[..0] == [];
    } else {
      FlattenSplit(xs[1..], i - 1);
      assert xs[1..][..i - 1] == xs[1..i];
      assert xs[1..][i - 1] == xs[i];
      assert xs[1..][i..] == xs[i + 1..];
      assert xs[..i][0] == xs[0] && xs[..i][1..] == xs[1..i];
    }
  }

  /** Emptying section `i` removes exactly its elements, at one position of the list. */
  lemma FlattenWithout<T>(xs: seq<seq<T>>, i: nat) returns (a: seq<T>, b: seq<T>)
    requires i < |xs|
    ensures Flatten(xs) == a + xs[i] + b
    ensures Flatten(xs[i := []]) == a + b
  {
    var ys := xs[i := []];
    FlattenSplit(xs, i);
    FlattenSplit(ys, i);
    assert ys[..i] == xs[..i] && ys[i + 1..] == xs[i + 1..];
    a, b := Flatten(xs[..i]), Flatten(xs[i + 1..]);
    assert Flatten(ys) == a + [] + b;
  }

  /** `list.filter(Boolean)` on a list of strings and `undefined`s: keeps the non-empty strings, in order. */
  function Compact(xs: seq<Option<string>>): (r: seq<string>)
    ensures |r| <= |xs|
  {
    if xs == [] then []
    else (if Truthy(xs[0]) then [xs[0].value] else []) + Compact(xs[1..])
  }

  /** No kept line is empty. */
  lemma {:induction false} CompactNoEmpty(xs: seq<Option<string>>)
    ensures "" !in Compact(xs)
    decreases |xs|
  {
    if xs != [] {
      CompactNoEmpty(xs[1..]);
    }
  }

  lemma {:induction false} CompactAppend(a: seq<Option<string>>, b: seq<Option<string>>)
    ensures Compact(a + b) == Compact(a) + Compact(b)
    decreases |a|
  {
    if a == [] {
      assert a + b == b;
    } else {
      CompactAppend(a[1..], b);
      var h := if Truthy(a[0]) then [a[0].value] else [];
      assert Compact(a + b) == h + Compact(a[1..] + b) by {
        assert (a + b)[0] == a[0] && (a + b)[1..] == a[1..] + b;
      }
      assert h + (Compact(a[1..]) + Compact(b)) == h + Compact(a[1..]) + Compact(b);
    }
  }

  /** Filtering a list assembled from sections: emptying section `i` removes its kept lines at one position. */
  lemma CompactWithout(xs: seq<seq<Option<string>>>, i: nat) returns (k: nat)
    requires i < |xs|
    ensures var base := Compact(Flatten(xs[i := []]));
      && k <= |base|
      && Compact(Flatten(xs)) == base[..k] + Compact(xs[i]) + base[k..]
  {
    var a, b := FlattenWithout(xs, i);
    CompactAppend(a + xs[i], b);
    CompactAppend(a, xs[i]);
    CompactAppend(a, b);
    k := |Compact(a)|;
    var base := Compact(a) + Compact(b);
    assert base[..k] == Compact(a) && base[k..] == Compact(b);
  }

  /** A list with only its `undefined`s removed: what `filter(Boolean)` would give if empty strings were kept. */
  function Defined(xs: seq<Option<string>>): (r: seq<string>)
    ensures |r| <= |xs|
  {
    if xs == [] then []
    else (if xs[0].Some? then [xs[0].value] else []) + Defined(xs[1..])
  }

  lemma {:induction false} DefinedAppend(a: seq<Option<string>>, b: seq<Option<string>>)
    ensures Defined(a + b) == Defined(a) + Defined(b)
    decreases |a|
  {
    if a == [] {
      assert a + b == b;
    } else {
      assert (a + b)[0] == a[0] && (a + b)[1..] == a[1..] + b;
      DefinedAppend(a[1..], b);
    }
  }

  lemma CompactOne(x: Option<string>)
    ensures Compact([x]) == if Truthy(x) then [x.value] else []
  {
    assert [x][1..] == [];
  }

  lemma CompactThree(a: Option<string>, b: Option<string>, c: Option<string>)
    ensures Compact([a, b, c]) == Compact([a]) + Compact([b]) + Compact([c])
  {
    assert [a, b, c] == [a] + [b, c] && [b, c] == [b] + [c];
    CompactAppend([a], [b, c]);
    CompactAppend([b], [c]);
  }

  lemma CompactFlattenCons(xs: seq<seq<Option<string>>>)
    requires xs != []
    ensures Compact(Flatten(xs)) == Compact(xs[0]) + Compact(Flatten(xs[1..]))
  {
    CompactAppend(xs[0], Flatten(xs[1..]));
  }

  lemma FlattenLast<T>(xs: seq<seq<T>>)
    requires xs != []
    ensures Flatten(xs) == Flatten(xs[..|xs| - 1]) + xs[|xs| - 1]
  {
    var n := |xs| - 1;
    FlattenSplit(xs, n);
    assert xs[n + 1..] == [];
    var e := Flatten(xs[n + 1..]);
    assert e == [];
    assert Flatten(xs[..n]) + xs[n] + e == Flatten(xs[..n]) + xs[n];
  }

  /** The kept lines of the first section, then of the middle ones, then of the last. */
  lemma CompactFlattenEnds(xs: seq<seq<Option<string>>>)
    requires |xs| >= 2
    ensures Compact(Flatten(xs)) == Compact(xs[0]) + (Compact(Flatten(xs[1..|xs| - 1])) + Compact(xs[|xs| - 1]))
  {
    var n := |xs| - 1;
    var first, mid, last := xs[0], Flatten(xs[1..n]), xs[n];
    assert Flatten(xs) == first + (mid + last) by {
      var ys := xs[1..];
      FlattenLast(ys);
      assert ys[..n - 1] == xs[1..n];
      assert ys[n - 1] == xs[n];
    }
    CompactAppend(first, mid + last);
    CompactAppend(mid, last);
  }

  /** The kept lines of the first four sections, then of the rest. */
  lemma CompactFlattenFour(xs: seq<seq<Option<string>>>)
    requires |xs| >= 4
    ensures Compact(Flatten(xs))
      == Compact(xs[0]) + (Compact(xs[1]) + (Compact(xs[2]) + (Compact(xs[3]) + Compact(Flatten(xs[4..])))))
  {
    assert xs[1..][0] == xs[1] && xs[1..][1..] == xs[2..];
    assert xs[2..][0] == xs[2] && xs[2..][1..] == xs[3..];
    assert xs[3..][0] == xs[3] && xs[3..][1..] == xs[4..];
    CompactFlattenCons(xs);
    CompactFlattenCons(xs[1..]);
    CompactFlattenCons(xs[2..]);
    CompactFlattenCons(xs[3..]);
  }

  lemma DefinedFlattenFour(xs: seq<seq<Option<string>>>)
    requires |xs| >= 4
    ensures Defined(Flatten(xs))
      == Defined(xs[0]) + (Defined(xs[1]) + (Defined(xs[2]) + (Defined(xs[3]) + Defined(Flatten(xs[4..])))))
  {
    assert xs[1..][0] == xs[1] && xs[1..][1..] == xs[2..];
    assert xs[2..][0] == xs[2] && xs[2..][1..] == xs[3..];
    assert xs[3..][0] == xs[3] && xs[3..][1..] == xs[4..];
    DefinedFlattenCons(xs);
    DefinedFlattenCons(xs[1..]);
    DefinedFlattenCons(xs[2..]);
    DefinedFlattenCons(xs[3..]);
  }

  lemma DefinedOne(x: Option<string>)
    ensures Defined([x]) == if x.Some? then [x.value] else []
  {
    assert [x][1..] == [];
  }

  lemma DefinedFlattenCons(xs: seq<seq<Option<string>>>)
    requires xs != []
    ensures Defined(Flatten(xs)) == Defined(xs[0]) + Defined(Flatten(xs[1..]))
  {
    DefinedAppend(xs[0], Flatten(xs[1..]));
  }

  /** Replacing a slot by one with no kept line leaves the kept lines of the others. */
  lemma CompactReplace(xs: seq<seq<Option<string>>>, i: nat, z: seq<Option<string>>) returns (k: nat)
    requires i < |xs| && Compact(z) == []
    ensures var base := Compact(Flatten(xs[i := z]));
      && k <= |base|
      && Compact(Flatten(xs)) == base[..k] + Compact(xs[i]) + base[k..]
  {
    var ys := xs[i := z];
    assert ys[i := []] == xs[i := []];
    var base := Compact(Flatten(xs[i := []]));
    k := CompactWithout(xs, i);
    var k' := CompactWithout(ys, i);
    assert ys[i] == z;
    assert Compact(Flatten(ys)) == base[..k'] + [] + base[k'..] == base;
  }

  /** `filter(Boolean)` keeps every non-empty string of the list. */
  lemma {:induction false} CompactKeeps(xs: seq<Option<string>>, i: nat)
    requires i < |xs| && Truthy(xs[i])
    ensures xs[i].value in Compact(xs)
    decreases i
  {
    if i > 0 {
      assert xs[1..][i - 1] == xs[i];
      CompactKeeps(xs[1..], i - 1);
    }
  }

  /** An element of a section is an element of the assembled list. */
  lemma FlattenHas<T>(xs: seq<seq<T>>, i: nat, j: nat)
    requires i < |xs| && j < |xs[i]|
    ensures xs[i][j] in Flatten(xs)
  {
    FlattenSplit(xs, i);
    var f := Flatten(xs);
    assert f[|Flatten(xs[..i])| + j] == xs[i][j];
  }
}
