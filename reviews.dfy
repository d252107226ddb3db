/** The avatar initials on a review card. */
module Reviews {
  import opened Text

  /** `parts.map(p => p[0]).join('')`: the first character of every part; an empty part gives `undefined`, which joins as nothing. */
  function Heads(parts: seq<string>): (r: string)
    ensures |r| <= |parts|
    ensures forall i :: 0 <= i < |parts| && parts[i] != [] ==> parts[i][0] in r
  {
    if parts == [] then ""
    else (if parts[0] == [] then "" else [parts[0][0]]) + Heads(parts[1..])
  }

  /** The words among the parts: the non-empty ones, in order. */
  function Words(parts: seq<string>): (w: seq<string>)
    ensures |w| <= |parts|
    ensures forall i :: 0 <= i < |w| ==> w[i] != [] && w[i] in parts
    ensures forall x :: x in parts && x != [] ==> x in w
  {
    if parts == [] then []
    else (if parts[0] == [] then [] else [parts[0]]) + Words(parts[1..])
  }

  /** The heads are exactly one letter per word, in the order of the words. */
  lemma {:induction false} HeadsOfWords(parts: seq<string>)
    ensures |Heads(parts)| == |Words(parts)|
    ensures forall i :: 0 <= i < |Words(parts)| ==> Heads(parts)[i] == Words(parts)[i][0]
    decreases |parts|
  {
    if parts != [] {
      HeadsOfWords(parts[1..]);
      if parts[0] != [] {
        assert Heads(parts) == [parts[0][0]] + Heads(parts[1..]);
        assert Words(parts) == [parts[0]] + Words(parts[1..]);
        FirstLettersCons(parts[0], Heads(parts[1..]), Words(parts[1..]));
      } else {
        assert Heads(parts) == Heads(parts[1..]) && Words(parts) == Words(parts[1..]);
      }
    }
  }

  lemma FirstLettersCons(x: string, h: string, w: seq<string>)
    requires x != [] && |h| == |w|
    requires forall i :: 0 <= i < |w| ==> w[i] != [] && h[i] == w[i][0]
    ensures forall i :: 0 <= i < |w| + 1 ==> ([x[0]] + h)[i] == ([x] + w)[i][0]
  {
    forall i | 1 <= i < |w| + 1
      ensures ([x[0]] + h)[i] == ([x] + w)[i][0]
    {
      assert ([x[0]] + h)[i] == h[i - 1] && ([x] + w)[i] == w[i - 1];
    }
  }

  lemma {:induction false} HeadsAppend(a: seq<string>, b: seq<string>)
    ensures Heads(a + b) == Heads(a) + Heads(b)
    decreases |a|
  {
    if a != [] {
      assert (a + b)[1..] == a[1..] + b;
      HeadsAppend(a[1..], b);
    } else {
      assert a + b == b;
    }
  }

  /** `initials(fullName)`. */
  function Initials(fullName: string): (r: string)
    ensures |r| <= 2
  {
    ToUpper(Take(Heads(Split(fullName, ' ')), 2))
  }

  /** A name of two words gives the upper-cased first letter of each. */
  lemma TwoWords(first: string, last: string)
    requires first != [] && last != []
    requires ' ' !in first && ' ' !in last
    ensures Initials(first + " " + last) == [UpperChar(first[0]), UpperChar(last[0])]
  {
    SplitAround(first, last, ' ');
    assert first + [' '] + last == first + " " + last;
    SplitNoSep(first, ' ');
    SplitNoSep(last, ' ');
    var parts := [first] + [last];
    assert Heads(parts) == [first[0], last[0]] by {
      HeadsAppend([first], [last]);
      assert [first][1..] == [] && [last][1..] == [];
    }
  }

  lemma SplitDoubled(x: string, y: string, c: char)
    ensures Split(x + [c, c] + y, c) == Split(x, c) + ([""] + Split(y, c))
  {
    var xc := x + [c];
    assert x + [c, c] + y == xc + [c] + y;
    assert Split(xc + [c] + y, c) == Split(xc, c) + Split(y, c) by {
      SplitAround(xc, y, c);
    }
    assert Split(xc, c) == Split(x, c) + [""] by {
      SplitAround(x, [], c);
      assert x + [c] + [] == xc;
    }
  }

  /** A doubled space between two words makes an empty part, which adds nothing to the initials. */
  lemma DoubleSpaceIgnored(x: string, y: string)
    ensures Initials(x + "  " + y) == Initials(x + " " + y)
  {
    SpaceSplits(x, y);
    HeadsSkipEmpty(Split(x, ' '), Split(y, ' '));
  }

  lemma SpaceSplits(x: string, y: string)
    ensures Split(x + "  " + y, ' ') == Split(x, ' ') + ([""] + Split(y, ' '))
    ensures Split(x + " " + y, ' ') == Split(x, ' ') + Split(y, ' ')
  {
    var c := ' ';
    assert x + "  " + y == x + [c, c] + y;
    SplitDoubled(x, y, c);
    assert x + " " + y == x + [c] + y;
    SplitAround(x, y, c);
  }

  /** An empty part adds nothing to the heads. */
  lemma HeadsSkipEmpty(a: seq<string>, b: seq<string>)
    ensures Heads(a + ([""] + b)) == Heads(a + b)
  {
    HeadsAppend(a, [""] + b);
    HeadsAppend([""], b);
    assert [""][1..] == [];
    HeadsAppend(a, b);
  }

  /** A name of one word, or of more, starts with the upper-cased first letter of its first word. */
  lemma AtMostTwoWords(first: string, rest: string)
    requires first != [] && ' ' !in first
    ensures |Initials(first + " " + rest)| >= 1 && Initials(first + " " + rest)[0] == UpperChar(first[0])
  {
    SplitAround(first, rest, ' ');
    assert first + [' '] + rest == first + " " + rest;
    SplitNoSep(first, ' ');
    HeadsAppend([first], Split(rest, ' '));
    assert Heads([first]) == [first[0]] by {
      assert [first][1..] == [];
    }
  }

  /** Only the first two words count: whatever follows them, the initials are theirs. */
  lemma FirstTwoWords(first: string, second: string, rest: string)
    requires first != [] && second != []
    requires ' ' !in first && ' ' !in second
    ensures Initials(first + " " + second + " " + rest) == [UpperChar(first[0]), UpperChar(second[0])]
  {
    var parts := [first] + ([second] + Split(rest, ' '));
    SplitTwoWords(first, second, rest);
    HeadsTwoWords(first, second, Split(rest, ' '));
    assert Take(Heads(parts), 2) == [first[0], second[0]];
  }

  lemma SplitTwoWords(first: string, second: string, rest: string)
    requires ' ' !in first && ' ' !in second
    ensures Split(first + " " + second + " " + rest, ' ') == [first] + ([second] + Split(rest, ' '))
  {
    var tail := second + [' '] + rest;
    assert first + " " + second + " " + rest == first + [' '] + tail;
    SplitAround(first, tail, ' ');
    SplitAround(second, rest, ' ');
    SplitNoSep(first, ' ');
    SplitNoSep(second, ' ');
  }

  lemma HeadsTwoWords(first: string, second: string, more: seq<string>)
    requires first != [] && second != []
    ensures Heads([first] + ([second] + more)) == [first[0], second[0]] + Heads(more)
  {
    HeadsAppend([first], [second] + more);
    HeadsAppend([second], more);
    assert [first][1..] == [] && [second][1..] == [];
  }
}
