/**
 * A template literal as a list of pieces: static text, and interpolated
 * values that the template passes through an encoder (an HTML escaper, or
 * nothing at all) before they reach the output.
 */
module Template {
  import opened Text

  datatype Piece = Lit(text: string) | Value(text: string)

  /** The text one piece contributes. */
  function Emit(p: Piece, enc: string -> string): string {
    match p
    case Lit(t) => t
    case Value(v) => enc(v)
  }

  /** The string a template literal evaluates to when its values are encoded by `enc`. */
  function Fill(ps: seq<Piece>, enc: string -> string): (r: string)
    ensures ps == [] ==> r == ""
  {
    if ps == [] then "" else Emit(ps[0], enc) + Fill(ps[1..], enc)
  }

  /** A template of two pieces, written out. */
  lemma FillTwo(x: Piece, y: Piece, enc: string -> string)
    ensures Fill([x, y], enc) == Emit(x, enc) + Emit(y, enc)
  {
    assert [x, y][1..] == [y];
    assert Fill([y], enc) == Emit(y, enc) by {
      assert [y][1..] == [];
    }
  }

  /** A template of three pieces, written out. */
  lemma FillThree(x: Piece, y: Piece, z: Piece, enc: string -> string)
    ensures Fill([x, y, z], enc) == Emit(x, enc) + Emit(y, enc) + Emit(z, enc)
  {
    assert [x, y, z][1..] == [y, z];
    assert [y, z][1..] == [z];
    assert Fill([z], enc) == Emit(z, enc) by {
      assert [z][1..] == [];
    }
  }

  /** A template of five pieces, written out. */
  lemma FillFive(a: Piece, b: Piece, c: Piece, d: Piece, e: Piece, enc: string -> string)
    ensures Fill([a, b, c, d, e], enc) == Emit(a, enc) + (Emit(b, enc) + (Emit(c, enc) + Emit(d, enc) + Emit(e, enc)))
  {
    assert [a, b, c, d, e][1..] == [b, c, d, e];
    assert [b, c, d, e][1..] == [c, d, e];
    FillThree(c, d, e, enc);
  }

  lemma {:induction false} FillAppend(a: seq<Piece>, b: seq<Piece>, enc: string -> string)
    ensures Fill(a + b, enc) == Fill(a, enc) + Fill(b, enc)
    decreases |a|
  {
    if a == [] {
      assert a + b == b;
    } else {
      assert (a + b)[0] == a[0] && (a + b)[1..] == a[1..] + b;
      FillAppend(a[1..], b, enc);
    }
  }

  lemma FillAppend3(a: seq<Piece>, m: seq<Piece>, b: seq<Piece>, enc: string -> string)
    ensures Fill(a + m + b, enc) == Fill(a, enc) + Fill(m, enc) + Fill(b, enc)
  {
    FillAppend(a + m, b, enc);
    FillAppend(a, m, enc);
  }

  /** Whatever is rendered from a middle stretch of the template occurs in the output. */
  lemma FillInfix(a: seq<Piece>, m: seq<Piece>, b: seq<Piece>, enc: string -> string)
    ensures IsInfix(Fill(m, enc), Fill(a + m + b, enc))
  {
    FillAppend3(a, m, b, enc);
    InfixOf(Fill(a, enc), Fill(m, enc), Fill(b, enc));
  }

  /** Inserting pieces into a template inserts their text at one offset of the output. */
  lemma FillInsert(a: seq<Piece>, m: seq<Piece>, b: seq<Piece>, enc: string -> string) returns (k: nat)
    ensures k <= |Fill(a + b, enc)|
    ensures Fill(a + m + b, enc) == Fill(a + b, enc)[..k] + Fill(m, enc) + Fill(a + b, enc)[k..]
  {
    FillAppend3(a, m, b, enc);
    FillAppend(a, b, enc);
    k := |Fill(a, enc)|;
    var base := Fill(a, enc) + Fill(b, enc);
    assert base[..k] == Fill(a, enc);
    assert base[k..] == Fill(b, enc);
  }

  /**
   * The text of a section occurs in the text of the whole template, at the
   * offset where the template without that section has nothing.
   */
  lemma SectionInsert(xs: seq<seq<Piece>>, i: nat, enc: string -> string) returns (k: nat)
    requires i < |xs|
    ensures var base := Fill(Flatten(xs[i := []]), enc);
      && k <= |base|
      && Fill(Flatten(xs), enc) == base[..k] + Fill(xs[i], enc) + base[k..]
  {
    var a, b := FlattenWithout(xs, i);
    k := FillInsert(a, xs[i], b, enc);
  }

  lemma SectionInfix(xs: seq<seq<Piece>>, i: nat, enc: string -> string)
    requires i < |xs|
    ensures IsInfix(Fill(xs[i], enc), Fill(Flatten(xs), enc))
  {
    FlattenSplit(xs, i);
    FillInfix(Flatten(xs[..i]), xs[i], Flatten(xs[i + 1..]), enc);
  }

  /** The text of the first section, then of the middle ones, then of the last. */
  lemma FillFlattenEnds(xs: seq<seq<Piece>>, enc: string -> string)
    requires |xs| >= 2
    ensures Fill(Flatten(xs), enc) == Fill(xs[0], enc) + (Fill(Flatten(xs[1..|xs| - 1]), enc) + Fill(xs[|xs| - 1], enc))
  {
    var n := |xs| - 1;
    var first, mid, last := xs[0], Flatten(xs[1..n]), xs[n];
    assert Flatten(xs) == first + (mid + last) by {
      var ys := xs[1..];
      FlattenLast(ys);
      assert ys[..n - 1] == xs[1..n];
      assert ys[n - 1] == xs[n];
    }
    FillAppend(first, mid + last, enc);
    FillAppend(mid, last, enc);
  }

  function Blank(p: Piece): Piece {
    if p.Lit? then p else Value("")
  }

  /** The template with every interpolated value blanked out: its static part. */
  function Skeleton(ps: seq<Piece>): (r: seq<Piece>)
    ensures |r| == |ps|
    ensures forall i :: 0 <= i < |ps| ==> r[i] == Blank(ps[i])
  {
    seq(|ps|, i requires 0 <= i < |ps| => Blank(ps[i]))
  }

  lemma SkeletonAppend(a: seq<Piece>, b: seq<Piece>)
    ensures Skeleton(a + b) == Skeleton(a) + Skeleton(b)
  {
  }

  /** A value between two static pieces: its static part does not depend on the value. */
  lemma SkeletonOfThree(a: string, v1: string, v2: string, b: string)
    ensures Skeleton([Lit(a), Value(v1), Lit(b)]) == Skeleton([Lit(a), Value(v2), Lit(b)])
  {
    var s1, s2 := Skeleton([Lit(a), Value(v1), Lit(b)]), Skeleton([Lit(a), Value(v2), Lit(b)]);
    assert s1 == [Lit(a), Value(""), Lit(b)];
    assert s2 == [Lit(a), Value(""), Lit(b)];
  }

  /** Templates assembled from sections with the same static parts have the same static part. */
  lemma {:induction false} FlattenSkeleton(xs: seq<seq<Piece>>, ys: seq<seq<Piece>>)
    requires |xs| == |ys|
    requires forall i :: 0 <= i < |xs| ==> Skeleton(xs[i]) == Skeleton(ys[i])
    ensures Skeleton(Flatten(xs)) == Skeleton(Flatten(ys))
    decreases |xs|
  {
    if xs != [] {
      FlattenSkeleton(xs[1..], ys[1..]);
      SkeletonAppend(xs[0], Flatten(xs[1..]));
      SkeletonAppend(ys[0], Flatten(ys[1..]));
    }
  }

  /**
   * When the encoder never produces `c`, the occurrences of `c` in the output
   * are exactly those of the static text: interpolated values add none.
   */
  lemma {:induction false} EncodedValuesAddNothing(ps: seq<Piece>, enc: string -> string, c: char)
    requires forall s :: c !in enc(s)
    ensures Count(Fill(ps, enc), c) == Count(Fill(Skeleton(ps), enc), c)
    decreases |ps|
  {
    if ps != [] {
      var sk := Skeleton(ps);
      assert sk[0] == Blank(ps[0]) && sk[1..] == Skeleton(ps[1..]);
      EncodedValuesAddNothing(ps[1..], enc, c);
      CountAppend(Emit(ps[0], enc), Fill(ps[1..], enc), c);
      CountAppend(Emit(sk[0], enc), Fill(sk[1..], enc), c);
      if ps[0].Value? {
        assert c !in enc(ps[0].text) && c !in enc("");
      }
    }
  }

  /** Two templates with the same static part produce the same number of `c` when `enc` never produces `c`. */
  lemma SameSkeletonSameCount(ps1: seq<Piece>, ps2: seq<Piece>, enc: string -> string, c: char)
    requires Skeleton(ps1) == Skeleton(ps2)
    requires forall s :: c !in enc(s)
    ensures Count(Fill(ps1, enc), c) == Count(Fill(ps2, enc), c)
  {
    EncodedValuesAddNothing(ps1, enc, c);
    EncodedValuesAddNothing(ps2, enc, c);
  }
}
