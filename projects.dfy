/**
 * The Projects gallery: normalisation of the translated project list, and
 * the modal viewer's state (`isOpen`, `activeProject`, `activeSlide`) with
 * its handlers: open, close, next/previous slide with wrap-around, the
 * keyboard shortcuts, the swipe rule and the thumbnail/dot buttons.
 */
module Projects {
  import opened Text

  datatype Slide = Slide(image: string, alt: Option<string>, caption: Option<string>)

  /** An entry of the translated `items` list. */
  datatype ProjectItem = ProjectItem(
    title: Option<string>,
    caption: string,
    desc: Option<string>,
    slides: Option<seq<Slide>>,
    tags: Option<seq<string>>)

  /** A normalised project, as the gallery renders it. */
  datatype Project = Project(title: string, caption: string, desc: string, slides: seq<Slide>, tags: seq<string>)

  /** The placeholder image of the project at index `i`. */
  function FallbackImage(i: nat): string {
    "https://picsum.photos/seed/project-" + NatToString(i) + "/1600/1200"
  }

  /** `v ?? d`. */
  function Coalesce<T>(v: Option<T>, d: T): (r: T)
    ensures v.Some? ==> r == v.value
    ensures v.None? ==> r == d
  {
    if v.Some? then v.value else d
  }

  /** The `projects` entry for `it` at index `i`. */
  function Normalize(it: ProjectItem, i: nat): (p: Project)
    ensures |p.slides| >= 1
    ensures it.slides.Some? && it.slides.value != [] ==> p.slides == it.slides.value
    ensures !(it.slides.Some? && it.slides.value != []) ==>
      p.slides == [Slide(FallbackImage(i), Some(it.caption), Some(it.caption))]
    ensures p.caption == it.caption
    ensures p.title == Coalesce(it.title, it.caption) && p.desc == Coalesce(it.desc, it.caption)
    ensures p.tags == Coalesce(it.tags, [])
  {
    var slides := if it.slides.Some? && it.slides.value != [] then it.slides.value
                  else [Slide(FallbackImage(i), Some(it.caption), Some(it.caption))];
    Project(Coalesce(it.title, it.caption), it.caption, Coalesce(it.desc, it.caption), slides, Coalesce(it.tags, []))
  }

  /** `items.map(normalise)`. */
  function NormalizeAll(items: seq<ProjectItem>): (ps: seq<Project>)
    ensures |ps| == |items|
    ensures forall i :: 0 <= i < |ps| ==> ps[i] == Normalize(items[i], i)
  {
    seq(|items|, i requires 0 <= i < |items| => Normalize(items[i], i))
  }

  /** Every project has a slide to show. */
  lemma EverySlideListNonEmpty(items: seq<ProjectItem>, i: nat)
    requires i < |items|
    ensures |NormalizeAll(items)[i].slides| >= 1
  {
  }

  // ---------------------------------------------------------------------------
  // Slide arithmetic
  // ---------------------------------------------------------------------------

  /** JavaScript `a % n` for `n > 0`: the remainder takes the sign of `a`. */
  function JsRem(a: int, n: int): (r: int)
    requires n > 0
    ensures a >= 0 ==> 0 <= r < n
    ensures a < 0 ==> -n < r <= 0
  {
    if a >= 0 then a % n else -((-a) % n)
  }

  /** `(s + 1) % total`. */
  function NextIndex(s: int, total: int): int
    requires total > 0
  {
    JsRem(s + 1, total)
  }

  /** `(s - 1 + total) % total`. */
  function PrevIndex(s: int, total: int): int
    requires total > 0
  {
    JsRem(s - 1 + total, total)
  }

  /** From a slide in range, next and previous stay in range and wrap around at the ends. */
  lemma StepsStayInRange(s: int, total: int)
    requires 0 <= s < total
    ensures 0 <= NextIndex(s, total) < total && 0 <= PrevIndex(s, total) < total
    ensures NextIndex(s, total) == if s == total - 1 then 0 else s + 1
    ensures PrevIndex(s, total) == if s == 0 then total - 1 else s - 1
  {
    if s == total - 1 {
      ModWrap(s + 1, total);
    } else {
      ModSmall(s + 1, total);
    }
    if s > 0 {
      ModWrap(s - 1 + total, total);
    } else {
      ModSmall(s - 1 + total, total);
    }
  }

  lemma ModSmall(a: int, n: int)
    requires 0 <= a < n
    ensures a % n == a
  {
  }

  lemma ModWrap(a: int, n: int)
    requires 0 < n <= a < 2 * n
    ensures a % n == a - n
  {
    var q, r := a / n, a % n;
    assert a == q * n + r && 0 <= r < n;
  }

  /** Previous undoes next, and next undoes previous. */
  lemma StepsInverse(s: int, total: int)
    requires 0 <= s < total
    ensures PrevIndex(NextIndex(s, total), total) == s
    ensures NextIndex(PrevIndex(s, total), total) == s
  {
    StepsStayInRange(s, total);
    StepsStayInRange(NextIndex(s, total), total);
    StepsStayInRange(PrevIndex(s, total), total);
  }

  // ---------------------------------------------------------------------------
  // The modal viewer
  // ---------------------------------------------------------------------------

  datatype Key = Escape | ArrowRight | ArrowLeft | Home | End | Tab | OtherKey

  class Gallery {
    const projects: seq<Project>
    var isOpen: bool
    var activeProject: Option<nat>
    var activeSlide: int

    /** The modal is open exactly when a project is chosen, and the slide index is one of its slides. */
    predicate Valid()
      reads this
    {
      && (forall i :: 0 <= i < |projects| ==> |projects[i].slides| >= 1)
      && (isOpen <==> activeProject.Some?)
      && (activeProject.Some? ==> activeProject.value < |projects|)
      && 0 <= activeSlide
      && (activeProject.Some? ==> activeSlide < |projects[activeProject.value].slides|)
    }

    /** The number of slides of the open project. */
    function Total(): (n: int)
      reads this
      requires Valid() && activeProject.Some?
      ensures n >= 1
    {
      |projects[activeProject.value].slides|
    }

    constructor (items: seq<ProjectItem>)
      ensures projects == NormalizeAll(items)
      ensures Valid() && !isOpen && activeProject == None && activeSlide == 0
    {
      projects := NormalizeAll(items);
      isOpen := false;
      activeProject := None;
      activeSlide := 0;
    }

    /** `openModal(i)`: choose project `i`, show its first slide, open. */
    method OpenModal(i: nat)
      requires Valid() && i < |projects|
      modifies this
      ensures Valid() && isOpen && activeProject == Some(i) && activeSlide == 0
    {
      activeProject := Some(i);
      activeSlide := 0;
      isOpen := true;
    }

    /** `closeModal()`: close and forget the project; the slide index is left as it was. */
    method CloseModal()
      requires Valid()
      modifies this
      ensures Valid() && !isOpen && activeProject == None && activeSlide == old(activeSlide)
    {
      isOpen := false;
      activeProject := None;
    }

    /** `nextSlide()`: the following slide, wrapping to the first; nothing without a project. */
    method NextSlide()
      requires Valid()
      modifies this
      ensures Valid() && isOpen == old(isOpen) && activeProject == old(activeProject)
      ensures old(activeProject).None? ==> activeSlide == old(activeSlide)
      ensures old(activeProject).Some? ==> activeSlide == NextIndex(old(activeSlide), Total())
    {
      if activeProject.None? {
        return;
      }
      var total := |projects[activeProject.value].slides|;
      StepsStayInRange(activeSlide, total);
      activeSlide := NextIndex(activeSlide, total);
    }

    /** `prevSlide()`: the preceding slide, wrapping to the last; nothing without a project. */
    method PrevSlide()
      requires Valid()
      modifies this
      ensures Valid() && isOpen == old(isOpen) && activeProject == old(activeProject)
      ensures old(activeProject).None? ==> activeSlide == old(activeSlide)
      ensures old(activeProject).Some? ==> activeSlide == PrevIndex(old(activeSlide), Total())
    {
      if activeProject.None? {
        return;
      }
      var total := |projects[activeProject.value].slides|;
      StepsStayInRange(activeSlide, total);
      activeSlide := PrevIndex(activeSlide, total);
    }

    /** A thumbnail or dot button: show slide `idx` of the open project. */
    method GoToSlide(idx: nat)
      requires Valid() && activeProject.Some? && idx < Total()
      modifies this
      ensures Valid() && isOpen && activeProject == old(activeProject) && activeSlide == idx
    {
      activeSlide := idx;
    }

    /** The document key handler, installed only while the modal is open. */
    method OnKey(k: Key)
      requires Valid()
      modifies this
      ensures Valid()
      ensures !old(isOpen) || k == Tab || k == OtherKey ==>
        isOpen == old(isOpen) && activeProject == old(activeProject) && activeSlide == old(activeSlide)
      ensures old(isOpen) && k == Escape ==> !isOpen && activeProject == None && activeSlide == old(activeSlide)
      ensures old(isOpen) && k == ArrowRight ==> activeProject == old(activeProject) && activeSlide == NextIndex(old(activeSlide), Total())
      ensures old(isOpen) && k == ArrowLeft ==> activeProject == old(activeProject) && activeSlide == PrevIndex(old(activeSlide), Total())
      ensures old(isOpen) && k == Home ==> isOpen && activeProject == old(activeProject) && activeSlide == 0
      ensures old(isOpen) && k == End ==> isOpen && activeProject == old(activeProject) && activeSlide == Total() - 1
    {
      if !isOpen {
        return;
      }
      match k {
        case Escape => CloseModal();
        case ArrowRight => NextSlide();
        case ArrowLeft => PrevSlide();
        case Home => activeSlide := 0;
        case End => activeSlide := |projects[activeProject.value].slides| - 1;
        case Tab =>
        case OtherKey =>
      }
    }

    /** `onPointerUp`: a horizontal swipe of more than 40 pixels; leftwards goes next, rightwards previous. */
    method OnPointerUp(delta: int)
      requires Valid()
      modifies this
      ensures Valid() && isOpen == old(isOpen) && activeProject == old(activeProject)
      ensures -40 <= delta <= 40 || old(activeProject).None? ==> activeSlide == old(activeSlide)
      ensures delta < -40 && old(activeProject).Some? ==> activeSlide == NextIndex(old(activeSlide), Total())
      ensures delta > 40 && old(activeProject).Some? ==> activeSlide == PrevIndex(old(activeSlide), Total())
    {
      if delta > 40 || delta < -40 {
        if delta < 0 {
          NextSlide();
        } else {
          PrevSlide();
        }
      }
    }
  }

  /** A swipe left and then a swipe right show the slide shown before them. */
  method SwipeThereAndBack(g: Gallery, delta: int)
    requires g.Valid() && g.isOpen && delta > 40
    modifies g
    ensures g.Valid() && g.activeSlide == old(g.activeSlide) && g.activeProject == old(g.activeProject)
  {
    var before := g.activeSlide;
    g.OnPointerUp(-delta);
    g.OnPointerUp(delta);
    StepsInverse(before, g.Total());
  }
}
