/**
 * Section navigation of the page shell (App.tsx, and app/page.tsx, whose
 * state and handlers are the same code line for line).
 *
 * The page is a horizontal scroll container of five viewport-wide sections.
 * The current section follows the scroll position; a horizontal touch swipe
 * scrolls to the neighbouring section; a navigation dot scrolls to its own
 * section; a label shows the section number. Scrolling itself is done by the
 * browser: the model returns the scroll offset a handler asks for.
 */
module Navigation {
  import opened JsMath
  import opened Optional
  import Viewport
  import Decimal

  /** `sections.length` */
  const SectionCount: int := 5
  /** A swipe must move more than this many pixels horizontally. */
  const SwipeThreshold: real := 50.0

  predicate InRange(section: int)
  {
    0 <= section < SectionCount
  }

  // ---------------------------------------------------------------------------
  // Scroll positions

  /**
   * The largest `scrollLeft` the browser allows: the content is
   * `SectionCount` viewport widths wide.
   */
  function MaxScrollLeft(innerWidth: nat): real
  {
    (SectionCount - 1) as real * innerWidth as real
  }

  /** `left: section * window.innerWidth`, the offset at which a section starts. */
  function ScrollOffset(section: int, innerWidth: nat): (left: real)
    ensures InRange(section) ==> 0.0 <= left <= MaxScrollLeft(innerWidth)
  {
    var w := innerWidth as real;
    var s := section as real;
    assert InRange(section) ==> 0.0 <= s * w <= 4.0 * w by {
      if section == 0 { assert s * w == 0.0; }
      else if section == 1 { assert s * w == w; }
      else if section == 2 { assert s * w == 2.0 * w; }
      else if section == 3 { assert s * w == 3.0 * w; }
      else if section == 4 { assert s * w == 4.0 * w; }
    }
    s * w
  }

  /**
   * `Math.round(scrollLeft / window.innerWidth)`: the section whose start is
   * nearest the scroll position; within the scroll extent it is a real section.
   */
  function SectionAt(scrollLeft: real, innerWidth: nat): (section: int)
    requires innerWidth > 0
    ensures section as real - 0.5 <= scrollLeft / innerWidth as real < section as real + 0.5
    ensures 0.0 <= scrollLeft <= MaxScrollLeft(innerWidth) ==> InRange(section)
  {
    var ratio := scrollLeft / innerWidth as real;
    if 0.0 <= scrollLeft <= MaxScrollLeft(innerWidth) then
      QuotientBounds(scrollLeft, innerWidth as real, (SectionCount - 1) as real);
      Round(ratio)
    else
      Round(ratio)
  }

  /** Dividing a value in `[0, hi * w]` by a positive `w` gives a value in `[0, hi]`. */
  lemma QuotientBounds(x: real, w: real, hi: real)
    requires w > 0.0 && 0.0 <= x <= hi * w
    ensures 0.0 <= x / w <= hi
  {
    var q := x / w;
    assert q * w == x;
    ProductSign(q, w);
    ProductSign(q - hi, w);
    assert (q - hi) * w == q * w - hi * w;
  }

  lemma ProductSign(a: real, b: real)
    ensures a > 0.0 && b > 0.0 ==> a * b > 0.0
    ensures a < 0.0 && b > 0.0 ==> a * b < 0.0
  {
  }

  /** A product divided by one of its factors gives back the other. */
  lemma ProductQuotient(product: real, factor: real, w: real)
    requires w > 0.0 && product == factor * w
    ensures product / w == factor
  {
  }

  /** Scrolling to the start of a section makes that section current: the round trip. */
  lemma SectionAtScrollOffset(section: int, innerWidth: nat)
    requires innerWidth > 0
    ensures SectionAt(ScrollOffset(section, innerWidth), innerWidth) == section
  {
    var w := innerWidth as real;
    var left := ScrollOffset(section, innerWidth);
    assert left == section as real * w;
    ProductQuotient(left, section as real, w);
  }

  /** A navigation dot scrolls to a reachable offset, which selects its own section. */
  lemma NavDotSelectsItsSection(index: int, innerWidth: nat)
    requires InRange(index) && innerWidth > 0
    ensures 0.0 <= ScrollOffset(index, innerWidth) <= MaxScrollLeft(innerWidth)
    ensures SectionAt(ScrollOffset(index, innerWidth), innerWidth) == index
  {
    SectionAtScrollOffset(index, innerWidth);
  }

  // ---------------------------------------------------------------------------
  // Swipes

  /**
   * Only a mostly-horizontal move longer than the threshold counts: the move
   * lies strictly inside the left or right quarter-plane cone around the
   * horizontal axis and more than 50 pixels out.
   */
  predicate IsHorizontalSwipe(deltaX: real, deltaY: real)
    ensures IsHorizontalSwipe(deltaX, deltaY) <==>
      || (deltaX > SwipeThreshold && -deltaX < deltaY < deltaX)
      || (deltaX < -SwipeThreshold && deltaX < deltaY < -deltaX)
  {
    Abs(deltaX) > Abs(deltaY) && Abs(deltaX) > SwipeThreshold
  }

  /**
   * The section a swipe asks for; `deltaX` is start minus end, so a positive
   * value is a swipe to the left (next section). There is no next section
   * after the last, and no previous one before the first.
   */
  function SwipeTarget(current: int, deltaX: real, deltaY: real): (target: Option<int>)
    ensures target.Some? ==> IsHorizontalSwipe(deltaX, deltaY)
    ensures target == Some(current + 1) <==>
      IsHorizontalSwipe(deltaX, deltaY) && deltaX > 0.0 && current < SectionCount - 1
    ensures target == Some(current - 1) <==>
      IsHorizontalSwipe(deltaX, deltaY) && deltaX < 0.0 && current > 0
    ensures target.Some? ==> target.value == current + 1 || target.value == current - 1
    ensures InRange(current) && target.Some? ==> InRange(target.value)
  {
    if IsHorizontalSwipe(deltaX, deltaY) then
      if deltaX > 0.0 && current < SectionCount - 1 then Some(current + 1)
      else if deltaX < 0.0 && current > 0 then Some(current - 1)
      else None
    else None
  }

  /** The mirror-image swipe undoes a swipe that moved. */
  lemma SwipeBackReturns(current: int, deltaX: real, deltaY: real)
    requires InRange(current) && SwipeTarget(current, deltaX, deltaY).Some?
    ensures SwipeTarget(SwipeTarget(current, deltaX, deltaY).value, -deltaX, deltaY) == Some(current)
  {
  }

  /** The offset a touch end scrolls to, if any. */
  function SwipeScroll(current: int, deltaX: real, deltaY: real, innerWidth: nat): (left: Option<real>)
    ensures left.Some? <==> SwipeTarget(current, deltaX, deltaY).Some?
    ensures left.Some? ==> left.value == ScrollOffset(SwipeTarget(current, deltaX, deltaY).value, innerWidth)
  {
    match SwipeTarget(current, deltaX, deltaY)
    case Some(target) => Some(ScrollOffset(target, innerWidth))
    case None => None
  }

  /**
   * After a swipe's smooth scroll arrives, the scroll handler makes the
   * swiped-to neighbour current, and it is a real section.
   */
  lemma {:induction false} SwipeReachesNeighbour(current: int, deltaX: real, deltaY: real, innerWidth: nat)
    requires InRange(current) && innerWidth > 0
    requires SwipeScroll(current, deltaX, deltaY, innerWidth).Some?
    ensures var left := SwipeScroll(current, deltaX, deltaY, innerWidth).value;
      var arrived := SectionAt(left, innerWidth);
      && 0.0 <= left <= MaxScrollLeft(innerWidth)
      && InRange(arrived)
      && (arrived == current + 1 <==> deltaX > 0.0)
      && (arrived == current - 1 <==> deltaX < 0.0)
  {
    var target := SwipeTarget(current, deltaX, deltaY).value;
    SectionAtScrollOffset(target, innerWidth);
  }

  /** A falsy start coordinate: `null`, or exactly 0. */
  predicate Falsy(start: Option<real>)
    ensures Falsy(start) <==> start == None || start == Some(0.0)
  {
    start.None? || start.value == 0.0
  }

  // ---------------------------------------------------------------------------
  // The frequency label

  /**
   * `String(n).padStart(2, '0')` for a section number: for n < 100, two
   * digits that read back as `n`.
   */
  function TwoDigitField(n: nat): (field: string)
    ensures n < 100 ==> |field| == 2 && Decimal.AllDigits(field) && Decimal.Value(field) == n
  {
    var digits := Decimal.NatToString(n);
    if n < 100 then
      ShortNumberDigits(n);
      Decimal.ZeroPaddingKeepsValue(digits, 2);
      Decimal.PadStart(digits, 2, '0')
    else
      Decimal.PadStart(digits, 2, '0')
  }

  /** A number below 100 is written with at most two digits. */
  lemma ShortNumberDigits(n: nat)
    requires n < 100
    ensures |Decimal.NatToString(n)| <= 2
  {
    if n >= 10 {
      assert Decimal.NatToString(n) == Decimal.NatToString(n / 10) + [Decimal.DigitChar(n % 10)];
    }
  }

  /**
   * `FREQ: ${String(currentSection + 1).padStart(2, '0')}/05`. For any section
   * number up to 99 the label is eleven characters and its two-character field
   * reads back as `currentSection + 1`.
   */
  function FreqLabel(currentSection: nat): (text: string)
    ensures currentSection + 1 < 100 ==>
      && |text| == 11
      && text[..6] == "FREQ: "
      && text[8..] == "/05"
      && Decimal.AllDigits(text[6..8])
      && Decimal.Value(text[6..8]) == currentSection + 1
  {
    var field := TwoDigitField(currentSection + 1);
    if currentSection + 1 < 100 then
      LabelLayout("FREQ: ", field, "/05");
      "FREQ: " + field + "/05"
    else
      "FREQ: " + field + "/05"
  }

  /** Where the parts of a six-, two- and three-character concatenation sit. */
  lemma LabelLayout(prefix: string, field: string, suffix: string)
    requires |prefix| == 6 && |field| == 2 && |suffix| == 3
    ensures var text := prefix + field + suffix;
      |text| == 11 && text[..6] == prefix && text[6..8] == field && text[8..] == suffix
  {
    var text := prefix + field + suffix;
    assert text[..6] == prefix;
    assert text[6..8] == field;
    assert text[8..] == suffix;
  }

  /** The label of the first section. */
  lemma FreqLabelExample()
    ensures FreqLabel(0) == "FREQ: 01/05"
  {
    assert Decimal.DigitChar(1) == '1';
    assert Decimal.NatToString(1) == ['1'];
    assert Decimal.PadStart(['0', '1'], 2, '0') == ['0', '1'];
    assert Decimal.PadStart(['1'], 2, '0') == ['0', '1'];
    assert TwoDigitField(1) == ['0', '1'];
    assert FreqLabel(0) == "FREQ: " + ['0', '1'] + "/05";
  }

  // ---------------------------------------------------------------------------
  // The page shell's state

  /**
   * The shell's state: the current section (React state), the mobile flag,
   * and the two touch-start refs, which hold a coordinate or `null`.
   */
  class Navigator {
    var currentSection: int
    var isMobile: bool
    var touchStartX: Option<real>
    var touchStartY: Option<real>

    /** The current section is always one of the five. */
    ghost predicate Valid()
      reads this
    {
      InRange(currentSection)
    }

    /** `useState(0)`, `useState(false)`, `useRef(null)` twice. */
    constructor ()
      ensures Valid()
      ensures currentSection == 0 && !isMobile
      ensures touchStartX == None && touchStartY == None
    {
      currentSection := 0;
      isMobile := false;
      touchStartX := None;
      touchStartY := None;
    }

    /** The resize handler `checkMobile`. */
    method CheckMobile(innerWidth: int)
      modifies this`isMobile
      ensures isMobile == Viewport.IsMobile(innerWidth)
    {
      isMobile := Viewport.IsMobile(innerWidth);
    }

    /** `handleTouchStart`: remember where the first touch began. */
    method TouchStart(clientX: real, clientY: real)
      modifies this`touchStartX, this`touchStartY
      ensures touchStartX == Some(clientX) && touchStartY == Some(clientY)
    {
      touchStartX := Some(clientX);
      touchStartY := Some(clientY);
    }

    /**
     * `handleTouchEnd`. With a falsy start coordinate it returns at once: no
     * scroll, refs untouched. Otherwise it asks for the scroll of the swipe
     * target, if there is one, and clears both refs either way.
     */
    method TouchEnd(endX: real, endY: real, innerWidth: nat) returns (scrollTo: Option<real>)
      requires Valid()
      modifies this`touchStartX, this`touchStartY
      ensures Falsy(old(touchStartX)) || Falsy(old(touchStartY)) ==>
        scrollTo == None && touchStartX == old(touchStartX) && touchStartY == old(touchStartY)
      ensures !Falsy(old(touchStartX)) && !Falsy(old(touchStartY)) ==>
        && touchStartX == None && touchStartY == None
        && scrollTo == SwipeScroll(currentSection, old(touchStartX).value - endX, old(touchStartY).value - endY, innerWidth)
    {
      if Falsy(touchStartX) || Falsy(touchStartY) {
        return None;
      }
      var deltaX := touchStartX.value - endX;
      var deltaY := touchStartY.value - endY;
      scrollTo := None;
      if IsHorizontalSwipe(deltaX, deltaY) {
        if deltaX > 0.0 && currentSection < SectionCount - 1 {
          scrollTo := Some(ScrollOffset(currentSection + 1, innerWidth));
        } else if deltaX < 0.0 && currentSection > 0 {
          scrollTo := Some(ScrollOffset(currentSection - 1, innerWidth));
        }
      }
      touchStartX := None;
      touchStartY := None;
    }

    /**
     * `handleScroll`: the section nearest the scroll position becomes
     * current; the state is written only when it differs.
     */
    method Scroll(scrollLeft: real, innerWidth: nat) returns (changed: bool)
      requires Valid() && innerWidth > 0
      requires 0.0 <= scrollLeft <= MaxScrollLeft(innerWidth)
      modifies this`currentSection
      ensures Valid()
      ensures currentSection == SectionAt(scrollLeft, innerWidth)
      ensures changed <==> currentSection != old(currentSection)
    {
      var newSection := SectionAt(scrollLeft, innerWidth);
      changed := newSection != currentSection;
      if changed {
        currentSection := newSection;
      }
    }
  }
}
