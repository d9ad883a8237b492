/**
 * The sticky form: on each scroll event the form is either left in the flow,
 * fixed under the navbar, or parked at the bottom of the navbar section,
 * depending on scrollY and three offsets measured once when the page loads.
 */
module Sticky {
  /** style.position with its style.top. */
  datatype Position = Relative | Fixed(top: real) | Absolute(top: real)

  /** What the handler writes: whether the form carries the class "sticky", and its position. */
  datatype Style = Style(sticky: bool, position: Position)

  /** The nested if/else of the scroll handler. */
  function Decide(scrollY: real, navbarOffset: real, navbarHeight: real, formHeight: real, sectionBottom: real): Style {
    var formBottomPosition := scrollY + navbarHeight + formHeight;
    if scrollY >= navbarOffset + navbarHeight then
      if formBottomPosition <= sectionBottom then Style(true, Fixed(navbarHeight))
      else Style(false, Absolute(sectionBottom - formHeight))
    else Style(false, Relative)
  }

  /**
   * The three modes by their conditions: relative before the threshold, fixed
   * at navbarHeight while the form's bottom stays within the section, absolute
   * at sectionBottom - formHeight otherwise; the class is present iff fixed.
   */
  lemma DecideModes(scrollY: real, navbarOffset: real, navbarHeight: real, formHeight: real, sectionBottom: real)
    ensures var s := Decide(scrollY, navbarOffset, navbarHeight, formHeight, sectionBottom);
      && (s.position.Relative? <==> scrollY < navbarOffset + navbarHeight)
      && (s.position.Fixed? <==>
            scrollY >= navbarOffset + navbarHeight && scrollY + navbarHeight + formHeight <= sectionBottom)
      && (s.position.Absolute? <==>
            scrollY >= navbarOffset + navbarHeight && scrollY + navbarHeight + formHeight > sectionBottom)
      && (s.position.Fixed? ==> s.position.top == navbarHeight)
      && (s.position.Absolute? ==> s.position.top == sectionBottom - formHeight)
      && (s.sticky <==> s.position.Fixed?)
  {
  }

  /** Once scrollY has reached the threshold, scrolling further down never makes the form relative again. */
  lemma PastThresholdNeverRelative(s1: real, s2: real, navbarOffset: real, navbarHeight: real, formHeight: real, sectionBottom: real)
    requires navbarOffset + navbarHeight <= s1 <= s2
    ensures !Decide(s2, navbarOffset, navbarHeight, formHeight, sectionBottom).position.Relative?
  {
  }

  /**
   * Scrolling down past the threshold only moves the form from fixed to
   * absolute, never back: the fixed condition bounds scrollY from above.
   */
  lemma FixedThenAbsolute(s1: real, s2: real, navbarOffset: real, navbarHeight: real, formHeight: real, sectionBottom: real)
    requires navbarOffset + navbarHeight <= s1 <= s2
    requires Decide(s2, navbarOffset, navbarHeight, formHeight, sectionBottom).position.Fixed?
    ensures Decide(s1, navbarOffset, navbarHeight, formHeight, sectionBottom).position.Fixed?
  {
  }

  /**
   * With the page's own sectionBottom = navbarOffset + navbarHeight, and a navbar
   * and form of positive total height, the fixed mode is never chosen: past the
   * threshold the form always sits at navbarOffset + navbarHeight - formHeight.
   */
  lemma FixedUnreachable(scrollY: real, navbarOffset: real, navbarHeight: real, formHeight: real)
    requires navbarHeight + formHeight > 0.0
    ensures var s := Decide(scrollY, navbarOffset, navbarHeight, formHeight, navbarOffset + navbarHeight);
      && !s.position.Fixed? && !s.sticky
      && (scrollY >= navbarOffset + navbarHeight ==>
            s.position == Absolute(navbarOffset + navbarHeight - formHeight))
  {
  }

  /** The form with the offsets captured on DOMContentLoaded and the style the scroll handler last wrote. */
  class StickyForm {
    /** False when the form or the navbar element is missing: the handler is then never installed. */
    const listening: bool
    const navbarOffset: real
    const navbarHeight: real
    const formHeight: real
    const sectionBottom: real
    var style: Style

    /** DOMContentLoaded: the offsets are measured, and sectionBottom is the bottom of the navbar. */
    constructor(formFound: bool, navbarFound: bool, navbarOffset: real, navbarHeight: real, formHeight: real, initial: Style)
      ensures listening <==> formFound && navbarFound
      ensures this.navbarOffset == navbarOffset && this.navbarHeight == navbarHeight && this.formHeight == formHeight
      ensures sectionBottom == navbarOffset + navbarHeight
      ensures style == initial
    {
      listening := formFound && navbarFound;
      this.navbarOffset := navbarOffset;
      this.navbarHeight := navbarHeight;
      this.formHeight := formHeight;
      sectionBottom := navbarOffset + navbarHeight;
      style := initial;
    }

    /** One scroll event at window.scrollY = scrollY. */
    method OnScroll(scrollY: real)
      modifies this
      requires sectionBottom == navbarOffset + navbarHeight
      ensures listening ==> style == Decide(scrollY, navbarOffset, navbarHeight, formHeight, sectionBottom)
      ensures !listening ==> style == old(style)
      ensures listening && navbarHeight + formHeight > 0.0 ==>
        !style.sticky && (scrollY >= navbarOffset + navbarHeight ==>
          style.position == Absolute(navbarOffset + navbarHeight - formHeight))
    {
      if !listening {
        return;
      }
      var formBottomPosition := scrollY + navbarHeight + formHeight;
      if scrollY >= navbarOffset + navbarHeight {
        if formBottomPosition <= sectionBottom {
          style := Style(true, Fixed(navbarHeight));
        } else {
          style := Style(false, Absolute(sectionBottom - formHeight));
        }
      } else {
        style := Style(false, Relative);
      }
      if navbarHeight + formHeight > 0.0 {
        FixedUnreachable(scrollY, navbarOffset, navbarHeight, formHeight);
      }
    }
  }
}
