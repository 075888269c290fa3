/** The viewport-width breakpoint shared by the page shells and the background. */
module Viewport {

  /** Widths below this many CSS pixels count as a phone-sized viewport. */
  const MobileBreakpoint: int := 768

  /** `window.innerWidth < 768` */
  predicate IsMobile(innerWidth: int)
  {
    innerWidth < MobileBreakpoint
  }
}
