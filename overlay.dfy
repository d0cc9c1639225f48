/** The call-to-action overlay and the rows it partly covers. */
module Overlay {
  import opened Feed

  /** The overlay effect: shown to a visitor who is not signed in once 20 products are loaded. */
  function OverlayShown(totalLoaded: int, authenticated: bool): (shown: bool)
    ensures authenticated ==> !shown
    ensures totalLoaded < CtaThreshold ==> !shown
  {
    totalLoaded >= CtaThreshold && !authenticated
  }

  /** Row `index` of the grid sits under the overlay while it is shown. */
  function PartiallyHidden(index: int, overlayShown: bool): (hidden: bool)
    ensures hidden ==> overlayShown && (index == 20 || index == 21)
  {
    index >= 20 && index < 22 && overlayShown
  }

  /**
   * The overlay covers exactly rows 20 and 21 (the 21st and 22nd products), and only for a
   * visitor who is not signed in and has 20 or more products loaded; signing in uncovers
   * every row whatever the count.
   */
  lemma HiddenRows(totalLoaded: int, authenticated: bool, index: int)
    ensures PartiallyHidden(index, OverlayShown(totalLoaded, authenticated)) <==>
      (index == 20 || index == 21) && totalLoaded >= 20 && !authenticated
    ensures authenticated ==> !OverlayShown(totalLoaded, authenticated)
  {
  }

  /**
   * Wherever a session stands, the rows the overlay leaves uncovered past row 21 are at
   * most three: with the soft limit the feed can hold 25 rows, and rows 22 to 24 show.
   */
  lemma UncoveredTail(s: FeedState, authenticated: bool, index: int)
    requires Inv(s) && 22 <= index < |s.products|
    ensures !PartiallyHidden(index, OverlayShown(s.total, authenticated)) && index < LoadBound
  {
  }
}
