/** toggleSaveProduct: the signed-in user's set of bookmarked product ids. */
module Saved {
  /** What the toggle does towards the outside: a redirect, or one call on saved_products. */
  datatype SaveCall = RedirectToLogin | DeleteRow(productId: int) | InsertRow(productId: int)

  /** The call made for `productId`: none without a user, else delete if saved, insert if not. */
  function SaveCallFor(saved: set<int>, productId: int, signedIn: bool): (c: SaveCall)
    ensures c.RedirectToLogin? <==> !signedIn
    ensures c.DeleteRow? <==> signedIn && productId in saved
    ensures !c.RedirectToLogin? ==> c.productId == productId
  {
    if !signedIn then RedirectToLogin
    else if productId in saved then DeleteRow(productId)
    else InsertRow(productId)
  }

  /**
   * The local set after the toggle: the call's result is applied only when it succeeded,
   * by removing or adding `productId` on a copy.
   */
  function Toggle(saved: set<int>, productId: int, signedIn: bool, remoteOk: bool): (r: set<int>)
    ensures forall id :: id != productId ==> (id in r <==> id in saved)
    ensures (productId in r <==> productId in saved) <==> !(signedIn && remoteOk)
  {
    match SaveCallFor(saved, productId, signedIn)
    case RedirectToLogin => saved
    case DeleteRow(id) => if remoteOk then saved - {id} else saved
    case InsertRow(id) => if remoteOk then saved + {id} else saved
  }

  /** Two successful toggles of the same product give back the original set. */
  lemma ToggleTwice(saved: set<int>, productId: int)
    ensures Toggle(Toggle(saved, productId, true, true), productId, true, true) == saved
  {
  }
}
