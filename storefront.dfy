/**
 * The values the voice command handlers exchange with the rest of the
 * storefront: catalog items as the item API returns them, and the effects a
 * handled command has (navigation, reload, the category filter, requests to
 * the cart and wishlist APIs, and `window` events), together with the one
 * sentence it speaks.
 */
module Storefront {
  import opened Wrappers

  /** A catalog item; only `_id` and `name` are read by the command handlers. */
  datatype Item = Item(id: string, name: string)

  datatype Effect =
    | Navigate(route: string)                       // navigate(route)
    | ReloadPage                                    // window.location.reload()
    | SetCategoryFilter(category: string)           // window.setCategoryFilter(category)
    | CartAddRequest(idKey: string, itemId: string, quantity: nat) // POST /api/cart/add with { [idKey]: itemId, quantity }
    | CartRemoveRequest(itemId: string)             // DELETE /api/cart/remove/:id
    | WishlistToggleRequest(itemId: string)         // POST /api/user/wishlist/toggle
    | Broadcast(event: string)                      // window.dispatchEvent(new Event(event))
    | ItemSearchRequest(name: string)               // GET /api/items?name=...

  /** What handling one command did: the sentence spoken and the effects, in order. */
  datatype Outcome = Outcome(speech: string, effects: seq<Effect>)

  /** `GET /api/item/allitems`: the request or its body failed, or the body's `items`. */
  datatype CatalogReply = CatalogFailed | CatalogBody(items: Option<seq<Item>>)

  /** The write request: it failed outright, was answered with an error status, or succeeded. */
  datatype WriteReply = WriteFailed | WriteNotOk | WriteOk

  /** A request that changes the cart or the wishlist. */
  predicate IsWrite(e: Effect) {
    e.CartAddRequest? || e.CartRemoveRequest? || e.WishlistToggleRequest?
  }

  predicate NoWrites(o: Outcome) {
    forall k :: 0 <= k < |o.effects| ==> !IsWrite(o.effects[k])
  }

  function Say(message: string): (o: Outcome)
    ensures o.speech == message && o.effects == []
  {
    Outcome(message, [])
  }
}
