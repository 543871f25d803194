/**
 * The navigation bar: its own voice command chain (`handleVoiceCommand`),
 * which tests "wishlist" before "home" and finds products through the item
 * search; the page predicates; and the login and cart-count state it keeps.
 */
module Navbar {
  import opened Wrappers
  import opened JsString
  import opened FirstMatch
  import opened Storefront

  // ---------------------------------------------------------------------------
  // The voice command chain

  /** The rule chain of `handleVoiceCommand`, top to bottom. */
  const Rules: seq<Guard> := [
    AnyOf(["go to cart"]),
    AnyOf(["wishlist"]),
    AnyOf(["home"]),
    AnyOf(["profile"]),
    PrefixAndAnyOf("add", ["to cart"])
  ]

  datatype NavIntent = GoToCart | OpenWishlist | GoHome | OpenProfile | AddToCart(productName: string) | NotClear

  /** `command.replace("add", "").replace("to cart", "").trim()` */
  function ProductName(cmd: string): string {
    Trim(ReplaceFirst(ReplaceFirst(cmd, "add"), "to cart"))
  }

  function IntentOfRule(k: nat, cmd: string): NavIntent {
    if k == 0 then GoToCart
    else if k == 1 then OpenWishlist
    else if k == 2 then GoHome
    else if k == 3 then OpenProfile
    else if k == 4 then AddToCart(ProductName(cmd))
    else NotClear
  }

  /** The `if / else if` chain over the lower-cased command: the branch it takes. */
  function Branch(cmd: string): nat {
    if Contains(cmd, "go to cart") then 0
    else if Contains(cmd, "wishlist") then 1
    else if Contains(cmd, "home") then 2
    else if Contains(cmd, "profile") then 3
    else if StartsWith(cmd, "add") && Contains(cmd, "to cart") then 4
    else 5
  }

  predicate BranchTest(j: nat, cmd: string) {
    if j == 0 then Contains(cmd, "go to cart")
    else if j == 1 then Contains(cmd, "wishlist")
    else if j == 2 then Contains(cmd, "home")
    else if j == 3 then Contains(cmd, "profile")
    else StartsWith(cmd, "add") && Contains(cmd, "to cart")
  }

  lemma RuleIsBranchTest(j: nat, cmd: string)
    requires j < |Rules|
    ensures Holds(Rules[j], cmd) <==> BranchTest(j, cmd)
  {
    if j == 0 {
      assert Rules[0] == AnyOf(["go to cart"]);
      IncludesOne(cmd, "go to cart");
    } else if j == 1 {
      assert Rules[1] == AnyOf(["wishlist"]);
      IncludesOne(cmd, "wishlist");
    } else if j == 2 {
      assert Rules[2] == AnyOf(["home"]);
      IncludesOne(cmd, "home");
    } else if j == 3 {
      assert Rules[3] == AnyOf(["profile"]);
      IncludesOne(cmd, "profile");
    } else {
      assert Rules[4] == PrefixAndAnyOf("add", ["to cart"]);
      IncludesOne(cmd, "to cart");
    }
  }

  /** The branch the chain takes is the first rule of `Rules` that holds. */
  lemma BranchIsFirstFiring(cmd: string)
    ensures Branch(cmd) == FirstFiring(Rules, cmd)
  {
    var k := Branch(cmd);
    forall j | 0 <= j < |Rules|
      ensures Holds(Rules[j], cmd) <==> BranchTest(j, cmd)
    {
      RuleIsBranchTest(j, cmd);
    }
    assert forall j :: 0 <= j < k ==> !BranchTest(j, cmd);
    FirstFiringUnique(Rules, cmd, k);
  }

  function Classify(text: string): (i: NavIntent)
    ensures i == IntentOfRule(FirstFiring(Rules, Lower(text)), Lower(text))
  {
    var cmd := Lower(text);
    BranchIsFirstFiring(cmd);
    IntentOfRule(Branch(cmd), cmd)
  }

  /** `GET /api/items?name=...`: the request or its body failed; the body was
      falsy (`null`, `false`, `0`, `""`) or has `length` 0, which both read as
      "not available"; an array of items; or a truthy body that is not an
      array and has no first element, so reading the product's id throws. A
      non-empty JSON string, whose first character would be taken as the
      product, is not modelled. */
  datatype SearchReply = SearchFailed | SearchNull | SearchArray(items: seq<Item>) | SearchOther

  /** The add-to-cart branch, once the product name is cut out. */
  function AddCommand(productName: string, search: SearchReply, write: WriteReply): (o: Outcome)
  {
    if productName == "" then Say("Sorry, I could not understand the product name")
    else
      var fetch := ItemSearchRequest(productName);
      match search
      case SearchFailed => Outcome("Failed to add the item. Please try again", [fetch])
      case SearchNull => Outcome("Sorry, " + productName + " is not available", [fetch])
      case SearchOther => Outcome("Failed to add the item. Please try again", [fetch])
      case SearchArray(items) =>
        if items == [] then Outcome("Sorry, " + productName + " is not available", [fetch])
        else
          var product := items[0];
          var request := CartAddRequest("productId", product.id, 1);
          match write
          case WriteOk => Outcome("Added " + product.name + " to your cart", [fetch, request, Broadcast("cartUpdated")])
          case WriteNotOk => Outcome("Something went wrong while adding to cart", [fetch, request])
          case WriteFailed => Outcome("Failed to add the item. Please try again", [fetch, request])
  }

  function Perform(i: NavIntent, search: SearchReply, write: WriteReply): Outcome {
    match i
    case GoToCart => Outcome("Navigating to cart", [Navigate("/cart")])
    case OpenWishlist => Outcome("Opening wishlist", [Navigate("/wishlist")])
    case GoHome => Outcome("Going to home", [Navigate("/")])
    case OpenProfile => Outcome("Opening profile", [Navigate("/profile")])
    case AddToCart(name) => AddCommand(name, search, write)
    case NotClear => Say("Sorry, you were not clear")
  }

  /** `handleVoiceCommand(text)` */
  function HandleVoiceCommand(text: string, search: SearchReply, write: WriteReply): Outcome {
    Perform(Classify(text), search, write)
  }

  // ---------------------------------------------------------------------------
  // Properties of the chain

  /** "wishlist" is tested before "home": a command with "wishlist" and
      without "go to cart" opens the wishlist, whether or not it says "home". */
  lemma WishlistBeforeHome(text: string, search: SearchReply, write: WriteReply)
    requires Contains(Lower(text), "wishlist") && !Contains(Lower(text), "go to cart")
    ensures Classify(text) == OpenWishlist
    ensures HandleVoiceCommand(text, search, write) == Outcome("Opening wishlist", [Navigate("/wishlist")])
  {
  }

  /** "home" navigates to "/" only when neither earlier test holds. */
  lemma HomeAfterCartAndWishlist(text: string)
    ensures Classify(text) == GoHome <==>
      Contains(Lower(text), "home") && !Contains(Lower(text), "go to cart") && !Contains(Lower(text), "wishlist")
  {
  }

  /** An empty product name speaks the "could not understand" sentence and
      fetches nothing. */
  lemma EmptyNameNoFetch(search: SearchReply, write: WriteReply)
    ensures AddCommand("", search, write) == Say("Sorry, I could not understand the product name")
  {
  }

  /** A search with no items answers "not available" and sends nothing to the cart;
      otherwise the one cart request, if any, is for the first item returned. */
  lemma FirstSearchResult(productName: string, search: SearchReply, write: WriteReply)
    requires productName != ""
    ensures var o := AddCommand(productName, search, write);
      && o.effects != [] && o.effects[0] == ItemSearchRequest(productName)
      && (search == SearchNull || search == SearchArray([]) ==>
            o == Outcome("Sorry, " + productName + " is not available", [ItemSearchRequest(productName)]))
      && (!NoWrites(o) <==> search.SearchArray? && search.items != [])
      && (!NoWrites(o) ==> o.effects[1] == CartAddRequest("productId", search.items[0].id, 1))
  {
    var o := AddCommand(productName, search, write);
    if search.SearchArray? && search.items != [] {
      assert IsWrite(o.effects[1]);
    }
  }

  // ---------------------------------------------------------------------------
  // Pages

  /** `isHomePage` */
  predicate IsHomePage(pathname: string) {
    pathname == "/"
  }

  /** `isAuthPage`: `["/login", "/signup"].includes(pathname)` */
  predicate IsAuthPage(pathname: string) {
    pathname in ["/login", "/signup"]
  }

  /** The two page kinds never overlap, and the auth pages are exactly the two routes. */
  lemma PagesDisjoint(pathname: string)
    ensures IsAuthPage(pathname) ==> !IsHomePage(pathname)
    ensures IsAuthPage(pathname) <==> pathname == "/login" || pathname == "/signup"
  {
  }

  // ---------------------------------------------------------------------------
  // Login and cart-count state

  /** The user record `/api/user/me` returns (only `isSeller` is read). */
  datatype User = User(id: string, isSeller: bool)

  /** `/api/user/me`: failed, not ok, or ok with a body whose `user` may be absent. */
  datatype UserReply = UserFailed | UserNotOk | UserOk(user: Option<User>)

  /** `/api/cart`: failed, not ok, or ok with `data.cart`, whose `items` may be absent. */
  datatype CartReply = CartFailed | CartNotOk | CartOk(cart: Option<Option<seq<string>>>)

  /** `data.cart?.items?.length || 0` */
  function CartCountOf(cart: Option<Option<seq<string>>>): (n: nat)
    ensures cart.Some? && cart.value.Some? ==> n == |cart.value.value|
    ensures cart.None? || cart.value.None? ==> n == 0
  {
    if cart.Some? && cart.value.Some? then |cart.value.value| else 0
  }

  class NavbarState {
    var isLoggedIn: bool
    var userData: Option<User>
    var cartCount: nat
    /** The cart requests sent, one per `fetchCartCount` call. */
    var cartFetches: nat

    /** Logged in exactly when there is user data. */
    ghost predicate Valid()
      reads this
    {
      isLoggedIn <==> userData.Some?
    }

    constructor()
      ensures Valid() && !isLoggedIn && userData == None && cartCount == 0 && cartFetches == 0
    {
      isLoggedIn, userData, cartCount, cartFetches := false, None, 0, 0;
    }

    /** `fetchCartCount`: an ok reply sets the count; any other leaves it. */
    method FetchCartCount(reply: CartReply)
      requires Valid()
      modifies this
      ensures Valid()
      ensures cartCount == (if reply.CartOk? then CartCountOf(reply.cart) else old(cartCount))
      ensures cartFetches == old(cartFetches) + 1
      ensures isLoggedIn == old(isLoggedIn) && userData == old(userData)
    {
      cartFetches := cartFetches + 1;
      if reply.CartOk? {
        cartCount := CartCountOf(reply.cart);
      }
    }

    /** `fetchUserData`: an ok reply with a user logs in and, for a buyer only,
        refreshes the cart count; anything else logs out and leaves the count.
        (An ok reply without `user` logs in, then fails reading `isSeller`,
        and the handler logs out again.) */
    method FetchUserData(reply: UserReply, cart: CartReply)
      requires Valid()
      modifies this
      ensures Valid()
      ensures reply.UserOk? && reply.user.Some? ==> isLoggedIn && userData == reply.user
      ensures !(reply.UserOk? && reply.user.Some?) ==> !isLoggedIn && userData == None
      ensures reply.UserOk? && reply.user.Some? && !reply.user.value.isSeller ==>
        cartFetches == old(cartFetches) + 1
        && cartCount == (if cart.CartOk? then CartCountOf(cart.cart) else old(cartCount))
      ensures !(reply.UserOk? && reply.user.Some? && !reply.user.value.isSeller) ==>
        cartFetches == old(cartFetches) && cartCount == old(cartCount)
    {
      if reply.UserOk? && reply.user.Some? {
        isLoggedIn := true;
        userData := reply.user;
        if !reply.user.value.isSeller {
          FetchCartCount(cart);
        }
      } else {
        isLoggedIn := false;
        userData := None;
      }
    }
  }
}
