/**
 * The command handler of the newer voice assistant (`handleCommand`): the
 * intent the rule chain picks is carried out against the storefront's
 * responses. Network answers are parameters; what the handler does is
 * returned as an `Outcome`: the sentence spoken and the effects, in order.
 */
module VoiceAssistant {
  import opened Wrappers
  import opened JsString
  import opened Storefront
  import opened Matcher
  import opened Categories
  import opened CommandRules

  // ---------------------------------------------------------------------------
  // Carrying the intent out

  /** The cart or wishlist read before a removal or a wishlist add: the request
      or reading the body failed, the response was not `ok`, or the ids listed. */
  datatype ListingReply = ListingFailed | ListingNotOk | ListingOk(ids: seq<string>)

  /** Everything outside `handleCommand` that its outcome depends on. */
  datatype World = World(
    filterMounted: bool,     // `window.setCategoryFilter` is defined
    catalog: CatalogReply,
    listing: ListingReply,
    write: WriteReply)

  function NoProductsMessage(a: ProductAction): string {
    if a == AddToCart then "No products are available at this time." else "No products available."
  }

  /** The membership check run before the write, and whether it lets the write go ahead. */
  function Proceeds(a: ProductAction, id: string, ids: seq<string>): bool {
    match a
    case AddToCart => true
    case RemoveFromCart => id in ids
    case AddToWishlist => id !in ids
    case RemoveFromWishlist => id in ids
  }

  function GuardMessage(a: ProductAction, name: string): string {
    match a
    case AddToCart => ""
    case RemoveFromCart => name + " is not in your cart."
    case AddToWishlist => name + " is already in your wishlist."
    case RemoveFromWishlist => name + " is not in your wishlist."
  }

  function WriteRequest(a: ProductAction, id: string): Effect {
    match a
    case AddToCart => CartAddRequest("itemId", id, 1)
    case RemoveFromCart => CartRemoveRequest(id)
    case AddToWishlist => WishlistToggleRequest(id)
    case RemoveFromWishlist => WishlistToggleRequest(id)
  }

  function SuccessMessage(a: ProductAction, name: string): string {
    match a
    case AddToCart => name + " has been added to your cart."
    case RemoveFromCart => name + " has been removed from your cart."
    case AddToWishlist => name + " has been added to your wishlist."
    case RemoveFromWishlist => name + " has been removed from your wishlist."
  }

  function UpdateEvent(a: ProductAction): string {
    if a == AddToCart || a == RemoveFromCart then "cartUpdated" else "wishlistUpdated"
  }

  function FailureMessage(a: ProductAction): string {
    match a
    case AddToCart => "Failed to add the product to cart."
    case RemoveFromCart => "Failed to remove the product from cart."
    case AddToWishlist => "Failed to add the product to wishlist."
    case RemoveFromWishlist => "Failed to remove the product from wishlist."
  }

  function CatchMessage(a: ProductAction): string {
    match a
    case AddToCart => "Something went wrong while adding the product."
    case RemoveFromCart => "Something went wrong while removing from cart."
    case AddToWishlist => "Something went wrong while adding to wishlist."
    case RemoveFromWishlist => "Something went wrong while removing from wishlist."
  }

  /** The write and what follows it, once `product` is chosen and the check let it through. */
  function Write(a: ProductAction, product: Item, w: WriteReply): (o: Outcome)
    ensures o.effects != [] && o.effects[0] == WriteRequest(a, product.id)
    ensures forall k :: 1 <= k < |o.effects| ==> !IsWrite(o.effects[k])
    ensures Broadcast(UpdateEvent(a)) in o.effects <==> w == WriteOk
    ensures w == WriteOk ==> o.speech == SuccessMessage(a, product.name)
    ensures w == WriteNotOk ==> o.speech == FailureMessage(a)
    ensures w == WriteFailed ==> o.speech == CatchMessage(a)
    ensures o.effects == [WriteRequest(a, product.id)] + (if w == WriteOk then [Broadcast(UpdateEvent(a))] else [])
  {
    var request := WriteRequest(a, product.id);
    match w
    case WriteOk => Outcome(SuccessMessage(a, product.name), [request, Broadcast(UpdateEvent(a))])
    case WriteNotOk => Outcome(FailureMessage(a), [request])
    case WriteFailed => Outcome(CatchMessage(a), [request])
  }

  /** One of the four product branches (the matcher, the membership check, the write). */
  function ProductCommand(a: ProductAction, productName: string, world: World): Outcome {
    match world.catalog
    case CatalogFailed => Say(CatchMessage(a))
    case CatalogBody(items) =>
      if items.None? || items.value == [] then Say(NoProductsMessage(a))
      else ProductFound(a, productName, MatchShortestFirst(Lower(productName), items.value), world)
  }

  /** The rest of a product branch once the matcher has answered. */
  function ProductFound(a: ProductAction, productName: string, found: Option<Item>, world: World): Outcome {
    if found.None? then Say(productName + " is not available.")
    else
      var product := found.value;
      if a == AddToCart then Write(a, product, world.write)
      else
        match world.listing
        case ListingFailed => Say(CatchMessage(a))
        case ListingNotOk => Write(a, product, world.write)
        case ListingOk(ids) =>
          if Proceeds(a, product.id, ids) then Write(a, product, world.write)
          else Say(GuardMessage(a, product.name))
  }

  /** `show all <category>` */
  function ShowAllCommand(categoryName: string, world: World): Outcome {
    if Lower(categoryName) == "categories" then
      if world.filterMounted then Outcome("Showing all categories", [SetCategoryFilter("")])
      else Say("Please navigate to the home page to view all categories")
    else
      match Resolve(Lower(categoryName))
      case None =>
        Say(categoryName + " category is not available. Available categories are: " + AvailableList())
      case Some(key) =>
        var proper := DisplayName(key);
        if world.filterMounted then Outcome("Showing all " + proper + " items", [SetCategoryFilter(proper)])
        else Say("Please navigate to the home page to filter by category")
  }

  function Perform(i: Intent, world: World): Outcome {
    match i
    case GoHome => Outcome("Opening home page", [Navigate("/")])
    case OpenCart => Outcome("Opening cart", [Navigate("/cart")])
    case OpenWishlist => Outcome("Opening wishlist", [Navigate("/wishlist")])
    case OpenProfile => Outcome("Opening profile", [Navigate("/profile")])
    case Refresh => Outcome("Refreshing the page", [ReloadPage])
    case ShowAll(name) => ShowAllCommand(name, world)
    case Product(a, name) => ProductCommand(a, name, world)
    case NotUnderstood => Say("Sorry, I did not understand.")
  }

  /** `handleCommand(text)` */
  function HandleCommand(text: string, world: World): Outcome {
    Perform(Classify(text), world)
  }

  // ---------------------------------------------------------------------------
  // Properties

  /** Matching ignores case: transcripts that lower-case alike are handled alike. */
  lemma CaseInsensitive(text1: string, text2: string, world: World)
    requires Lower(text1) == Lower(text2)
    ensures HandleCommand(text1, world) == HandleCommand(text2, world)
  {
  }

  /** A command mentioning "home" anywhere navigates to "/" and does nothing else. */
  lemma HomeWins(text: string, world: World)
    requires Contains(Lower(text), "home")
    ensures Classify(text) == GoHome
    ensures HandleCommand(text, world) == Outcome("Opening home page", [Navigate("/")])
  {
  }

  /** So "show all home" goes to the home page and never filters by the "home" category. */
  lemma ShowAllHomeGoesHome(world: World)
    ensures HandleCommand("Show all Home", world) == Outcome("Opening home page", [Navigate("/")])
  {
    assert Lower("Show all Home") == "show all home";
    assert OccursAt("show all home", "home", 9);
    ContainsAt("show all home", "home", 9);
  }

  /** "show all categories" clears the filter, or asks for the home page, and
      never consults the category list. */
  lemma ShowAllCategories(text: string, world: World)
    requires Classify(text).ShowAll? && Lower(Classify(text).categoryName) == "categories"
    ensures HandleCommand(text, world) ==
      if world.filterMounted then Outcome("Showing all categories", [SetCategoryFilter("")])
      else Say("Please navigate to the home page to view all categories")
  {
  }

  /** Any other category name is resolved: a known (or overlapping) key sets the
      filter to its display name, which lower-cases back to the key; an unknown
      one lists the eight categories and leaves the filter alone. */
  lemma ShowAllResolves(name: string, world: World)
    requires Lower(name) != "categories"
    ensures var o := ShowAllCommand(name, world);
      match Resolve(Lower(name))
      case Some(key) =>
        && key in Available
        && (Lower(name) in Available ==> key == Lower(name))
        && (world.filterMounted ==> o.effects == [SetCategoryFilter(DisplayName(key))]
                                     && Lower(DisplayName(key)) == key)
        && (!world.filterMounted ==> o.effects == [])
      case None =>
        && o.effects == []
        && o.speech == name + " category is not available. Available categories are: " + AvailableList()
  {
    var r := Resolve(Lower(name));
    if r.Some? {
      DisplayNamesRoundTrip(r.value);
    }
  }


  /** The catalog item a product command acts on, when the catalog answered
      with a non-empty list and the matcher found one. */
  function Target(productName: string, world: World): Option<Item> {
    match world.catalog
    case CatalogFailed => None
    case CatalogBody(items) =>
      if items.None? || items.value == [] then None
      else MatchShortestFirst(Lower(productName), items.value)
  }

  /** A product command writes at most once, and only for the matched catalog
      item: the write is its first effect, and it writes exactly when an item
      matched and either no check runs (cart add), the check's response was not
      `ok`, or the check let it through. */
  lemma ProductWrites(a: ProductAction, productName: string, world: World)
    ensures var o := ProductCommand(a, productName, world);
      var t := Target(productName, world);
      && (!NoWrites(o) <==> WritesTarget(a, t, world.listing))
      && (!NoWrites(o) ==> o.effects[0] == WriteRequest(a, t.value.id)
                           && forall k :: 1 <= k < |o.effects| ==> !IsWrite(o.effects[k]))
  {
    var t := Target(productName, world);
    ProductCommandShape(a, productName, world);
    if WritesTarget(a, t, world.listing) {
      assert IsWrite(WriteRequest(a, t.value.id));
    }
  }

  /** An item matched and either no check runs (cart add), the check's
      response was not `ok`, or the check let the write through. */
  predicate WritesTarget(a: ProductAction, t: Option<Item>, listing: ListingReply) {
    t.Some? && (a == AddToCart || listing.ListingNotOk?
                || (listing.ListingOk? && Proceeds(a, t.value.id, listing.ids)))
  }

  lemma ProductCommandShape(a: ProductAction, productName: string, world: World)
    ensures var t := Target(productName, world);
      var o := ProductCommand(a, productName, world);
      && (WritesTarget(a, t, world.listing) ==> o == Write(a, t.value, world.write))
      && (!WritesTarget(a, t, world.listing) ==> o.effects == [])
  {
    var t := Target(productName, world);
    if world.catalog.CatalogBody? && world.catalog.items.Some? && world.catalog.items.value != [] {
      assert ProductCommand(a, productName, world) == ProductFound(a, productName, t, world);
      FoundShape(a, productName, t, world);
    }
  }

  lemma FoundShape(a: ProductAction, productName: string, t: Option<Item>, world: World)
    ensures var o := ProductFound(a, productName, t, world);
      && (WritesTarget(a, t, world.listing) ==> o == Write(a, t.value, world.write))
      && (!WritesTarget(a, t, world.listing) ==> o.effects == [])
  {
  }

  /** With no catalog items, or none matching, the command only speaks. */
  lemma NothingMatchedNoWrite(a: ProductAction, productName: string, world: World)
    requires world.catalog.CatalogBody?
    ensures var o := ProductCommand(a, productName, world);
      var items := world.catalog.items;
      && (items.None? || items.value == [] ==> o == Say(NoProductsMessage(a)))
      && (Target(productName, world).None? ==> NoWrites(o))
      && (items.Some? && items.value != [] && Target(productName, world).None? ==>
            o == Say(productName + " is not available."))
  {
  }

  /** The membership guards: with the check answered, a cart removal of an
      item not in the cart, a wishlist add of an item already there and a
      wishlist removal of an item not there each speak the guard's sentence and
      send nothing; a failed check sends nothing either. */
  lemma MembershipGuards(a: ProductAction, productName: string, world: World)
    requires a != AddToCart && Target(productName, world).Some?
    ensures var o := ProductCommand(a, productName, world);
      var product := Target(productName, world).value;
      && (world.listing.ListingOk? && !Proceeds(a, product.id, world.listing.ids) ==>
            o == Say(GuardMessage(a, product.name)))
      && (world.listing.ListingFailed? ==> o == Say(CatchMessage(a)))
      && (world.listing.ListingNotOk? ==> o == Write(a, product, world.write))
  {
  }

  /** When some catalog item's lower-cased name is the lower-cased product name,
      the write goes to such an item, the first one in catalog order. */
  lemma ExactProductWritten(a: ProductAction, productName: string, world: World, i: nat)
    requires world.catalog.CatalogBody? && world.catalog.items.Some?
    requires i < |world.catalog.items.value| && Key(world.catalog.items.value[i]) == Lower(productName)
    ensures var t := Target(productName, world);
      var items := world.catalog.items.value;
      t.Some? && Key(t.value) == Lower(productName)
      && (exists k :: 0 <= k <= i && t.value == items[k]
            && forall j :: 0 <= j < k ==> Key(items[j]) != Lower(productName))
  {
    ExactNameWins(Lower(productName), world.catalog.items.value, i);
  }
}
