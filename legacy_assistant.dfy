/**
 * The older voice assistant (`voiceAssistant.js`): a shorter rule chain with a
 * single cart phrase test that needs a space before "open cart", a product
 * name cut out by removing the first occurrence of each literal, the
 * three-stage matcher over the catalog in its own order, and a wishlist add
 * that toggles without checking the wishlist first.
 */
module LegacyAssistant {
  import opened Wrappers
  import opened JsString
  import opened FirstMatch
  import opened Storefront
  import opened Matcher
  import CR = CommandRules
  import VA = VoiceAssistant
  import VS = VoiceSession

  // ---------------------------------------------------------------------------
  // Classification

  /** The rule chain of `handleCommand`, top to bottom. */
  const Rules: seq<Guard> := [
    AnyOf(["home"]),
    AnyOf([" open cart"]),
    AnyOf(["open wishlist"]),
    AnyOf(["profile"]),
    PrefixAndAnyOf("add", ["in my cart", "to cart"]),
    PrefixAndAnyOf("add", ["in my wishlist"])
  ]

  /** `cmd.replace("add", "").replace("in my cart", "").replace("to cart", "").trim()` */
  function CartName(cmd: string): string {
    Trim(ReplaceFirst(ReplaceFirst(ReplaceFirst(cmd, "add"), "in my cart"), "to cart"))
  }

  /** `cmd.replace("add", "").replace("in my wishlist", "").trim()` */
  function WishlistName(cmd: string): string {
    Trim(ReplaceFirst(ReplaceFirst(cmd, "add"), "in my wishlist"))
  }

  /** The intent of rule `k` of `Rules` (`|Rules|` being the final `else`). */
  function IntentOfRule(k: nat, cmd: string): CR.Intent {
    if k == 0 then CR.GoHome
    else if k == 1 then CR.OpenCart
    else if k == 2 then CR.OpenWishlist
    else if k == 3 then CR.OpenProfile
    else if k == 4 then CR.Product(CR.AddToCart, CartName(cmd))
    else if k == 5 then CR.Product(CR.AddToWishlist, WishlistName(cmd))
    else CR.NotUnderstood
  }

  /** The `if / else if` chain over the lower-cased command: the branch it takes. */
  function Branch(cmd: string): nat {
    if Contains(cmd, "home") then 0
    else if Contains(cmd, " open cart") then 1
    else if Contains(cmd, "open wishlist") then 2
    else if Contains(cmd, "profile") then 3
    else if StartsWith(cmd, "add") && (Contains(cmd, "in my cart") || Contains(cmd, "to cart")) then 4
    else if StartsWith(cmd, "add") && Contains(cmd, "in my wishlist") then 5
    else 6
  }

  /** Rule `j` of `Rules` holds exactly when the `j`-th test of the chain succeeds. */
  predicate BranchTest(j: nat, cmd: string) {
    if j == 0 then Contains(cmd, "home")
    else if j == 1 then Contains(cmd, " open cart")
    else if j == 2 then Contains(cmd, "open wishlist")
    else if j == 3 then Contains(cmd, "profile")
    else if j == 4 then StartsWith(cmd, "add") && (Contains(cmd, "in my cart") || Contains(cmd, "to cart"))
    else StartsWith(cmd, "add") && Contains(cmd, "in my wishlist")
  }

  lemma RuleIsBranchTest(j: nat, cmd: string)
    requires j < |Rules|
    ensures Holds(Rules[j], cmd) <==> BranchTest(j, cmd)
  {
    if j == 0 {
      assert Rules[0] == AnyOf(["home"]);
      IncludesOne(cmd, "home");
    } else if j == 1 {
      assert Rules[1] == AnyOf([" open cart"]);
      IncludesOne(cmd, " open cart");
    } else if j == 2 {
      assert Rules[2] == AnyOf(["open wishlist"]);
      IncludesOne(cmd, "open wishlist");
    } else if j == 3 {
      assert Rules[3] == AnyOf(["profile"]);
      IncludesOne(cmd, "profile");
    } else if j == 4 {
      assert Rules[4] == PrefixAndAnyOf("add", ["in my cart", "to cart"]);
      IncludesTwo(cmd, "in my cart", "to cart");
    } else {
      assert Rules[5] == PrefixAndAnyOf("add", ["in my wishlist"]);
      IncludesOne(cmd, "in my wishlist");
    }
  }

  /** The branch the chain takes is the first rule of `Rules` that holds. */
  lemma BranchIsFirstFiring(cmd: string)
    ensures Branch(cmd) == FirstFiring(Rules, cmd)
  {
    var k := Branch(cmd);
    forall j | 0 <= j < |Rules|
      ensures Holds(Rules[j], cmd) <==> BranchTest(j, cmd)
    {
      RuleIsBranchTest(j, cmd);
    }
    assert forall j :: 0 <= j < k ==> !BranchTest(j, cmd);
    FirstFiringUnique(Rules, cmd, k);
  }

  /** `handleCommand`'s choice of what to do with the transcript `text`. */
  function Classify(text: string): (i: CR.Intent)
    ensures i == IntentOfRule(FirstFiring(Rules, Lower(text)), Lower(text))
  {
    var cmd := Lower(text);
    BranchIsFirstFiring(cmd);
    IntentOfRule(Branch(cmd), cmd)
  }

  // ---------------------------------------------------------------------------
  // Carrying the intent out

  /** What the older `handleCommand` depends on outside itself. */
  datatype World = World(catalog: CatalogReply, write: WriteReply)

  /** The catalog item a product command acts on: the first stage's first
      match in catalog order, when the catalog has items. */
  function Target(productName: string, world: World): Option<Item> {
    match world.catalog
    case CatalogFailed => None
    case CatalogBody(items) =>
      if items.None? || items.value == [] then None
      else MatchInOrder(Lower(productName), items.value)
  }

  /** The cart-add and wishlist-add branches: fetch the catalog, match, write. */
  function ProductCommand(a: CR.ProductAction, productName: string, world: World): Outcome
    requires a == CR.AddToCart || a == CR.AddToWishlist
  {
    match world.catalog
    case CatalogFailed => Say(VA.CatchMessage(a))
    case CatalogBody(items) =>
      if items.None? || items.value == [] then Say("No products available.")
      else
        var found := MatchInOrder(Lower(productName), items.value);
        if found.None? then Say(productName + " is not available.")
        else VA.Write(a, found.value, world.write)
  }

  function Perform(i: CR.Intent, world: World): Outcome {
    match i
    case GoHome => Outcome("Opening home page", [Navigate("/")])
    case OpenCart => Outcome("Opening cart", [Navigate("/cart")])
    case OpenWishlist => Outcome("Opening wishlist", [Navigate("/wishlist")])
    case OpenProfile => Outcome("Opening profile", [Navigate("/profile")])
    case Product(a, name) =>
      if a == CR.AddToCart || a == CR.AddToWishlist then ProductCommand(a, name, world)
      else Say("Sorry, I did not understand.")
    case _ => Say("Sorry, I did not understand.")
  }

  /** `handleCommand(text)` */
  function HandleCommand(text: string, world: World): Outcome {
    Perform(Classify(text), world)
  }

  /** `startListening` and the recognition's `onresult` event: without speech
      recognition only the refusal is spoken; otherwise, with interim results
      off, the first result's transcript is handled and the rest of the event
      is never read. */
  function Listen(supported: bool, results: seq<VS.RecognitionResult>, world: World): Outcome
    requires results != []
  {
    if !supported then Say(VS.UnsupportedMessage)
    else HandleCommand(results[0].transcript, world)
  }

  // ---------------------------------------------------------------------------
  // Properties

  /** Only the first result of an event is handled: the outcome is that of
      `handleCommand` on its transcript, whatever results follow it. */
  lemma LaterResultsIgnored(results: seq<VS.RecognitionResult>, more: seq<VS.RecognitionResult>, world: World)
    requires results != []
    ensures Listen(true, results + more, world) == HandleCommand(results[0].transcript, world)
    ensures Listen(true, results + more, world) == Listen(true, results, world)
    ensures Listen(false, results + more, world) == Say(VS.UnsupportedMessage)
  {
  }

  /** Classification yields only the intents the older chain has. */
  lemma ClassifyRange(text: string)
    ensures var i := Classify(text);
      !i.Refresh? && !i.ShowAll?
      && (i.Product? ==> i.action == CR.AddToCart || i.action == CR.AddToWishlist)
  {
  }

  /** A command that lower-cases to "open cart" is not understood by the older
      chain, whose test needs a space before "open"; the newer chain opens the cart. */
  lemma BareOpenCart(text: string, world: World)
    requires Lower(text) == "open cart"
    ensures Classify(text) == CR.NotUnderstood
    ensures HandleCommand(text, world) == Say("Sorry, I did not understand.")
    ensures CR.Classify(text) == CR.OpenCart
  {
    BareOpenCartBranches();
  }

  lemma BareOpenCartBranches()
    ensures Branch("open cart") == 6
    ensures CR.Branch("open cart") == 1
  {
    BareOpenCartMisses();
    assert OccursAt("open cart", "open cart", 0);
    ContainsAt("open cart", "open cart", 0);
  }

  lemma BareOpenCartMisses()
    ensures !Contains("open cart", "home") && !Contains("open cart", " open cart")
    ensures !Contains("open cart", "open wishlist") && !Contains("open cart", "profile")
    ensures !StartsWith("open cart", "add")
  {
    MissingChar("open cart", "home", 0);
    TooLong("open cart", " open cart");
    assert "open cart"[0] != "add"[0];
    BareOpenCartMissesLetters();
  }

  lemma BareOpenCartMissesLetters()
    ensures !Contains("open cart", "open wishlist") && !Contains("open cart", "profile")
  {
    assert 'w' !in "open cart";
    MissingChar("open cart", "open wishlist", 5);
    assert 'f' !in "open cart";
    MissingChar("open cart", "profile", 3);
  }

  /** The cart-add branch only runs on commands starting with "add", so the
      "add" it removes is always that leading one; the two cart phrases are
      then removed wherever they first occur. */
  lemma CartNameDropsLeadingAdd(cmd: string)
    requires Branch(cmd) == 4
    ensures StartsWith(cmd, "add")
    ensures CartName(cmd) == Trim(ReplaceFirst(ReplaceFirst(cmd[3..], "in my cart"), "to cart"))
  {
    ReplaceFirstPrefix(cmd, "add");
  }

  /** A product command writes exactly when the catalog has items and one
      matches, and then writes for that item, with no membership check: a
      wishlist add always toggles. */
  lemma ProductWrites(a: CR.ProductAction, productName: string, world: World)
    requires a == CR.AddToCart || a == CR.AddToWishlist
    ensures var o := ProductCommand(a, productName, world);
      var t := Target(productName, world);
      && (!NoWrites(o) <==> t.Some?)
      && (t.Some? ==> o.effects[0] == VA.WriteRequest(a, t.value.id) && t.value in world.catalog.items.value)
  {
    var o := ProductCommand(a, productName, world);
    var t := Target(productName, world);
    if t.Some? {
      assert IsWrite(o.effects[0]);
    }
  }

  /** With the items missing or empty the command says "No products
      available." and sends nothing. */
  lemma NoProducts(a: CR.ProductAction, productName: string, world: World)
    requires a == CR.AddToCart || a == CR.AddToWishlist
    requires world.catalog.CatalogBody? && (world.catalog.items.None? || world.catalog.items.value == [])
    ensures ProductCommand(a, productName, world) == Say("No products available.")
    ensures NoWrites(ProductCommand(a, productName, world))
  {
  }

  // ---------------------------------------------------------------------------
  // The catalog route of the cart-add branch

  /** The route prefixes the server mounts. */
  const MountedRoutes: seq<string> := ["/api/item", "/api/user", "/api/cart"]

  /** A path some mounted router is asked to answer: its prefix, followed by
      nothing or by a further segment. */
  predicate Served(path: string) {
    exists k :: 0 <= k < |MountedRoutes| && (path == MountedRoutes[k] || StartsWith(path, MountedRoutes[k] + "/"))
  }

  /** The catalog reply a fetch of `path` yields: the server's answer for a
      served path; for any other path the not-found page, which is not JSON,
      so reading the body fails. */
  function Fetched(path: string, served: CatalogReply): CatalogReply {
    if Served(path) then served else CatalogFailed
  }

  /** The path the cart-add branch fetches, as written. */
  const CartCatalogPathAsWritten := "/api/items/allitems"

  /** The path the wishlist branch fetches, and the cart-add branch evidently means. */
  const CatalogPath := "/api/item/allitems"

  /** As written, the cart-add branch asks for a path no router serves, so it
      always ends in the catch message, whatever the catalog holds. */
  lemma CartAddAsWrittenFails(productName: string, world: World)
    ensures ProductCommand(CR.AddToCart, productName, World(Fetched(CartCatalogPathAsWritten, world.catalog), world.write))
      == Say("Something went wrong while adding the product.")
  {
    forall k | 0 <= k < |MountedRoutes|
      ensures !(CartCatalogPathAsWritten == MountedRoutes[k] || StartsWith(CartCatalogPathAsWritten, MountedRoutes[k] + "/"))
    {
      NotUnderRoute(k);
    }
  }

  lemma NotUnderRoute(k: nat)
    requires k < |MountedRoutes|
    ensures CartCatalogPathAsWritten != MountedRoutes[k]
    ensures !StartsWith(CartCatalogPathAsWritten, MountedRoutes[k] + "/")
  {
    if k == 0 {
      assert (MountedRoutes[0] + "/")[9] == '/' && CartCatalogPathAsWritten[9] == 's';
    } else {
      assert MountedRoutes[k][5] != 'i' && CartCatalogPathAsWritten[5] == 'i';
    }
  }

  /** The catalog path the model uses is served, so the product branches see
      the server's catalog. */
  lemma CatalogServed(world: World)
    ensures Served(CatalogPath)
    ensures Fetched(CatalogPath, world.catalog) == world.catalog
  {
    assert CatalogPath[..|MountedRoutes[0] + "/"|] == MountedRoutes[0] + "/";
  }
}
