/**
 * How the newer voice assistant's `handleCommand` reads a transcript: it is
 * lower-cased, and an ordered chain of substring and prefix tests picks the
 * intent; the product and category branches then cut the name they need out
 * of the command.
 */
module CommandRules {
  import opened JsString
  import opened FirstMatch

  // ---------------------------------------------------------------------------
  // Classification

  datatype ProductAction = AddToCart | RemoveFromCart | AddToWishlist | RemoveFromWishlist

  datatype Intent =
    | GoHome
    | OpenCart
    | OpenWishlist
    | OpenProfile
    | Refresh
    | ShowAll(categoryName: string)
    | Product(action: ProductAction, productName: string)
    | NotUnderstood

  const CartAddPhrases: seq<string> := ["in my cart", "to cart", "in my card", "to card"]

  /** The rule chain of `handleCommand`, top to bottom. */
  const Rules: seq<Guard> := [
    AnyOf(["home"]),
    AnyOf(["open cart", "open card"]),
    AnyOf(["open wishlist", "open wish list"]),
    AnyOf(["profile"]),
    AnyOf(["refresh", "reload"]),
    Prefix("show all"),
    PrefixAndAnyOf("add", CartAddPhrases),
    PrefixAndAnyOf("remove", ["from my cart", "from my card"]),
    PrefixAndAnyOf("add", ["in my wishlist", "in my wish list"]),
    PrefixAndAnyOf("remove", ["from my wishlist", "from my wish list"])
  ]

  /** `cmd.replace(/^show all\s+/i, "").trim()` */
  function ShowAllName(cmd: string): string {
    Trim(StripLeadingWord(cmd, "show all"))
  }

  /** The cart-add branch strips a leading `add` and one trailing cart phrase,
      each only where a regular expression anchored to that end matches. */
  function CartAddName(cmd: string): string {
    Trim(StripCartPhrases(StripLeadingWord(cmd, "add")))
  }

  /** The four `/\s+<phrase>$/i` replacements, in the order they are applied. */
  function StripCartPhrases(s: string): string {
    StripTrailingPhrase(StripTrailingPhrase(StripTrailingPhrase(StripTrailingPhrase(
      s, "in my cart"), "to cart"), "in my card"), "to card")
  }

  /** The other product branches remove the FIRST occurrence of each literal, wherever it is. */
  function DropFirsts(cmd: string, word: string, phrase1: string, phrase2: string): string {
    Trim(ReplaceFirst(ReplaceFirst(ReplaceFirst(cmd, word), phrase1), phrase2))
  }

  /** "<word> <name> <phrase>" yields the name when the phrase occurs only at
      the end and the second phrase not at all. */
  lemma DropFirstsRoundTrip(word: string, name: string, phrase1: string, phrase2: string)
    requires name != [] && !IsSpace(name[0]) && !IsSpace(name[|name| - 1])
    requires forall j: nat :: OccursAt(" " + name + " " + phrase1, phrase1, j) ==> j == |name| + 2
    requires !Contains(" " + name + " ", phrase2)
    ensures DropFirsts(word + " " + name + " " + phrase1, word, phrase1, phrase2) == name
  {
    var rest := " " + name + " " + phrase1;
    assert word + " " + name + " " + phrase1 == word + rest;
    ReplacePrefixOf(word, rest);
    ReplaceAtEnd(" " + name + " ", phrase1);
    TrimPadded(name);
  }

  /** Unlike the anchored cart-add expressions, the literal is removed wherever
      it stands: "<word> <phrase> <name>" yields the name too. */
  lemma DropFirstsPhraseFirst(word: string, name: string, phrase1: string, phrase2: string)
    requires name != [] && !IsSpace(name[0]) && !IsSpace(name[|name| - 1])
    requires phrase1 != [] && !IsSpace(phrase1[0])
    requires !Contains("  " + name, phrase2)
    ensures DropFirsts(word + " " + phrase1 + " " + name, word, phrase1, phrase2) == name
  {
    PhraseFirstReplaced(word, name, phrase1, phrase2);
    TrimTwoBlanks(name);
  }

  /** The three replacements leave the name behind two blanks. */
  lemma PhraseFirstReplaced(word: string, name: string, phrase1: string, phrase2: string)
    requires phrase1 != [] && !IsSpace(phrase1[0])
    requires !Contains("  " + name, phrase2)
    ensures ReplaceFirst(ReplaceFirst(ReplaceFirst(word + " " + phrase1 + " " + name, word), phrase1), phrase2)
         == "  " + name
  {
    var rest := " " + phrase1 + " " + name;
    assert word + " " + phrase1 + " " + name == word + rest;
    ReplacePrefixOf(word, rest);
    ReplaceAfterBlank(phrase1, name);
  }

  /** The intent of rule `k` of `Rules` (`|Rules|` being the final `else`). */
  function IntentOfRule(k: nat, cmd: string): Intent {
    if k == 0 then GoHome
    else if k == 1 then OpenCart
    else if k == 2 then OpenWishlist
    else if k == 3 then OpenProfile
    else if k == 4 then Refresh
    else if k == 5 then ShowAll(ShowAllName(cmd))
    else if k == 6 then Product(AddToCart, CartAddName(cmd))
    else if k == 7 then Product(RemoveFromCart, DropFirsts(cmd, "remove", "from my cart", "from my card"))
    else if k == 8 then Product(AddToWishlist, DropFirsts(cmd, "add", "in my wishlist", "in my wish list"))
    else if k == 9 then Product(RemoveFromWishlist, DropFirsts(cmd, "remove", "from my wishlist", "from my wish list"))
    else NotUnderstood
  }

  /** The `if / else if` chain of `handleCommand` over the lower-cased
      command: the number of the branch it takes. */
  function Branch(cmd: string): nat {
    if Contains(cmd, "home") then 0
    else if Contains(cmd, "open cart") || Contains(cmd, "open card") then 1
    else if Contains(cmd, "open wishlist") || Contains(cmd, "open wish list") then 2
    else if Contains(cmd, "profile") then 3
    else if Contains(cmd, "refresh") || Contains(cmd, "reload") then 4
    else if StartsWith(cmd, "show all") then 5
    else if StartsWith(cmd, "add") && (Contains(cmd, "in my cart") || Contains(cmd, "to cart")
                                      || Contains(cmd, "in my card") || Contains(cmd, "to card")) then 6
    else if StartsWith(cmd, "remove") && (Contains(cmd, "from my cart") || Contains(cmd, "from my card")) then 7
    else if StartsWith(cmd, "add") && (Contains(cmd, "in my wishlist") || Contains(cmd, "in my wish list")) then 8
    else if StartsWith(cmd, "remove") && (Contains(cmd, "from my wishlist") || Contains(cmd, "from my wish list")) then 9
    else 10
  }

  /** Rule `j` of `Rules` holds exactly when the `j`-th test of the chain succeeds. */
  predicate BranchTest(j: nat, cmd: string) {
    if j == 0 then Contains(cmd, "home")
    else if j == 1 then Contains(cmd, "open cart") || Contains(cmd, "open card")
    else if j == 2 then Contains(cmd, "open wishlist") || Contains(cmd, "open wish list")
    else if j == 3 then Contains(cmd, "profile")
    else if j == 4 then Contains(cmd, "refresh") || Contains(cmd, "reload")
    else if j == 5 then StartsWith(cmd, "show all")
    else if j == 6 then StartsWith(cmd, "add") && (Contains(cmd, "in my cart") || Contains(cmd, "to cart")
                                                  || Contains(cmd, "in my card") || Contains(cmd, "to card"))
    else if j == 7 then StartsWith(cmd, "remove") && (Contains(cmd, "from my cart") || Contains(cmd, "from my card"))
    else if j == 8 then StartsWith(cmd, "add") && (Contains(cmd, "in my wishlist") || Contains(cmd, "in my wish list"))
    else StartsWith(cmd, "remove") && (Contains(cmd, "from my wishlist") || Contains(cmd, "from my wish list"))
  }

  lemma RuleIsBranchTest(j: nat, cmd: string)
    requires j < |Rules|
    ensures Holds(Rules[j], cmd) <==> BranchTest(j, cmd)
  {
    if j < 5 {
      RuleIsBranchTestFront(j, cmd);
    } else {
      RuleIsBranchTestBack(j, cmd);
    }
  }

  lemma RuleIsBranchTestFront(j: nat, cmd: string)
    requires j < 5
    ensures Holds(Rules[j], cmd) <==> BranchTest(j, cmd)
  {
    if j == 0 {
      assert Rules[0] == AnyOf(["home"]);
      IncludesOne(cmd, "home");
    } else if j == 1 {
      assert Rules[1] == AnyOf(["open cart", "open card"]);
      IncludesTwo(cmd, "open cart", "open card");
    } else if j == 2 {
      assert Rules[2] == AnyOf(["open wishlist", "open wish list"]);
      IncludesTwo(cmd, "open wishlist", "open wish list");
    } else if j == 3 {
      assert Rules[3] == AnyOf(["profile"]);
      IncludesOne(cmd, "profile");
    } else {
      assert Rules[4] == AnyOf(["refresh", "reload"]);
      IncludesTwo(cmd, "refresh", "reload");
    }
  }

  lemma RuleIsBranchTestBack(j: nat, cmd: string)
    requires 5 <= j < 10
    ensures Holds(Rules[j], cmd) <==> BranchTest(j, cmd)
  {
    if j == 5 {
      assert Rules[5] == Prefix("show all");
    } else if j == 6 {
      assert Rules[6] == PrefixAndAnyOf("add", CartAddPhrases);
      IncludesFour(cmd, "in my cart", "to cart", "in my card", "to card");
    } else if j == 7 {
      assert Rules[7] == PrefixAndAnyOf("remove", ["from my cart", "from my card"]);
      IncludesTwo(cmd, "from my cart", "from my card");
    } else if j == 8 {
      assert Rules[8] == PrefixAndAnyOf("add", ["in my wishlist", "in my wish list"]);
      IncludesTwo(cmd, "in my wishlist", "in my wish list");
    } else {
      assert Rules[9] == PrefixAndAnyOf("remove", ["from my wishlist", "from my wish list"]);
      IncludesTwo(cmd, "from my wishlist", "from my wish list");
    }
  }

  /** The branch the chain takes is the first rule of `Rules` that holds. */
  lemma BranchIsFirstFiring(cmd: string)
    ensures Branch(cmd) == FirstFiring(Rules, cmd)
  {
    var k := Branch(cmd);
    forall j | 0 <= j < |Rules|
      ensures Holds(Rules[j], cmd) <==> BranchTest(j, cmd)
    {
      RuleIsBranchTest(j, cmd);
    }
    assert forall j :: 0 <= j < k ==> !BranchTest(j, cmd);
    FirstFiringUnique(Rules, cmd, k);
  }

  /** `handleCommand`'s choice of what to do with the transcript `text`. */
  function Classify(text: string): (i: Intent)
    ensures i == IntentOfRule(FirstFiring(Rules, Lower(text)), Lower(text))
  {
    var cmd := Lower(text);
    BranchIsFirstFiring(cmd);
    IntentOfRule(Branch(cmd), cmd)
  }

  // ---------------------------------------------------------------------------
  // Properties

  /** The cart phrases a cart-add command may end with. */
  predicate EndsWithCartPhrase(s: string) {
    exists k :: 0 <= k < |CartAddPhrases| && EndsWith(s, CartAddPhrases[k])
  }

  /** "add <name> <phrase>" yields <name> for every cart phrase, as long as the
      name is trimmed and does not itself end in a cart phrase. */
  lemma CartAddNameRoundTrip(name: string, k: nat)
    requires k < |CartAddPhrases|
    requires name != [] && !IsSpace(name[0]) && !IsSpace(name[|name| - 1])
    requires !EndsWithCartPhrase(name)
    ensures CartAddName("add " + (name + " " + CartAddPhrases[k])) == name
  {
    StripOnePhrase(name, k);
    StripAddThenPhrase(name + " " + CartAddPhrases[k], name);
  }

  lemma StripAddThenPhrase(s: string, name: string)
    requires s != [] && !IsSpace(s[0])
    requires name == [] || (!IsSpace(name[0]) && !IsSpace(name[|name| - 1]))
    requires StripCartPhrases(s) == name
    ensures CartAddName("add " + s) == name
  {
    StripAdd(s);
    TrimNoop(name);
  }

  /** Of the four trailing-phrase replacements, exactly the one for the phrase
      the text ends with applies. */
  lemma StripOnePhrase(name: string, k: nat)
    requires k < |CartAddPhrases|
    requires name != [] && !IsSpace(name[|name| - 1])
    requires !EndsWithCartPhrase(name)
    ensures StripCartPhrases(name + " " + CartAddPhrases[k]) == name
  {
    NotCartPhrase(name);
    var phrase := CartAddPhrases[k];
    if k == 0 {
      assert phrase == "in my cart";
      StripInMyCart(name);
    } else if k == 1 {
      assert phrase == "to cart";
      StripToCart(name);
    } else if k == 2 {
      assert phrase == "in my card";
      StripInMyCard(name);
    } else {
      assert phrase == "to card";
      StripToCard(name);
    }
  }

  /** `/^add\s+/` removes "add " in front of a word. */
  lemma StripAdd(s: string)
    requires s != [] && !IsSpace(s[0])
    ensures StripLeadingWord("add " + s, "add") == s
  {
    var cmd := "add " + s;
    assert StartsWith(cmd, "add") && IsSpace(cmd[3]);
    assert cmd[3..] == " " + s;
    assert LeadingSpaces(" " + s) == 1 by {
      assert (" " + s)[1..] == s;
    }
  }

  lemma StripInMyCart(name: string)
    requires name != [] && !IsSpace(name[|name| - 1])
    requires !EndsWith(name, "to cart") && !EndsWith(name, "in my card") && !EndsWith(name, "to card")
    ensures StripCartPhrases(name + " " + "in my cart") == name
  {
    StripPhrase(name, "in my cart");
  }

  lemma StripToCart(name: string)
    requires name != [] && !IsSpace(name[|name| - 1])
    requires !EndsWith(name, "in my card") && !EndsWith(name, "to card")
    ensures StripCartPhrases(name + " " + "to cart") == name
  {
    KeepBefore(name + " " + "to cart", "in my cart", 6);
    StripPhrase(name, "to cart");
  }

  lemma StripInMyCard(name: string)
    requires name != [] && !IsSpace(name[|name| - 1])
    requires !EndsWith(name, "to card")
    ensures StripCartPhrases(name + " " + "in my card") == name
  {
    KeepBefore(name + " " + "in my card", "in my cart", 0);
    KeepBefore(name + " " + "in my card", "to cart", 0);
    StripPhrase(name, "in my card");
  }

  lemma StripToCard(name: string)
    requires name != [] && !IsSpace(name[|name| - 1])
    ensures StripCartPhrases(name + " " + "to card") == name
  {
    KeepBefore(name + " " + "to card", "in my cart", 0);
    KeepBefore(name + " " + "to card", "to cart", 0);
    KeepBefore(name + " " + "to card", "in my card", 6);
    StripPhrase(name, "to card");
  }

  lemma NotCartPhrase(name: string)
    requires !EndsWithCartPhrase(name)
    ensures !EndsWith(name, "in my cart") && !EndsWith(name, "to cart")
    ensures !EndsWith(name, "in my card") && !EndsWith(name, "to card")
  {
    assert CartAddPhrases[0] == "in my cart" && CartAddPhrases[1] == "to cart";
    assert CartAddPhrases[2] == "in my card" && CartAddPhrases[3] == "to card";
  }

  /** The phrase the command ends with is stripped, with the blank before it. */
  lemma StripPhrase(name: string, p: string)
    requires name != [] && !IsSpace(name[|name| - 1])
    ensures StripTrailingPhrase(name + " " + p, p) == name
  {
    var s := name + " " + p;
    assert EndsWith(s, p) && IsSpace(s[|s| - |p| - 1]);
    assert s[..|s| - |p|] == name + " ";
    assert TrailingSpaces(name + " ") == 1 by {
      assert (name + " ")[..|name|] == name;
    }
  }

  /** A phrase the text does not end with leaves it alone. */
  lemma KeepName(name: string, p: string)
    requires !EndsWith(name, p)
    ensures StripTrailingPhrase(name, p) == name
  {
  }

  /** A phrase that differs from the end of `s` at distance `d` from the end leaves it alone. */
  lemma KeepBefore(s: string, p: string, d: nat)
    requires d < |p| && (d < |s| ==> s[|s| - 1 - d] != p[|p| - 1 - d])
    ensures StripTrailingPhrase(s, p) == s
  {
    if |p| <= |s| {
      assert s[|s| - |p|..][|p| - 1 - d] == s[|s| - 1 - d];
    }
  }
}
