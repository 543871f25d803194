# RSmart voice commands and form guards, modelled in Dafny

RSmart is a storefront: a React front end with a voice assistant, and an Express back end. This project models the deterministic parts of it:

- **The voice assistant of `voiceAssistant.jsx`.**
  - A command classifier: a lower-cased transcript is run through an ordered chain of `includes`/`startsWith` rules, and the first rule that fires decides the intent.
  - A category resolver.
  - The fuzzy product matcher. It sorts the catalog by name length in place, then tries exact match, then two-way substring match, then word overlap.
  - The dispatcher: what is spoken, and which cart, wishlist, filter or navigation effects follow.
  - The capture session: the recognition handle, the debounce timeout and the "last processed command" memo.
- **The older `voiceAssistant.js`**, with its smaller rule set and its unsorted matcher.
- **The voice rule chain of `Navbar.jsx`**, plus its page predicates and cart counter.
- **The profile form** of `Profile.jsx`: field validation, input changes, the save-guard sequence and the update payload.
- **The sign-up page** of `SignUp.jsx`: the OTP precondition, the submit guards, and the mapping from back-end error to message.
- **The OTP dialog** of `Otp.jsx`: send and verify, the countdown, and the button predicates.
- **The `validateUser` middleware** of the back end: Bearer-header check, token extraction, and the mapping from error to status.

Modules:

- `JsString`: the JavaScript string operations these rely on.
  - `toLowerCase`, restricted to ASCII.
  - `trim`, with JavaScript's white-space set.
  - `includes`/`indexOf`, `startsWith`/`endsWith`.
  - `replace(str, "")`, which removes the first occurrence.
  - The anchored regular-expression strips `/^word\s+/` and `/\s+phrase$/`.
  - `split` and `join`.
- `FirstMatch`: the declarative reading of an `if / else if` chain. It is an ordered guard table together with the index of the first guard that holds. Every classifier is proved equal to it.
- `Storefront`: items, effects and outcomes, shared by the three dispatchers.
- `Matcher`: the three match stages.
  - `find`, and the stable insertion sort by name length, as a function and as an in-place method on an array.
  - Both matchers.
  - The proof that "sort, then `find`" returns the shortest matching item, earliest among equals.
- `Categories`, `CommandRules`, `VoiceAssistant` and `VoiceSession`: `voiceAssistant.jsx`.
- `LegacyAssistant`: `voiceAssistant.js`.
- `Navbar`, `Profile`, `SignUp` and `Otp`: the components of the same names.
- `UserMiddleware`: `user.middleware.js`.
- `Wrappers`: `Option`.

How external behaviour is modelled:

- Network replies, the token verifier, the presence of the category-filter callback and browser support for speech recognition are parameters.
- Effects such as requests, navigation, alerts and spoken sentences are recorded in outcome values or in sequence fields of the classes.
- Timers are explicit steps: `Tick`, `FireDebounce` and `FireMemoReset`.
- React components whose handlers update state become classes. Their fields are the component's state, and their methods are the handlers.

## Model

| member | source | states |
|---|---|---|
| JsString.Lower | frontend/src/utils/voiceAssistant.jsx:36 | lower-casing keeps the length and folds exactly the ASCII capitals A-Z, leaving every other character alone |
| JsString.LowerIdempotent | frontend/src/utils/voiceAssistant.jsx:36 | a lower-cased command holds no upper-case letter, and lower-casing it again changes nothing |
| JsString.IndexOf | frontend/src/utils/voiceAssistant.jsx:201 | the index found is an occurrence with none before it; no index means no occurrence anywhere |
| JsString.ReplaceFirst | frontend/src/utils/voiceAssistant.jsx:201 | `replace(pat, "")` leaves a string without the pattern unchanged, and otherwise cuts exactly the first occurrence out |
| JsString.ReplaceFirstPrefix | frontend/src/utils/voiceAssistant.js:46 | removing a pattern the string starts with drops that prefix |
| JsString.ReplaceFirstAt | frontend/src/utils/voiceAssistant.jsx:201 | removing a pattern whose first occurrence is at i splices out positions i to i+len |
| JsString.ReplacePrefixOf | frontend/src/utils/voiceAssistant.jsx:279 | removing p from p + rest gives rest |
| JsString.ReplaceAtEnd | frontend/src/utils/voiceAssistant.jsx:279 | a pattern occurring only at the end is removed from the end |
| JsString.ReplaceAfterBlank | frontend/src/utils/voiceAssistant.jsx:359 | removing p from " p name" leaves two blanks before the name |
| JsString.Trim | backend/middleware/user.middleware.js:15 | the trimmed string is no longer, and neither starts nor ends with white space |
| JsString.TrimCuts | backend/middleware/user.middleware.js:15 | trim returns a slice with only white space cut from either side |
| JsString.BlankIffAllSpace | frontend/src/components/Profile.jsx:92 | `!s.trim()` holds exactly when every character is white space |
| JsString.TrimIdempotent | frontend/src/utils/voiceAssistant.jsx:496 | trimming twice is trimming once |
| JsString.TrimNoop | frontend/src/utils/voiceAssistant.jsx:127 | a string without outer white space is its own trim |
| JsString.TrimPadded | frontend/src/utils/voiceAssistant.jsx:201 | a single blank on each side of a trimmed name is cut away |
| JsString.TrimTwoBlanks | frontend/src/utils/voiceAssistant.jsx:201 | two leading blanks before a trimmed name are cut away |
| JsString.StripLeadingWord | frontend/src/utils/voiceAssistant.jsx:122 | `/^add\s+/` leaves a string unchanged unless it starts with the word followed by white space |
| JsString.StripLeadingWordCuts | frontend/src/utils/voiceAssistant.jsx:122 | when it applies, it removes the word and the whole white-space run after it, and nothing else |
| JsString.StripTrailingPhrase | frontend/src/utils/voiceAssistant.jsx:123-126 | `/\s+phrase$/` leaves a string unchanged unless it ends with white space and the phrase |
| JsString.StripTrailingPhraseCuts | frontend/src/utils/voiceAssistant.jsx:123-126 | when it applies, it removes the phrase and the whole white-space run before it, and nothing else |
| JsString.SplitOn | frontend/src/utils/voiceAssistant.jsx:160 | `split(' ')` gives at least one piece, none containing the separator |
| JsString.SplitJoin | frontend/src/utils/voiceAssistant.jsx:160 | joining the pieces of a split with the separator gives back the string |
| JsString.Join | frontend/src/components/SignUp.jsx:110 | joining a single element gives that element |
| JsString.JoinAppend | frontend/src/components/SignUp.jsx:110 | joining one more element appends the separator and that element |
| FirstMatch.FirstFiring | frontend/src/utils/voiceAssistant.jsx:35-439 | the branch taken is a guard that holds and no earlier guard holds, or past the end when none does |
| FirstMatch.FirstFiringUnique | frontend/src/utils/voiceAssistant.jsx:35-439 | any index with that property is the branch taken |
| FirstMatch.IncludesTwo | frontend/src/utils/voiceAssistant.jsx:41 | a two-phrase `includes` disjunction holds iff one of the phrases occurs |
| FirstMatch.IncludesFour | frontend/src/utils/voiceAssistant.jsx:121 | a four-phrase `includes` disjunction holds iff one of the phrases occurs |
| Categories.ExactIn | frontend/src/utils/voiceAssistant.jsx:79-82 | the exact search finds the term iff the term is in the list |
| Categories.OverlapIn | frontend/src/utils/voiceAssistant.jsx:84-89 | the second search returns the first entry that contains or is contained in the term, and none iff no entry overlaps |
| Categories.Resolve | frontend/src/utils/voiceAssistant.jsx:79-94 | a listed term resolves to itself, any other term to the first overlapping category, and none iff nothing overlaps |
| Categories.Capitalize | frontend/src/utils/voiceAssistant.jsx:96-105 | the display name differs from the key only in its first letter's case |
| Categories.DisplayNamesRoundTrip | frontend/src/utils/voiceAssistant.jsx:96-108 | every category has a display name, which is the key capitalised and lower-cases back to the key |
| Categories.DisplayNamesKeys | frontend/src/utils/voiceAssistant.jsx:73-105 | the display table covers exactly the eight categories |
| CommandRules.RuleIsBranchTest | frontend/src/utils/voiceAssistant.jsx:38-439 | each guard of the rule table holds iff the corresponding `if` condition holds |
| CommandRules.BranchIsFirstFiring | frontend/src/utils/voiceAssistant.jsx:38-439 | the `if / else if` chain takes the first branch whose guard holds |
| CommandRules.Classify | frontend/src/utils/voiceAssistant.jsx:35-439 | the intent is the one of the first rule that fires on the lower-cased command |
| CommandRules.CartAddNameRoundTrip | frontend/src/utils/voiceAssistant.jsx:120-127 | "add NAME in my cart" (or either phrase for cart, or card) yields exactly NAME for any trimmed name not itself ending in a cart phrase |
| CommandRules.StripAddThenPhrase | frontend/src/utils/voiceAssistant.jsx:122-127 | dropping the leading "add" and then the trailing phrases gives the trimmed name |
| CommandRules.StripOnePhrase | frontend/src/utils/voiceAssistant.jsx:123-126 | exactly one trailing cart phrase and its white space are dropped |
| CommandRules.StripAdd | frontend/src/utils/voiceAssistant.jsx:122 | only the leading "add " is removed |
| CommandRules.StripInMyCart | frontend/src/utils/voiceAssistant.jsx:123 | a trailing "in my cart" is dropped and the later strips keep the rest |
| CommandRules.StripToCart | frontend/src/utils/voiceAssistant.jsx:124 | a trailing "to cart" is dropped and the later strips keep the rest |
| CommandRules.StripInMyCard | frontend/src/utils/voiceAssistant.jsx:125 | a trailing "in my card" is dropped and the later strip keeps the rest |
| CommandRules.StripToCard | frontend/src/utils/voiceAssistant.jsx:126 | a trailing "to card" is dropped |
| CommandRules.StripPhrase | frontend/src/utils/voiceAssistant.jsx:123-126 | "NAME phrase" loses the phrase and the blank |
| CommandRules.KeepName | frontend/src/utils/voiceAssistant.jsx:123-126 | a name not ending in the phrase is left alone |
| CommandRules.KeepBefore | frontend/src/utils/voiceAssistant.jsx:123-126 | a string differing from the phrase in one of its last characters is left alone |
| CommandRules.NotCartPhrase | frontend/src/utils/voiceAssistant.jsx:123-126 | a name ending in no cart phrase ends in none of the four |
| CommandRules.DropFirstsRoundTrip | frontend/src/utils/voiceAssistant.jsx:201 | "remove NAME from my cart" yields NAME when the phrase does not occur earlier and the second phrase does not occur at all |
| CommandRules.DropFirstsPhraseFirst | frontend/src/utils/voiceAssistant.jsx:279 | "add in my wishlist NAME" also yields NAME, since the phrases are removed wherever they occur |
| Matcher.LongOnly | frontend/src/utils/voiceAssistant.jsx:160 | the kept query words are exactly those longer than two characters |
| Matcher.FindIndex | frontend/src/utils/voiceAssistant.jsx:146-148 | `find` stops at the first element satisfying the test |
| Matcher.Find | frontend/src/utils/voiceAssistant.jsx:146-148 | `find` returns an element of the array that passes the test, and undefined iff none passes |
| Matcher.FindAppend | frontend/src/utils/voiceAssistant.jsx:146-148 | `find` on a concatenation consults the second part only when the first has no match |
| Matcher.MatchInOrder | frontend/src/utils/voiceAssistant.js:62-81 | the unsorted matcher returns a catalog element, none iff no stage matches any item, and an exact-name item whenever one exists |
| Matcher.MatchInOrderPicks | frontend/src/utils/voiceAssistant.js:62-81 | the unsorted matcher returns the first item in catalog order passing the exact test; failing any, the first passing the substring test; failing those, the first sharing a long word |
| Matcher.InsertPermutes | frontend/src/utils/voiceAssistant.jsx:141 | inserting one item adds exactly that item |
| Matcher.InsertAtPoint | frontend/src/utils/voiceAssistant.jsx:141 | insertion places the item after every item no longer than it and before every longer one |
| Matcher.InsertOrdered | frontend/src/utils/voiceAssistant.jsx:141 | inserting into a length-ordered list keeps it ordered |
| Matcher.SortedByLengthOrdered | frontend/src/utils/voiceAssistant.jsx:141 | the sort by name length gives an ordered permutation of the catalog |
| Matcher.SortByNameLength | frontend/src/utils/voiceAssistant.jsx:141 | the in-place sort leaves the array equal to the stable sort of its old contents |
| Matcher.InsertLast | frontend/src/utils/voiceAssistant.jsx:141 | one insertion pass moves element i into the sorted prefix and leaves the suffix alone |
| Matcher.Preferred | frontend/src/utils/voiceAssistant.jsx:141-148 | the preferred match is a matching item of least name length, earliest among those; none iff nothing matches |
| Matcher.FindInserted | frontend/src/utils/voiceAssistant.jsx:141-148 | `find` over an ordered list with one more item inserted is decided by the old result and the new item |
| Matcher.FindSortedIsPreferred | frontend/src/utils/voiceAssistant.jsx:141-148 | `find` after the stable sort returns the shortest matching item, the earliest in catalog order among equals |
| Matcher.MatchShortestFirst | frontend/src/utils/voiceAssistant.jsx:141-165 | the sorted matcher returns a catalog element or none |
| Matcher.MatchShortestFirstPicks | frontend/src/utils/voiceAssistant.jsx:141-165 | it returns the shortest exact match, else the shortest substring match, else the shortest word-overlap match |
| Matcher.ExactNameWins | frontend/src/utils/voiceAssistant.jsx:146-148 | if some item's name equals the query, an item with that name is returned, no later than the first such item in the catalog |
| Matcher.EmptyCatalogNoMatch | frontend/src/utils/voiceAssistant.jsx:141-165 | an empty catalog matches nothing, sorted or not |
| VoiceAssistant.Write | frontend/src/utils/voiceAssistant.jsx:174-196 | the effects are the one cart or wishlist request, followed by the update event exactly when the reply is ok; an ok reply speaks the success sentence, a refused one the "Failed to ..." sentence, a thrown request the "Something went wrong ..." sentence |
| VoiceAssistant.CaseInsensitive | frontend/src/utils/voiceAssistant.jsx:36 | two transcripts with the same lower-case form are handled identically |
| VoiceAssistant.HomeWins | frontend/src/utils/voiceAssistant.jsx:38-40 | any command containing "home" navigates to "/" and does nothing else |
| VoiceAssistant.ShowAllHomeGoesHome | frontend/src/utils/voiceAssistant.jsx:38-40 | "show all home" goes home instead of filtering by the Home category |
| VoiceAssistant.ShowAllCategories | frontend/src/utils/voiceAssistant.jsx:56-70 | "show all categories" clears the filter, or asks for the home page when no filter is mounted, without consulting the category list |
| VoiceAssistant.ShowAllResolves | frontend/src/utils/voiceAssistant.jsx:72-116 | a resolved category sets the filter to its display name when mounted; an unresolved one lists all categories and sets nothing |
| VoiceAssistant.ProductWrites | frontend/src/utils/voiceAssistant.jsx:130-434 | a product command writes iff a catalog item matched and its membership guard lets it through; the write targets that item and is the only write |
| VoiceAssistant.ProductCommandShape | frontend/src/utils/voiceAssistant.jsx:130-434 | a product command is either the write for the matched item or has no effects at all |
| VoiceAssistant.FoundShape | frontend/src/utils/voiceAssistant.jsx:167-196 | once the match is known, the command is the write or effect-free |
| VoiceAssistant.NothingMatchedNoWrite | frontend/src/utils/voiceAssistant.jsx:135-138 | an empty catalog speaks the no-products sentence; nothing matched means no write, and "NAME is not available." when the catalog had items |
| VoiceAssistant.MembershipGuards | frontend/src/utils/voiceAssistant.jsx:247-255 | wishlist add skips present items, remove operations skip absent ones, but only when the membership check succeeded |
| VoiceAssistant.ExactProductWritten | frontend/src/utils/voiceAssistant.jsx:141-148 | a catalog item named exactly as requested is the target, or an equally named item before it |
| VoiceSession.CollectAppend | frontend/src/utils/voiceAssistant.jsx:482-489 | the accumulated transcript of two batches is the concatenation of each batch's |
| VoiceSession.CollectNone | frontend/src/utils/voiceAssistant.jsx:482-489 | results of the other kind contribute nothing |
| VoiceSession.CollectOne | frontend/src/utils/voiceAssistant.jsx:482-489 | one result lands in the final or the interim transcript, as its flag says |
| VoiceSession.CollectTranscripts | frontend/src/utils/voiceAssistant.jsx:482-489 | the loop from `resultIndex` accumulates the final and the interim transcripts of the results from there on |
| VoiceSession.CommandOf | frontend/src/utils/voiceAssistant.jsx:495-496 | a command is taken iff the final transcript is not blank, and it is non-empty and trimmed |
| VoiceSession.Session.constructor | frontend/src/utils/voiceAssistant.jsx:442-459 | a new session has no handle, empty memo, nothing pending, nothing dispatched |
| VoiceSession.Session.Start | frontend/src/utils/voiceAssistant.jsx:454-471 | unsupported browsers get the spoken refusal; otherwise any prior handle is stopped before a fresh one becomes current |
| VoiceSession.Session.Stop | frontend/src/utils/voiceAssistant.jsx:540-545 | stopping stops the current handle, if any, and clears it |
| VoiceSession.Session.OnStart | frontend/src/utils/voiceAssistant.jsx:468-471 | listening starts and the shown text is cleared |
| VoiceSession.Session.OnEnd | frontend/src/utils/voiceAssistant.jsx:473-475 | listening stops and nothing else changes |
| VoiceSession.Session.OnError | frontend/src/utils/voiceAssistant.jsx:527-531 | listening stops, and the error is shown and spoken |
| VoiceSession.Session.OnResult | frontend/src/utils/voiceAssistant.jsx:477-525 | a final command equal to the memo is ignored; any other replaces the pending timeout; the memo is not touched |
| VoiceSession.Session.FireDebounce | frontend/src/utils/voiceAssistant.jsx:509-524 | the pending command is dispatched, becomes the memo, and schedules one memo reset |
| VoiceSession.Session.FireMemoReset | frontend/src/utils/voiceAssistant.jsx:520-523 | the memo reset clears the memo and the shown text |
| VoiceSession.StartTwice | frontend/src/utils/voiceAssistant.jsx:454-459 | after two starts the first recognition is stopped, the second is current, and every other issued handle is stopped |
| VoiceSession.RepeatDispatchedOnce | frontend/src/utils/voiceAssistant.jsx:495-524 | a final command heard twice before the timeout, and again while the memo holds it, is dispatched exactly once and leaves nothing pending |
| LegacyAssistant.RuleIsBranchTest | frontend/src/utils/voiceAssistant.js:33-45 | each guard of the older rule table holds iff the corresponding `if` condition holds |
| LegacyAssistant.BranchIsFirstFiring | frontend/src/utils/voiceAssistant.js:33-183 | the older chain takes the first branch whose guard holds |
| LegacyAssistant.Classify | frontend/src/utils/voiceAssistant.js:31-183 | the intent is that of the first older rule firing on the lower-cased command |
| LegacyAssistant.ClassifyRange | frontend/src/utils/voiceAssistant.js:33-183 | the older assistant never refreshes or filters, and only adds to cart or wishlist |
| LegacyAssistant.BareOpenCart | frontend/src/utils/voiceAssistant.js:36 | a bare "open cart" is not understood by the older assistant, while the newer one opens the cart |
| LegacyAssistant.BareOpenCartBranches | frontend/src/utils/voiceAssistant.js:33-45 | "open cart" falls through every older rule yet hits the newer second rule |
| LegacyAssistant.CartNameDropsLeadingAdd | frontend/src/utils/voiceAssistant.js:46 | in the cart-add branch the first "add" removed is the leading one |
| LegacyAssistant.ProductWrites | frontend/src/utils/voiceAssistant.js:62-180 | the older assistant writes iff the unsorted matcher found an item, toggling the wishlist with no membership check |
| LegacyAssistant.NoProducts | frontend/src/utils/voiceAssistant.js:52-55 | a missing or empty item list speaks "No products available." and writes nothing |
| LegacyAssistant.LaterResultsIgnored | frontend/src/utils/voiceAssistant.js:185-201 | an event's outcome is `handleCommand` on its first result's transcript, whatever results follow; without speech recognition only the refusal is spoken |
| LegacyAssistant.CartAddAsWrittenFails | frontend/src/utils/voiceAssistant.js:49 | as written, every cart add ends in the catch sentence, whatever the catalog holds |
| LegacyAssistant.NotUnderRoute | backend/server.js:40-42 | the path the cart add fetches lies under no mounted router |
| LegacyAssistant.CatalogServed | frontend/src/utils/voiceAssistant.js:117 | the catalog path the wishlist branch uses is served, so the catalog arrives unchanged |
| Navbar.RuleIsBranchTest | frontend/src/components/Navbar.jsx:89-101 | each navbar guard holds iff its `if` condition holds |
| Navbar.BranchIsFirstFiring | frontend/src/components/Navbar.jsx:88-126 | the navbar chain takes the first branch whose guard holds |
| Navbar.Classify | frontend/src/components/Navbar.jsx:87-127 | the navbar intent is that of the first rule firing on the lower-cased command |
| Navbar.WishlistBeforeHome | frontend/src/components/Navbar.jsx:91-95 | a command naming the wishlist opens it even when it also says "home" |
| Navbar.HomeAfterCartAndWishlist | frontend/src/components/Navbar.jsx:89-95 | the navbar goes home iff "home" occurs and neither "go to cart" nor "wishlist" does |
| Navbar.EmptyNameNoFetch | frontend/src/components/Navbar.jsx:102-103 | an empty product name is refused without a search |
| Navbar.FirstSearchResult | frontend/src/components/Navbar.jsx:104-125 | the search comes first; a null or empty result speaks "not available"; a cart add happens iff results came back, for the first result, posted under the body key `productId` |
| Navbar.PagesDisjoint | frontend/src/components/Navbar.jsx:58-59 | the auth pages are exactly "/login" and "/signup", and neither is the home page |
| Navbar.CartCountOf | frontend/src/components/Navbar.jsx:42 | the count is the number of cart items, 0 when the cart or its items are absent |
| Navbar.NavbarState.constructor | frontend/src/components/Navbar.jsx:7-9 | logged out, no user, count 0 |
| Navbar.NavbarState.FetchCartCount | frontend/src/components/Navbar.jsx:35-45 | only an ok reply changes the count |
| Navbar.NavbarState.FetchUserData | frontend/src/components/Navbar.jsx:14-33 | logged in iff the user came back; the cart count is fetched only for non-sellers |
| Profile.FormErrorsMeaning | frontend/src/components/Profile.jsx:88-124 | a field has an error iff its check fails, with that check's message |
| Profile.CollectedMeaning | frontend/src/components/Profile.jsx:88-124 | the error dictionary holds a field exactly when its check recorded a message |
| Profile.FirstNameAccepted | frontend/src/components/Profile.jsx:92-96 | the first name passes iff it is not blank and its untrimmed length is at least 3 |
| Profile.PaddedFirstName | frontend/src/components/Profile.jsx:92-96 | "  a" passes, since length is measured before trimming |
| Profile.EmailAccepted | frontend/src/components/Profile.jsx:98-102 | the e-mail passes iff it is not blank and has the unanchored shape non-space, "@", non-space, ".", non-space |
| Profile.EmailExamples | frontend/src/components/Profile.jsx:100 | "a@b" fails; "x a@b.c y" passes, because the pattern is unanchored |
| Profile.MobileAccepted | frontend/src/components/Profile.jsx:104-108 | the mobile number passes iff it is exactly ten decimal digits |
| Profile.PasswordRules | frontend/src/components/Profile.jsx:111-123 | both passwords empty: no error; else length at least 8 and the four look-aheads passing at one position; a mismatch is its own error |
| Profile.StrongPasswordKinds | frontend/src/components/Profile.jsx:116 | the look-aheads pass only when every kind occurs, and on a password without line terminators exactly then |
| Profile.SplitLinesRefused | frontend/src/components/Profile.jsx:116-117 | a password with its kinds on two lines (split by U+2028) contains every kind yet is refused with the character-class message |
| Profile.FormValidIffFieldsPass | frontend/src/components/Profile.jsx:125-126 | the form is valid iff no error was recorded, and the last name is never checked |
| Profile.CollectedEmpty | frontend/src/components/Profile.jsx:125-126 | no error was recorded iff every check passed |
| Profile.LastNameIgnored | frontend/src/components/Profile.jsx:88-126 | changing the last name changes no error |
| Profile.CheckFields | frontend/src/components/Profile.jsx:89-126 | the step-by-step error dictionary equals the specified one, and the verdict is its emptiness |
| Profile.Payload | frontend/src/components/Profile.jsx:154-165 | the payload carries the password only when typed, and the pending e-mail when set, else the form e-mail |
| Profile.SaveOrder | frontend/src/components/Profile.jsx:129-148 | the update is sent iff every field check passes, the current password is not blank and the e-mail is unchanged; each stop implies the earlier checks passed |
| Profile.VerifiedEmailSent | frontend/src/components/Profile.jsx:157 | after OTP confirmation the payload carries the new e-mail |
| Profile.ProfileForm.constructor | frontend/src/components/Profile.jsx:13-23 | the form starts from the loaded user with empty passwords and no errors |
| Profile.ProfileForm.HandleInputChange | frontend/src/components/Profile.jsx:74-86 | only the named field changes, and only that field's error is cleared, and only when set |
| Profile.ProfileForm.ValidateForm | frontend/src/components/Profile.jsx:88-127 | the errors become the field checks' messages, and the verdict is that there are none |
| Profile.ProfileForm.HandleUpdateProfile | frontend/src/components/Profile.jsx:129-148 | stops at the first failing guard, with the alert or OTP modal that guard raises |
| Profile.ProfileForm.ApplyStep | frontend/src/components/Profile.jsx:134-144 | a blank current password alerts; a changed e-mail opens the OTP modal with the e-mail pending |
| Profile.ProfileForm.HandleOtpVerified | frontend/src/components/Profile.jsx:211-215 | the modal closes and the update is sent with the pending e-mail |
| Profile.ProfileForm.HandleOtpCancel | frontend/src/components/Profile.jsx:217-220 | the modal closes and the pending e-mail is dropped |
| SignUp.ItemMessagesOf | frontend/src/components/SignUp.jsx:90-110 | each array element is mapped to its own message, in order |
| SignUp.Lookup | frontend/src/components/SignUp.jsx:111-120 | a key is found iff some entry has it, with that entry's value and truthiness |
| SignUp.Values | frontend/src/components/SignUp.jsx:117 | the text of the object's values, in order, whether truthy or not |
| SignUp.ItemMessageIsFirstMatch | frontend/src/components/SignUp.jsx:90-110 | an element's message is the sentence of the first phrase its message contains, else the raw message |
| SignUp.EmailTakenWins | frontend/src/components/SignUp.jsx:92-93 | "Email already exists" wins over every other phrase |
| SignUp.ListMessageAppend | frontend/src/components/SignUp.jsx:110 | the messages of an array are joined with ", " in order |
| SignUp.SingleItemMessage | frontend/src/components/SignUp.jsx:110 | a one-element array shows that element's message alone |
| SignUp.FieldsMessage | frontend/src/components/SignUp.jsx:86-120 | an object shows its e-mail entry when truthy, else its mobile entry when truthy, else the text of all values joined; any other shape shows "Signup failed" |
| SignUp.FalsyFieldJoined | frontend/src/components/SignUp.jsx:113-118 | a falsy e-mail value printed as "0" skips the e-mail branch and still appears in the joined values |
| SignUp.SubmitGuardOrder | frontend/src/components/SignUp.jsx:55-68 | the refusal is unverified OTP, then mismatched passwords, then an unparsable mobile number, in that order, and none iff all three pass |
| SignUp.SignUpPage.constructor | frontend/src/components/SignUp.jsx:8-21 | the six fields start empty; not a seller, not verified, modal closed |
| SignUp.SignUpPage.HandleChange | frontend/src/components/SignUp.jsx:31-33 | only the named field changes |
| SignUp.SignUpPage.SetSeller | frontend/src/components/SignUp.jsx:161-171 | only the seller flag changes |
| SignUp.SignUpPage.HandleSendOtp | frontend/src/components/SignUp.jsx:35-41 | the OTP modal opens iff e-mail, first name and mobile are filled; otherwise an alert |
| SignUp.SignUpPage.HandleOtpVerified | frontend/src/components/SignUp.jsx:43-47 | verified, modal closed, success alert |
| SignUp.SignUpPage.HandleOtpCancel | frontend/src/components/SignUp.jsx:49-51 | the modal closes and nothing else changes |
| SignUp.SignUpPage.HandleSubmit | frontend/src/components/SignUp.jsx:53-138 | a failing guard alerts and sends nothing; otherwise exactly the form's data is sent and the alert is the reply's message |
| Otp.ThrownMessage | frontend/src/components/Otp.jsx:50-55 | the reply's error when it has one, else the fallback |
| Otp.TimerRunsDown | frontend/src/components/Otp.jsx:13-20 | after n ticks the timer is its start minus n, never below 0 |
| Otp.VerifyEnabledSends | frontend/src/components/Otp.jsx:132 | when the verify button is enabled, pressing it sends a request |
| Otp.OtpDialog.constructor | frontend/src/components/Otp.jsx:4-11 | empty code, not sent, no error, not busy, timer 0 |
| Otp.OtpDialog.SetOtp | frontend/src/components/Otp.jsx:118 | only the code changes |
| Otp.OtpDialog.Tick | frontend/src/components/Otp.jsx:13-20 | the timer drops by one while positive, and nothing else changes |
| Otp.OtpDialog.SendOtp | frontend/src/components/Otp.jsx:22-46 | an empty e-mail only sets "Email is required"; otherwise the code, sent flag and error reset, the timer is set to 30 and the send button is disabled |
| Otp.OtpDialog.SendSettled | frontend/src/components/Otp.jsx:47-60 | the code counts as sent iff the reply is ok or says the e-mail exists; otherwise its error is recorded |
| Otp.OtpDialog.VerifyOtp | frontend/src/components/Otp.jsx:62-78 | a blank code only sets "Please enter the OTP"; otherwise the (e-mail, code) pair is sent |
| Otp.OtpDialog.VerifySettled | frontend/src/components/Otp.jsx:79-92 | the callback runs once iff the reply is ok; a refusal records its error |
| UserMiddleware.Failure | backend/middleware/user.middleware.js:29-37 | JsonWebTokenError gives 400, TokenExpiredError 401, anything else 500 |
| UserMiddleware.NextIffVerified | backend/middleware/user.middleware.js:3-39 | `next` is called iff the header is well formed, the token is non-empty and verifies; then the user and user id are the decoded ones |
| UserMiddleware.BadFormatRefused | backend/middleware/user.middleware.js:7-9 | a missing header, or one starting with neither prefix, is refused with 401 before any verification |
| UserMiddleware.FailureAnswered | backend/middleware/user.middleware.js:29-37 | a verifier error is answered by its mapped status |
| UserMiddleware.BareBearerNoToken | backend/middleware/user.middleware.js:17-19 | "Bearer " alone gives 401 "Access denied. No token provided." |
| UserMiddleware.TokenAfterPrefix | backend/middleware/user.middleware.js:12-15 | the token is what follows "Bearer", without its first colon, trimmed |
| UserMiddleware.BearerRemoved | backend/middleware/user.middleware.js:13 | the first "Bearer" is the prefix |
| UserMiddleware.NoColonKept | backend/middleware/user.middleware.js:14 | removing a colon from a string without one changes nothing |
| UserMiddleware.FirstColon | backend/middleware/user.middleware.js:14 | the colon removed is the first one |
| UserMiddleware.TokenRoundTrip | backend/middleware/user.middleware.js:12-15 | "Bearer TOKEN" yields TOKEN for a trimmed, colon-free token |
| UserMiddleware.ColonTokenRoundTrip | backend/middleware/user.middleware.js:12-15 | "Bearer: TOKEN" yields TOKEN as well |
| UserMiddleware.ColonInTokenDropped | backend/middleware/user.middleware.js:12-15 | "Bearer a:b" yields "ab": the colon inside the token is lost |
| UserMiddleware.ColonDropped | backend/middleware/user.middleware.js:14-15 | dropping the first colon and trimming joins the two halves |
| UserMiddleware.ColonRemoved | backend/middleware/user.middleware.js:14 | the first colon, after a colon-free part, is removed |
| UserMiddleware.BlankThenTrimmed | backend/middleware/user.middleware.js:15 | a leading blank is trimmed away |

## Left out

- Speech synthesis and voice selection are browser services and are not modelled. Spoken sentences are recorded as outcome text.
- JsString.Lower: only the ASCII capitals A-Z are folded, whereas `toLowerCase` folds every Unicode capital. A catalog name such as "CAFÉ" keys as "cafÉ" here and "café" in the browser, so Matcher.MatchShortestFirst, Matcher.MatchInOrder and Categories.Resolve can miss a match the source makes on non-ASCII names.
- Matcher.Len, Matcher.LongOnly, Profile.FirstNameAccepted and Profile.PasswordRules: lengths count characters, whereas JavaScript's `length` counts UTF-16 code units. A character outside the Basic Multilingual Plane (an emoji) counts 1 here and 2 in the browser, so a password such as "Ab1@😀😀x" is 7 long here and fails the 8-character minimum the source lets it pass. The sort order and the word filter shift likewise.
- The cart-add effect (`CartAddRequest` in Storefront) records the body key of the cart-add request (`itemId` from both assistants, `productId` from the navbar) but not its headers: both assistants add `Authorization: Bearer <token>` when a token is stored, and the navbar sends none. Whether the cart router accepts either body or needs the header is not part of this model.
- LegacyAssistant.LaterResultsIgnored: the recognition's lifetime (not continuous, so it ends after one result) is browser behaviour and is not modelled; only what its `onresult` event does is.
- Network calls are not made. Each reply is a parameter: the catalog, membership listing, write, search, user, cart, OTP and registration replies. JSON parsing errors are folded into the failed reply.
- Overlapping in-flight dispatches and other async interleavings are not modelled. Each handler runs to completion, and an awaited call is split into a begin method and a "settled" method where state changes on both sides of it (`SendOtp`/`SendSettled`, `VerifyOtp`/`VerifySettled`).
- Real timers are replaced by explicit steps: one `Tick` per second of the OTP countdown, and `FireDebounce` and `FireMemoReset` for the two timeouts of the session.
- `jwt.verify` is an uninterpreted function parameter that returns decoded claims or an error name.
- JSX rendering, the password show/hide toggles and the OTP input's `maxLength` are not modelled.
- `parseInt` is not modelled in detail: the parsed mobile number is an `Option<int>` parameter, `None` for `NaN`.
- Profile's data loading, edit and cancel-edit, logout, and the handling of the update reply are not modelled. Only the payload that `performProfileUpdate` sends is.
- Login.jsx, voiceControl.jsx (entirely commented out) and the Express, Mongo and Cloudinary wiring of server.js are not part of this model. The one exception is the list of mounted route prefixes.
- VoiceSession.Session.OnResult: the code does not check that a result comes from the current recognition handle, so the model does not ignore events from a stopped handle. Events from a stopped handle are therefore still processed.
- Navbar.FirstSearchResult: the search reply is a parameter. The path the navbar searches, `/api/items?name=`, lies under no router that server.js mounts, so a deployed search would fail. The item router is not part of this model, so the intended route is unknown.
- Matcher.SortByNameLength: the sort is proved on an array in place. The dispatchers use its specification `SortedByLength` on the fetched list, because the reordered array is not observed after the match.
- CommandRules.DropFirstsRoundTrip: the name extraction of the remove-from-cart, wishlist-add and wishlist-remove branches (`replace` of the first occurrence) is proved for these two command shapes only, not for every input.

## Findings

| source | as written | input that shows it | evidently intended | confidence | as-written member | corrected member |
|---|---|---|---|---|---|---|
| frontend/src/utils/voiceAssistant.js:49 | the cart-add branch fetches the catalog from `/api/items/allitems`, a path under none of the routers at backend/server.js:40-42, so the fetch cannot succeed | any cart-add command, such as "add phone to cart" | fetch `/api/item/allitems`, as the wishlist branch at line 117 does | not executed | LegacyAssistant.CartAddAsWrittenFails | LegacyAssistant.CatalogServed |
