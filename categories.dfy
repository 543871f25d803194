/**
 * The category resolver of the "show all <category>" voice command: a fixed
 * list of eight lower-case category keys, searched first for an exact match
 * and then for a substring match in either direction, and the table that
 * turns a key back into the display name the category filter expects.
 */
module Categories {
  import opened Wrappers
  import opened JsString

  /** `availableCategories`, in list order. */
  const Available: seq<string> :=
    ["electronics", "fashion", "home", "sports", "books", "beauty", "toys", "health"]

  /** `categoryMap`: lower-case key to the name the category filter uses. */
  const DisplayNames: map<string, string> := map[
    "electronics" := "Electronics",
    "fashion" := "Fashion",
    "home" := "Home",
    "sports" := "Sports",
    "books" := "Books",
    "beauty" := "Beauty",
    "toys" := "Toys",
    "health" := "Health"
  ]

  /** The second search's test: the key contains the term or the term contains the key. */
  predicate Overlaps(cat: string, term: string) {
    Contains(cat, term) || Contains(term, cat)
  }

  /** The first category of `cats` equal to `term`. */
  function ExactIn(cats: seq<string>, term: string): (r: Option<string>)
    ensures r.Some? <==> term in cats
    ensures r.Some? ==> r.value == term
  {
    if cats == [] then None
    else if cats[0] == term then Some(term)
    else ExactIn(cats[1..], term)
  }

  /** The first category of `cats` that overlaps `term`. */
  function OverlapIn(cats: seq<string>, term: string): (r: Option<string>)
    ensures r.Some? ==> r.value in cats && Overlaps(r.value, term)
    ensures r.None? <==> forall k :: 0 <= k < |cats| ==> !Overlaps(cats[k], term)
    ensures r.Some? ==> exists k :: (0 <= k < |cats| && cats[k] == r.value
      && forall j :: 0 <= j < k ==> !Overlaps(cats[j], term))
  {
    if cats == [] then None
    else if Overlaps(cats[0], term) then Some(cats[0])
    else
      var r := OverlapIn(cats[1..], term);
      assert forall k :: 1 <= k < |cats| ==> cats[1..][k - 1] == cats[k];
      assert r.Some? ==> exists k :: (0 <= k < |cats| && cats[k] == r.value
        && forall j :: 0 <= j < k ==> !Overlaps(cats[j], term)) by {
        if r.Some? {
          var k :| 0 <= k < |cats[1..]| && cats[1..][k] == r.value
            && forall j :: 0 <= j < k ==> !Overlaps(cats[1..][j], term);
          assert cats[k + 1] == r.value;
        }
      }
      r
  }

  /** `bestMatch`: an exact key first, otherwise the first overlapping key. */
  function Resolve(term: string): (r: Option<string>)
    ensures r.Some? ==> r.value in Available
    ensures term in Available ==> r == Some(term)
    ensures term !in Available ==> r == OverlapIn(Available, term)
    ensures r.None? <==> forall k :: 0 <= k < |Available| ==> !Overlaps(Available[k], term)
  {
    var exact := ExactIn(Available, term);
    if exact.Some? then exact
    else OverlapIn(Available, term)
  }

  /** Upper-cases the first letter, as every entry of the display table does. */
  function Capitalize(s: string): (r: string)
    ensures |r| == |s|
    ensures |s| > 0 ==> r[1..] == s[1..] && LowerChar(r[0]) == LowerChar(s[0])
  {
    if s == [] then [] else [UpperChar(s[0])] + s[1..]
  }

  /** `categoryMap[bestMatch]` */
  function DisplayName(key: string): (r: string)
    requires key in Available
  {
    DisplayNames[key]
  }

  /** One row of the display table: `display` is `key` with its first letter
      capitalised, and lower-casing it gives `key` back. */
  lemma DisplayRow(key: string, display: string)
    requires |key| > 0 && IsAsciiLower(key[0]) && display == [UpperChar(key[0])] + key[1..]
    requires HasNoUpper(key)
    ensures display == Capitalize(key)
    ensures Lower(display) == key
  {
    assert Lower(display)[0] == key[0];
    assert forall i :: 1 <= i < |key| ==> Lower(display)[i] == key[i];
  }

  /** The display table covers exactly the eight keys, each entry is its key
      with the first letter capitalised, and lower-casing it gives the key back. */
  lemma DisplayNamesRoundTrip(key: string)
    requires key in Available
    ensures key in DisplayNames
    ensures DisplayName(key) == Capitalize(key)
    ensures Lower(DisplayName(key)) == key
  {
    if key in Available[..4] {
      DisplayRowsFront(key);
    } else {
      assert Available == Available[..4] + Available[4..];
      DisplayRowsBack(key);
    }
  }

  lemma DisplayRowsFront(key: string)
    requires key in Available[..4]
    ensures key in DisplayNames && DisplayNames[key] == Capitalize(key) && Lower(DisplayNames[key]) == key
  {
    if key == "electronics" {
      DisplayRow(key, "Electronics");
    } else if key == "fashion" {
      DisplayRow(key, "Fashion");
    } else if key == "home" {
      DisplayRow(key, "Home");
    } else {
      DisplayRow(key, "Sports");
    }
  }

  lemma DisplayRowsBack(key: string)
    requires key in Available[4..]
    ensures key in DisplayNames && DisplayNames[key] == Capitalize(key) && Lower(DisplayNames[key]) == key
  {
    if key == "books" {
      DisplayRow(key, "Books");
    } else if key == "beauty" {
      DisplayRow(key, "Beauty");
    } else if key == "toys" {
      DisplayRow(key, "Toys");
    } else {
      DisplayRow(key, "Health");
    }
  }

  lemma DisplayNamesKeys()
    ensures DisplayNames.Keys == set k | k in Available
  {
  }

  /** The spoken list of categories in the "not available" answer. */
  function AvailableList(): string {
    Join(Available, ", ")
  }
}
