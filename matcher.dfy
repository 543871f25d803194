/**
 * The fuzzy product matcher of the voice assistant: exact name, then
 * substring in either direction, then any query word of three or more
 * characters, each stage a `find` over the catalog. The newer assistant first
 * sorts the catalog by name length (stably, in place); the older one searches
 * the catalog in the order the API returned it.
 */
module Matcher {
  import opened Wrappers
  import opened JsString
  import opened Storefront

  datatype Stage = Exact | Partial | Words

  /** `item.name.toLowerCase()` */
  function Key(item: Item): string {
    Lower(item.name)
  }

  /** `item.name.length`, the sort key. */
  function Len(item: Item): nat {
    |item.name|
  }

  /** `words.filter(word => word.length > 2)` */
  function LongOnly(words: seq<string>): (r: seq<string>)
    ensures forall w :: w in r <==> w in words && |w| > 2
  {
    if words == [] then []
    else (if |words[0]| > 2 then [words[0]] else []) + LongOnly(words[1..])
  }

  /** `searchTerm.split(' ').filter(word => word.length > 2)` */
  function LongWords(term: string): seq<string> {
    LongOnly(SplitOn(term, ' '))
  }

  /** The test one stage of the matcher applies to one item. */
  predicate StageMatches(stage: Stage, term: string, item: Item) {
    match stage
    case Exact => Key(item) == term
    case Partial => Contains(Key(item), term) || Contains(term, Key(item))
    case Words => exists w :: w in LongWords(term) && Contains(Key(item), w)
  }

  /** The stage test as the function value handed to `find`. */
  function Test(stage: Stage, term: string): Item -> bool {
    item => StageMatches(stage, term, item)
  }

  // ---------------------------------------------------------------------------
  // Array.prototype.find

  /** The index `items.find(m)` stops at: the first item `m` accepts, or `|items|`. */
  function FindIndex(m: Item -> bool, items: seq<Item>): (k: nat)
    ensures k <= |items|
    ensures k < |items| ==> m(items[k])
    ensures forall j :: 0 <= j < k ==> !m(items[j])
  {
    if items == [] then 0
    else if m(items[0]) then 0
    else 1 + FindIndex(m, items[1..])
  }

  /** `items.find(m)` */
  function Find(m: Item -> bool, items: seq<Item>): (r: Option<Item>)
    ensures r.Some? ==> r.value in items && m(r.value)
    ensures r.None? <==> forall j :: 0 <= j < |items| ==> !m(items[j])
  {
    var k := FindIndex(m, items);
    if k < |items| then Some(items[k]) else None
  }

  lemma {:induction false} FindIndexAppend(m: Item -> bool, a: seq<Item>, b: seq<Item>)
    ensures FindIndex(m, a + b) ==
      if FindIndex(m, a) < |a| then FindIndex(m, a) else |a| + FindIndex(m, b)
  {
    if a == [] {
      assert a + b == b;
    } else {
      assert (a + b)[0] == a[0];
      assert (a + b)[1..] == a[1..] + b;
      FindIndexAppend(m, a[1..], b);
    }
  }

  lemma FindAppend(m: Item -> bool, a: seq<Item>, b: seq<Item>)
    ensures Find(m, a + b) == if Find(m, a).Some? then Find(m, a) else Find(m, b)
  {
    FindIndexAppend(m, a, b);
    var k := FindIndex(m, a);
    if k < |a| {
      assert (a + b)[k] == a[k];
    } else {
      assert (a + b)[|a| + FindIndex(m, b)..] == b[FindIndex(m, b)..];
    }
  }

  // ---------------------------------------------------------------------------
  // The three-stage search

  /** Exact, then two-way substring, then word overlap, in the order given. */
  function MatchInOrder(term: string, items: seq<Item>): (r: Option<Item>)
    ensures r.Some? ==> r.value in items
    ensures r.None? <==> forall st: Stage, j :: 0 <= j < |items| ==> !StageMatches(st, term, items[j])
    ensures (exists j :: 0 <= j < |items| && Key(items[j]) == term) ==> r.Some? && Key(r.value) == term
  {
    var exact := Find(Test(Exact, term), items);
    if exact.Some? then exact
    else
      var partial := Find(Test(Partial, term), items);
      if partial.Some? then partial
      else Find(Test(Words, term), items)
  }

  /** Item `i` is the first, in the order given, that stage `st` accepts. */
  predicate FirstPassing(st: Stage, term: string, items: seq<Item>, i: nat) {
    i < |items| && StageMatches(st, term, items[i])
    && forall j :: 0 <= j < i ==> !StageMatches(st, term, items[j])
  }

  /** No item passes stage `st`. */
  predicate NonePassing(st: Stage, term: string, items: seq<Item>) {
    forall j :: 0 <= j < |items| ==> !StageMatches(st, term, items[j])
  }

  /** `find` stops at the first item its test accepts. */
  lemma FindIsFirstPassing(st: Stage, term: string, items: seq<Item>, i: nat)
    requires FirstPassing(st, term, items, i)
    ensures Find(Test(st, term), items) == Some(items[i])
  {
  }

  /** The unsorted matcher takes the first item in catalog order that passes
      the earliest stage any item passes: exact, then substring, then word. */
  lemma MatchInOrderPicks(term: string, items: seq<Item>, i: nat)
    ensures FirstPassing(Exact, term, items, i) ==> MatchInOrder(term, items) == Some(items[i])
    ensures NonePassing(Exact, term, items) && FirstPassing(Partial, term, items, i) ==>
      MatchInOrder(term, items) == Some(items[i])
    ensures NonePassing(Exact, term, items) && NonePassing(Partial, term, items) && FirstPassing(Words, term, items, i) ==>
      MatchInOrder(term, items) == Some(items[i])
  {
    if FirstPassing(Exact, term, items, i) {
      FindIsFirstPassing(Exact, term, items, i);
    }
    if NonePassing(Exact, term, items) {
      assert Find(Test(Exact, term), items).None?;
      if FirstPassing(Partial, term, items, i) {
        FindIsFirstPassing(Partial, term, items, i);
      }
      if NonePassing(Partial, term, items) {
        assert Find(Test(Partial, term), items).None?;
        if FirstPassing(Words, term, items, i) {
          FindIsFirstPassing(Words, term, items, i);
        }
      }
    }
  }

  // ---------------------------------------------------------------------------
  // The stable sort by name length: `items.sort((a, b) => a.name.length - b.name.length)`

  predicate Ordered(s: seq<Item>) {
    forall i, j :: 0 <= i < j < |s| ==> Len(s[i]) <= Len(s[j])
  }

  /** Places `x` after every element of `t` that is no longer than it, as one
      step of a stable insertion sort does. */
  function InsertByLength(t: seq<Item>, x: Item): (r: seq<Item>)
    ensures |r| == |t| + 1
  {
    if t == [] || Len(t[|t| - 1]) <= Len(x) then t + [x]
    else InsertByLength(t[..|t| - 1], x) + [t[|t| - 1]]
  }

  lemma {:induction false} InsertPermutes(t: seq<Item>, x: Item)
    ensures multiset(InsertByLength(t, x)) == multiset(t) + multiset{x}
  {
    if t == [] || Len(t[|t| - 1]) <= Len(x) {
    } else {
      assert t == t[..|t| - 1] + [t[|t| - 1]];
      InsertPermutes(t[..|t| - 1], x);
    }
  }

  /** The stable sort by name length, as a function of the catalog. */
  function SortedByLength(s: seq<Item>): (r: seq<Item>)
    ensures |r| == |s|
  {
    if s == [] then []
    else InsertByLength(SortedByLength(s[..|s| - 1]), s[|s| - 1])
  }

  /** Where `InsertByLength` puts `x`: after the last element no longer than it. */
  function InsertPoint(t: seq<Item>, x: Item): (j: nat)
    ensures j <= |t|
    ensures j > 0 ==> Len(t[j - 1]) <= Len(x)
    ensures forall i :: j <= i < |t| ==> Len(x) < Len(t[i])
  {
    if t == [] || Len(t[|t| - 1]) <= Len(x) then |t|
    else InsertPoint(t[..|t| - 1], x)
  }

  lemma {:induction false} InsertAtPoint(t: seq<Item>, x: Item)
    ensures var j := InsertPoint(t, x);
      InsertByLength(t, x) == t[..j] + [x] + t[j..]
  {
    if t == [] || Len(t[|t| - 1]) <= Len(x) {
    } else {
      var u := t[..|t| - 1];
      InsertAtPoint(u, x);
      var j := InsertPoint(u, x);
      assert u[..j] == t[..j];
      assert u[j..] + [t[|t| - 1]] == t[j..];
    }
  }

  lemma InsertOrdered(t: seq<Item>, x: Item)
    requires Ordered(t)
    ensures Ordered(InsertByLength(t, x))
  {
    InsertAtPoint(t, x);
    OrderedSplice(t, x, InsertPoint(t, x));
  }

  /** Putting `x` between the elements no longer than it and those longer keeps the order. */
  lemma OrderedSplice(t: seq<Item>, x: Item, j: nat)
    requires Ordered(t) && j <= |t|
    requires j > 0 ==> Len(t[j - 1]) <= Len(x)
    requires forall i :: j <= i < |t| ==> Len(x) < Len(t[i])
    ensures Ordered(t[..j] + [x] + t[j..])
  {
    var r := t[..j] + [x] + t[j..];
    forall a, b | 0 <= a < b < |r|
      ensures Len(r[a]) <= Len(r[b])
    {
      if b < j {
        assert r[a] == t[a] && r[b] == t[b];
      } else if b == j {
        assert r[a] == t[a] && r[b] == x;
        assert Len(t[a]) <= Len(t[j - 1]);
      } else if a < j {
        assert r[a] == t[a] && r[b] == t[b - 1];
      } else if a == j {
        assert r[a] == x && r[b] == t[b - 1];
      } else {
        assert r[a] == t[a - 1] && r[b] == t[b - 1];
      }
    }
  }

  /** The sort puts shorter names first and loses or adds no item. */
  lemma {:induction false} SortedByLengthOrdered(s: seq<Item>)
    ensures Ordered(SortedByLength(s))
    ensures multiset(SortedByLength(s)) == multiset(s)
  {
    if s != [] {
      SortedByLengthOrdered(s[..|s| - 1]);
      InsertOrdered(SortedByLength(s[..|s| - 1]), s[|s| - 1]);
      InsertPermutes(SortedByLength(s[..|s| - 1]), s[|s| - 1]);
      assert s == s[..|s| - 1] + [s[|s| - 1]];
    }
  }

  /** One shift of the inner loop: an element longer than `x` moves behind it. */
  lemma InsertShift(sorted: seq<Item>, j: nat, x: Item)
    requires 0 < j <= |sorted| && Len(sorted[j - 1]) > Len(x)
    ensures InsertByLength(sorted[..j], x) + sorted[j..]
         == InsertByLength(sorted[..j - 1], x) + sorted[j - 1..]
  {
    assert sorted[..j][..j - 1] == sorted[..j - 1];
    assert sorted[j - 1..] == [sorted[j - 1]] + sorted[j..];
  }

  /** Where the inner loop stops, `x` goes right after the prefix. */
  lemma InsertStop(sorted: seq<Item>, j: nat, x: Item)
    requires j <= |sorted| && (j == 0 || Len(sorted[j - 1]) <= Len(x))
    ensures InsertByLength(sorted[..j], x) == sorted[..j] + [x]
  {
  }

  /** Sorting one more element of the catalog is one more insertion. */
  lemma SortedStep(s: seq<Item>, i: nat)
    requires i < |s|
    ensures SortedByLength(s[..i + 1]) == InsertByLength(SortedByLength(s[..i]), s[i])
  {
    assert s[..i + 1][..i] == s[..i];
  }

  /** The array contents after one shift, as a sequence. */
  lemma ShiftContents(cur: seq<Item>, sorted: seq<Item>, rest: seq<Item>, j: nat)
    requires 0 < j <= |sorted| && |cur| == |sorted| + 1 + |rest|
    requires cur[..j] == sorted[..j] && cur[j + 1..] == sorted[j..] + rest
    ensures cur[j := cur[j - 1]][..j - 1] == sorted[..j - 1]
    ensures cur[j := cur[j - 1]][j..] == sorted[j - 1..] + rest
  {
    assert cur[j - 1] == sorted[j - 1];
    assert sorted[j - 1..] == [sorted[j - 1]] + sorted[j..];
  }

  /** The array contents once `x` is written into the gap, as a sequence. */
  lemma PlaceContents(cur: seq<Item>, sorted: seq<Item>, rest: seq<Item>, j: nat, x: Item)
    requires j <= |sorted| && |cur| == |sorted| + 1 + |rest|
    requires cur[..j] == sorted[..j] && cur[j + 1..] == sorted[j..] + rest
    ensures cur[j := x] == sorted[..j] + [x] + sorted[j..] + rest
  {
    assert cur == cur[..j] + [cur[j]] + cur[j + 1..];
  }

  lemma PrefixSplit(p: seq<Item>, q: seq<Item>)
    requires q != []
    ensures (p + q)[..|p|] == p && (p + q)[|p|] == q[0] && (p + q)[|p| + 1..] == q[1..]
  {
  }

  /** The sort in place, as `Array.prototype.sort` runs it on the fetched array:
      an insertion sort that shifts longer names one slot to the right. */
  method SortByNameLength(a: array<Item>)
    modifies a
    ensures a[..] == SortedByLength(old(a[..]))
  {
    ghost var orig := a[..];
    var i := 0;
    while i < a.Length
      invariant 0 <= i <= a.Length
      invariant a[..] == SortedByLength(orig[..i]) + orig[i..]
    {
      ghost var sorted := SortedByLength(orig[..i]);
      SortedStep(orig, i);
      PrefixSplit(sorted, orig[i..]);
      InsertLast(a, i);
      assert orig[i..][1..] == orig[i + 1..];
      i := i + 1;
    }
    assert orig[..a.Length] == orig;
  }

  /** One pass of the insertion sort: `a[i]` moves left past every longer name
      of the sorted prefix `a[..i]`; the rest of the array stays put. */
  method InsertLast(a: array<Item>, i: nat)
    requires i < a.Length
    modifies a
    ensures a[..] == InsertByLength(old(a[..i]), old(a[i])) + old(a[i + 1..])
  {
    ghost var sorted := a[..i];
    ghost var rest := a[i + 1..];
    var x := a[i];
    var j := i;
    while j > 0 && Len(a[j - 1]) > Len(x)
      invariant 0 <= j <= i
      invariant a[..j] == sorted[..j]
      invariant a[j + 1..] == sorted[j..] + rest
      invariant InsertByLength(sorted, x) == InsertByLength(sorted[..j], x) + sorted[j..]
    {
      InsertShift(sorted, j, x);
      ghost var cur := a[..];
      ShiftContents(cur, sorted, rest, j);
      a[j] := a[j - 1];
      j := j - 1;
      assert a[..] == cur[j + 1 := cur[j]];
      assert a[..j] == a[..][..j];
    }
    InsertStop(sorted, j, x);
    PlaceContents(a[..], sorted, rest, j, x);
    a[j] := x;
  }

  // ---------------------------------------------------------------------------
  // What searching the sorted catalog picks, stated on the unsorted catalog

  /** Item `i` is the one a search should pick: `m` accepts it, no accepted item
      has a shorter name, and every accepted item before it has a longer name. */
  ghost predicate IsPreferred(m: Item -> bool, s: seq<Item>, i: int) {
    && 0 <= i < |s|
    && m(s[i])
    && (forall j :: 0 <= j < |s| && m(s[j]) ==> Len(s[i]) <= Len(s[j]))
    && (forall j :: 0 <= j < i && m(s[j]) ==> Len(s[i]) < Len(s[j]))
  }

  /** The shortest accepted item, the earliest one among equally short ones,
      computed without sorting. */
  function Preferred(m: Item -> bool, s: seq<Item>): (r: Option<nat>)
    ensures r.Some? ==> IsPreferred(m, s, r.value)
    ensures r.None? <==> forall j :: 0 <= j < |s| ==> !m(s[j])
  {
    if s == [] then None
    else
      var n := |s| - 1;
      var r := Preferred(m, s[..n]);
      assert forall j :: 0 <= j < n ==> s[..n][j] == s[j];
      if m(s[n]) && (r.None? || Len(s[n]) < Len(s[r.value])) then Some(n)
      else r
  }

  function ItemAt(s: seq<Item>, r: Option<nat>): Option<Item>
    requires r.Some? ==> r.value < |s|
  {
    if r.Some? then Some(s[r.value]) else None
  }

  lemma FindSingleton(m: Item -> bool, x: Item)
    ensures Find(m, [x]) == if m(x) then Some(x) else None
  {
  }

  /** Finding in `t` with `x` inserted: `x` is found only when `t` has no accepted
      item that is no longer than `x`. */
  lemma {:induction false} FindInserted(m: Item -> bool, t: seq<Item>, x: Item)
    requires Ordered(t)
    ensures Find(m, InsertByLength(t, x)) == InsertedFind(m, Find(m, t), x)
  {
    FindSingleton(m, x);
    if t == [] {
    } else if Len(t[|t| - 1]) <= Len(x) {
      FindAppend(m, t, [x]);
      var k := FindIndex(m, t);
      if k < |t| {
        assert Len(t[k]) <= Len(t[|t| - 1]);
      }
    } else {
      var u := t[..|t| - 1];
      var last := t[|t| - 1];
      assert t == u + [last];
      assert Ordered(u);
      FindInserted(m, u, x);
      FindAppend(m, InsertByLength(u, x), [last]);
      FindAppend(m, u, [last]);
      FindSingleton(m, last);
    }
  }

  /** What `find` returns once `x` is inserted, given what it returned before. */
  function InsertedFind(m: Item -> bool, f: Option<Item>, x: Item): Option<Item> {
    if f.Some? && Len(f.value) <= Len(x) then f
    else if m(x) then Some(x)
    else f
  }

  /** Searching the length-sorted catalog finds exactly the preferred item of the
      unsorted catalog. */
  lemma {:induction false} FindSortedIsPreferred(m: Item -> bool, s: seq<Item>)
    ensures Find(m, SortedByLength(s)) == ItemAt(s, Preferred(m, s))
  {
    if s != [] {
      var n := |s| - 1;
      var t := SortedByLength(s[..n]);
      FindSortedIsPreferred(m, s[..n]);
      SortedByLengthOrdered(s[..n]);
      FindInserted(m, t, s[n]);
      var r := Preferred(m, s[..n]);
      if r.Some? {
        assert s[..n][r.value] == s[r.value];
      }
    }
  }

  /** The newer assistant's matcher: the same three stages over the sorted catalog. */
  function MatchShortestFirst(term: string, items: seq<Item>): (r: Option<Item>)
    ensures r.Some? ==> r.value in items
  {
    SortedByLengthOrdered(items);
    var r := MatchInOrder(term, SortedByLength(items));
    assert r.Some? ==> r.value in multiset(items);
    r
  }

  /** The stage the newer matcher ends in is the first stage any catalog item
      passes, and the item it returns is that stage's preferred one: shortest
      name first, catalog order among equally long names. */
  lemma MatchShortestFirstPicks(term: string, items: seq<Item>)
    ensures var r := MatchShortestFirst(term, items);
      var exact := Preferred(Test(Exact, term), items);
      var partial := Preferred(Test(Partial, term), items);
      && (exact.Some? ==> r == ItemAt(items, exact))
      && (exact.None? && partial.Some? ==> r == ItemAt(items, partial))
      && (exact.None? && partial.None? ==> r == ItemAt(items, Preferred(Test(Words, term), items)))
  {
    FindSortedIsPreferred(Test(Exact, term), items);
    FindSortedIsPreferred(Test(Partial, term), items);
    FindSortedIsPreferred(Test(Words, term), items);
  }

  /** An exact name match always wins, and among several items with that name the
      first one in catalog order is returned, wherever the sort moved it. */
  lemma ExactNameWins(term: string, items: seq<Item>, i: nat)
    requires i < |items| && Key(items[i]) == term
    ensures var r := MatchShortestFirst(term, items);
      r.Some? && Key(r.value) == term
      && (exists k :: 0 <= k <= i && r.value == items[k]
            && forall j :: 0 <= j < k ==> Key(items[j]) != term)
  {
    MatchShortestFirstPicks(term, items);
    var m := Test(Exact, term);
    assert m(items[i]);
    forall j | 0 <= j < |items|
      ensures m(items[j]) <==> Key(items[j]) == term
      ensures |Key(items[j])| == Len(items[j])
    {
    }
  }

  /** An empty catalog never yields an item, and neither matcher invents one. */
  lemma EmptyCatalogNoMatch(term: string)
    ensures MatchShortestFirst(term, []) == None
    ensures MatchInOrder(term, []) == None
  {
  }
}
