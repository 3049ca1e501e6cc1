/** The icon catalog, the search filter and the windows of icons shown
    (src/components/LogoGenerator.tsx:93-126, 255-265, 267-282). */
module IconSearch {
  import opened Text
  import opened Style

  /** `allIcons`, by name, in declaration order (lines 93-126). */
  const Catalog: seq<Icon> := [
    "Apple", "Leaf", "Heart", "Star", "Sun", "Moon", "Cloud", "Zap",
    "Music", "Camera", "Smile", "Coffee", "Gift", "Globe", "Book", "Palette",
    "Feather", "Diamond", "Crown", "Trophy", "Rocket", "Anchor", "Compass", "Mountain",
    "Flag", "Target", "Shield", "Award", "Medal", "Badge", "Github", "Twitter"]

  /** An entry passes the search when it has a non-empty name whose lower-cased
      form contains the lower-cased query (line 257): the lower-cased query
      occurs at some position of the lower-cased name. */
  predicate Matches(name: Icon, query: string)
    ensures Matches(name, query) <==>
      name != "" && exists i: nat :: OccursAt(ToLower(name), ToLower(query), i)
  {
    ContainsIff(ToLower(name), ToLower(query));
    name != "" && Contains(ToLower(name), ToLower(query))
  }

  /** Case does not matter on the query side. */
  lemma MatchesIgnoresQueryCase(name: Icon, query: string)
    ensures Matches(name, query) == Matches(name, ToLower(query))
  {
    ToLowerIdempotent(query);
  }

  /** `icons.filter(...)`: the matching entries, in their original order. */
  function Filter(icons: seq<Icon>, query: string): (r: seq<Icon>)
    ensures |r| <= |icons|
    ensures forall x :: x in r ==> x in icons && Matches(x, query)
    decreases |icons|
  {
    if |icons| == 0 then []
    else (if Matches(icons[0], query) then [icons[0]] else []) + Filter(icons[1..], query)
  }

  /** No matching entry is dropped. */
  lemma {:induction false} FilterComplete(icons: seq<Icon>, query: string, x: Icon)
    requires x in icons && Matches(x, query)
    ensures x in Filter(icons, query)
    decreases |icons|
  {
    if icons[0] != x {
      FilterComplete(icons[1..], query, x);
    }
  }

  /** Filtering a concatenation filters each part and keeps them in order, so
      the result lists the matches in catalog order. */
  lemma {:induction false} FilterAppend(a: seq<Icon>, b: seq<Icon>, query: string)
    ensures Filter(a + b, query) == Filter(a, query) + Filter(b, query)
    decreases |a|
  {
    if |a| == 0 {
      assert a + b == b;
    } else {
      assert (a + b)[1..] == a[1..] + b;
      FilterAppend(a[1..], b, query);
    }
  }

  /** When every entry matches, the filter keeps the list as it is. */
  lemma {:induction false} FilterAllMatch(icons: seq<Icon>, query: string)
    requires forall k :: 0 <= k < |icons| ==> Matches(icons[k], query)
    ensures Filter(icons, query) == icons
    decreases |icons|
  {
    if |icons| > 0 {
      FilterAllMatch(icons[1..], query);
    }
  }

  /** `filteredIcons` (lines 255-259) over the catalog `icons`: an empty
      query keeps the whole catalog. */
  function FilteredIcons(icons: seq<Icon>, query: string): (r: seq<Icon>)
    ensures query == "" ==> r == icons
    ensures query != "" ==> r == Filter(icons, query)
  {
    if query != "" then Filter(icons, query) else icons
  }

  /** `visibleIcons` (lines 261-265) over the catalog `icons`: with a query,
      the first five matches; without one, the first twelve catalog entries
      (fewer if the catalog is shorter, as `slice` clamps). Every catalog
      entry has a glyph, so the final filter on line 265 keeps everything. */
  function VisibleIcons(icons: seq<Icon>, query: string): (r: seq<Icon>)
    ensures query == "" ==> r == icons[..Min(12, |icons|)]
    ensures query != "" ==> r <= Filter(icons, query)
    ensures query != "" ==> |r| == Min(5, |Filter(icons, query)|)
    ensures query != "" ==> forall x :: x in r ==> x in icons && Matches(x, query)
  {
    var filtered := FilteredIcons(icons, query);
    if query != "" then filtered[..Min(5, |filtered|)] else icons[..Min(12, |icons|)]
  }

  /** Without a query the grid shows these twelve icons of the catalog. */
  lemma EmptyQueryGrid()
    ensures VisibleIcons(Catalog, "") == ["Apple", "Leaf", "Heart", "Star", "Sun", "Moon",
                                          "Cloud", "Zap", "Music", "Camera", "Smile", "Coffee"]
  {
  }

  /** The window `list.slice(max(0, i - 2), max(0, i - 2) + 5)` around the
      randomly chosen index `i` (lines 279-280): up to five consecutive entries
      starting two before the choice (or at the start of the list), with the
      chosen icon at position `min(i, 2)`. */
  function RandomWindow(list: seq<Icon>, randomIndex: nat): (r: seq<Icon>)
    requires randomIndex < |list|
    ensures 1 <= |r| <= 5
    ensures var start := randomIndex - Min(randomIndex, 2);
      && |r| == Min(5, |list| - start)
      && (forall k :: 0 <= k < |r| ==> r[k] == list[start + k])
    ensures r[Min(randomIndex, 2)] == list[randomIndex]
  {
    var startIndex := if randomIndex - 2 > 0 then randomIndex - 2 else 0;
    var endIndex := if startIndex + 5 < |list| then startIndex + 5 else |list|;
    list[startIndex..endIndex]
  }
}
