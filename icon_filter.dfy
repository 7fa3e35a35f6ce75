/**
  The icon picker's filter: the dropdown selects a group, the search entry a
  query, and the grid shows the catalog items that pass both tests, in catalog
  order. Filtering only selects; it never alters an item.
*/
module IconFilter {
  import opened Text
  import opened IconGroups
  import opened IconCatalog

  /** `searchEntry.text.trim().toLowerCase()`. */
  function NormalizeQuery(text: string): string {
    ToLower(Trim(text))
  }

  /**
    A normalized query has no upper-case letter, does not start or end with
    whitespace, and normalizing it again changes nothing.
  */
  lemma NormalizedQuery(text: string)
    ensures var q := NormalizeQuery(text);
      && (forall k :: 0 <= k < |q| ==> !IsUpperAscii(q[k]))
      && (q != [] ==> !IsJsWhitespace(q[0]) && !IsJsWhitespace(q[|q| - 1]))
      && NormalizeQuery(q) == q
  {
    var t := Trim(text);
    var q := ToLower(t);
    if q != [] {
      LowerCharKeepsWhitespace(t[0]);
      LowerCharKeepsWhitespace(t[|t| - 1]);
    }
    TrimNoEdges(q);
    ToLowerIdempotent(t);
  }

  /** The filter function `updateFilter` installs, for one item. */
  predicate Matches(item: IconDataItem, currentGroup: int, query: string) {
    && !(currentGroup != ALL && item.group != currentGroup)
    && !(query != "" && !Includes(ToLower(item.name), query))
  }

  /**
    An item passes exactly when the group is ALL or its own, and the query
    occurs in its lower-cased name (the empty query occurs in every name).
  */
  lemma MatchesIff(item: IconDataItem, currentGroup: int, query: string)
    ensures Matches(item, currentGroup, query) ==> currentGroup == ALL || item.group == currentGroup
    ensures Matches(item, currentGroup, query) ==> exists k :: OccursAt(ToLower(item.name), query, k)
    ensures (currentGroup == ALL || item.group == currentGroup) && (exists k :: OccursAt(ToLower(item.name), query, k))
            ==> Matches(item, currentGroup, query)
  {
    var n := ToLower(item.name);
    IncludesIff(n, query);
    if query == [] {
      assert n[0..0] == query;
      assert OccursAt(n, query, 0);
    }
    assert (exists k :: OccursAt(n, query, k)) <==> (query == [] || Includes(n, query));
  }

  /** What the filter model shows: the passing items, in catalog order. */
  function FilterItems(items: seq<IconDataItem>, currentGroup: int, query: string): seq<IconDataItem> {
    if items == [] then []
    else (if Matches(items[0], currentGroup, query) then [items[0]] else [])
         + FilterItems(items[1..], currentGroup, query)
  }

  /** The filter shows exactly the catalog items that pass, and no more items than there are. */
  lemma {:induction false} FilterItemsMembers(items: seq<IconDataItem>, currentGroup: int, query: string)
    ensures |FilterItems(items, currentGroup, query)| <= |items|
    ensures forall it :: it in FilterItems(items, currentGroup, query) <==> it in items && Matches(it, currentGroup, query)
  {
    if items != [] {
      FilterItemsMembers(items[1..], currentGroup, query);
      assert items == [items[0]] + items[1..];
    }
  }

  /** Filtering a concatenation filters each part, keeping their order. */
  lemma {:induction false} FilterItemsAppend(a: seq<IconDataItem>, b: seq<IconDataItem>, currentGroup: int, query: string)
    ensures FilterItems(a + b, currentGroup, query) == FilterItems(a, currentGroup, query) + FilterItems(b, currentGroup, query)
  {
    if a != [] {
      FilterItemsAppend(a[1..], b, currentGroup, query);
      assert (a + b)[0] == a[0] && (a + b)[1..] == a[1..] + b;
    } else {
      assert a + b == b;
    }
  }

  /** With group ALL and an empty query the whole catalog is shown, in order. */
  lemma {:induction false} FilterShowsAll(items: seq<IconDataItem>)
    ensures FilterItems(items, ALL, "") == items
  {
    if items != [] {
      FilterShowsAll(items[1..]);
      assert items == [items[0]] + items[1..];
    }
  }

  /** A group other than ALL shows only items of that group. */
  lemma FilterByGroup(items: seq<IconDataItem>, currentGroup: int, query: string)
    requires currentGroup != ALL
    ensures forall it :: it in FilterItems(items, currentGroup, query) ==> it.group == currentGroup
  {
    FilterItemsMembers(items, currentGroup, query);
  }

  // ---------------------------------------------------------------------------
  // A worked catalog

  const Alpha := IconDataItem("Alpha", "Alpha", APPS)
  const Beta := IconDataItem("beta", "beta", OTHER)
  const Gamma := IconDataItem("Gamma", "Gamma", APPS)

  /** Filtering a three-item catalog unfolds to one test per item. */
  lemma FilterThree(a: IconDataItem, b: IconDataItem, c: IconDataItem, currentGroup: int, query: string)
    ensures FilterItems([a, b, c], currentGroup, query)
            == (if Matches(a, currentGroup, query) then [a] else [])
               + (if Matches(b, currentGroup, query) then [b] else [])
               + (if Matches(c, currentGroup, query) then [c] else [])
  {
    var one := if Matches(c, currentGroup, query) then [c] else [];
    assert [c][1..] == [];
    assert FilterItems([c], currentGroup, query) == one + [];
    assert [b, c][1..] == [c];
    assert [a, b, c][1..] == [b, c];
  }

  /** A name in which the query's first letter never occurs does not match it. */
  lemma MissingLetter(item: IconDataItem, query: string)
    requires query != []
    requires forall k :: 0 <= k < |item.name| ==> LowerChar(item.name[k]) != query[0]
    ensures !Matches(item, ALL, query)
  {
    var n := ToLower(item.name);
    IncludesIff(n, query);
    forall k | OccursAt(n, query, k) ensures false {
    }
  }

  /** A name whose lower-cased form holds the query at some offset matches it. */
  lemma OccurringQueryMatches(item: IconDataItem, query: string, k: int)
    requires OccursAt(ToLower(item.name), query, k)
    ensures Matches(item, ALL, query)
  {
    IncludesIff(ToLower(item.name), query);
  }

  /** One step of the `FilterExample` illustration: "Alpha" lacks the letter 'e'. */
  lemma AlphaMisses(alpha: IconDataItem)
    requires alpha == Alpha
    ensures !Matches(alpha, ALL, "et")
  {
    MissingLetter(alpha, "et");
  }

  /** One step of the `FilterExample` illustration: "Gamma" lacks the letter 'e'. */
  lemma GammaMisses(gamma: IconDataItem)
    requires gamma == Gamma
    ensures !Matches(gamma, ALL, "et")
  {
    MissingLetter(gamma, "et");
  }

  /** One step of the `FilterExample` illustration: "beta" holds "et" at offset 1. */
  lemma BetaHits(beta: IconDataItem)
    requires beta == Beta
    ensures Matches(beta, ALL, "et")
  {
    assert ToLower(beta.name)[1..3] == "et";
    OccurringQueryMatches(beta, "et", 1);
  }

  /**
    An illustration on a concrete catalog; the statements for every catalog are
    `MatchesIff`, `FilterItemsMembers`, `FilterShowsAll` and `FilterByGroup`.
    Group APPS shows Alpha and Gamma; the query "et" shows beta.
  */
  lemma FilterExample(catalog: seq<IconDataItem>)
    requires catalog == [Alpha, Beta, Gamma]
    ensures FilterItems(catalog, APPS, "") == [Alpha, Gamma]
    ensures FilterItems(catalog, ALL, "et") == [Beta]
  {
    var a, b, c := catalog[0], catalog[1], catalog[2];
    assert catalog == [a, b, c];
    assert FilterItems(catalog, APPS, "") == [Alpha, Gamma] by {
      FilterThree(a, b, c, APPS, "");
      assert Matches(a, APPS, "") && !Matches(b, APPS, "") && Matches(c, APPS, "");
      assert [a] + [] + [c] == [a, c];
    }
    assert FilterItems(catalog, ALL, "et") == [Beta] by {
      FilterThree(a, b, c, ALL, "et");
      AlphaMisses(a);
      BetaHits(b);
      GammaMisses(c);
      assert [] + [b] + [] == [b];
    }
  }

}
