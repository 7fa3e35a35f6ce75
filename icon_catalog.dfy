/**
  The system icon catalog of the preferences window: the pieces the idle build
  is made of (removal of the extension's own resource path, the bundled pass,
  the provider items, the sort by name) and the object that memoises the
  catalog, `ArcMenuPrefs`, with its cached array, its promise and its idle
  source.

  The icon-theme provider (`get_icon_names`, `lookup_icon(...).get_file().get_uri()`)
  and `Gio.resources_enumerate_children` are inputs; the promise is a number
  that identifies it, and its resolution an entry of `resolutions`;
  `localeCompare` is the comparator `collate`, a total preorder on names.
*/
module IconCatalog {
  import opened Wrappers
  import opened IconGroups
  import opened SettingsPages
  import IconClassifier

  /** Where the extension registers its own icons in the icon theme. */
  const OWN_RESOURCE_PATH: string := "/org/gnome/shell/extensions/arcmenu/icons"

  /**
    The accumulator of a build after `cursor` provider names: empty before the
    first step, then the bundled items followed by the first `cursor` resolved names.
  */
  ghost predicate Accumulated(iconsData: seq<IconDataItem>, bundled: seq<IconDataItem>, names: seq<string>,
                              uris: seq<string>, classify: string -> int, cursor: nat)
    requires |names| == |uris| && cursor <= |names|
  {
    && (cursor == 0 ==> iconsData == [])
    && (cursor > 0 ==> iconsData == bundled + ProviderItems(names, uris, classify, cursor))
  }

  /** The published catalog: every gathered item, sorted by name. */
  ghost predicate Published(catalog: seq<IconDataItem>, bundled: seq<IconDataItem>, names: seq<string>,
                            uris: seq<string>, classify: string -> int, collate: (string, string) -> bool)
    requires |names| == |uris|
  {
    catalog == SortByName(bundled + ProviderItems(names, uris, classify, |names|), collate)
  }

  /** Provider names resolved per idle step. */
  const CHUNK_SIZE: nat := 400

  datatype IconDataItem = IconDataItem(name: string, icon: string, group: int)

  function Min(a: int, b: int): int { if a <= b then a else b }

  // ---------------------------------------------------------------------------
  // Removing the extension's own resource path

  /** `indexOf`: the first position of `x`, or -1. */
  function IndexOf(paths: seq<string>, x: string): (r: int)
    ensures -1 <= r < |paths|
    ensures r == -1 <==> x !in paths
    ensures r >= 0 ==> paths[r] == x
  {
    if paths == [] then -1
    else if paths[0] == x then 0
    else
      var r := IndexOf(paths[1..], x);
      if r == -1 then -1 else r + 1
  }

  /** The position found is the first one holding `x`. */
  lemma {:induction false} IndexOfFirst(paths: seq<string>, x: string)
    ensures forall k :: 0 <= k < IndexOf(paths, x) ==> paths[k] != x
  {
    if paths != [] && paths[0] != x {
      IndexOfFirst(paths[1..], x);
    }
  }

  /** The copied resource paths after `splice(indexOf(own), 1)` when `own` is present. */
  function WithoutOwnPath(paths: seq<string>, own: string): seq<string> {
    var k := IndexOf(paths, own);
    if k == -1 then paths else paths[..k] + paths[k + 1..]
  }

  /** Without the own path the copy is the original; with it, exactly one occurrence goes. */
  lemma WithoutOwnPathRemovesOne(paths: seq<string>, own: string)
    ensures own !in paths ==> WithoutOwnPath(paths, own) == paths
    ensures own in paths ==>
              && |WithoutOwnPath(paths, own)| == |paths| - 1
              && multiset(WithoutOwnPath(paths, own)) == multiset(paths) - multiset{own}
    ensures own in paths ==>
              exists k :: && 0 <= k < |paths| && paths[k] == own && own !in paths[..k]
                          && WithoutOwnPath(paths, own) == paths[..k] + paths[k + 1..]
  {
    var k := IndexOf(paths, own);
    if k != -1 {
      assert paths == paths[..k] + [paths[k]] + paths[k + 1..];
      IndexOfFirst(paths, own);
      assert forall j | 0 <= j < k :: paths[..k][j] != own;
      assert own !in paths[..k];
    }
  }

  /** The paths other than the extension's own, in order. */
  function OtherPaths(paths: seq<string>, own: string): (r: seq<string>)
    ensures own !in r
  {
    if paths == [] then []
    else (if paths[0] == own then [] else [paths[0]]) + OtherPaths(paths[1..], own)
  }

  lemma {:induction false} OtherPathsAppend(a: seq<string>, b: seq<string>, own: string)
    ensures OtherPaths(a + b, own) == OtherPaths(a, own) + OtherPaths(b, own)
  {
    if a != [] {
      OtherPathsAppend(a[1..], b, own);
      assert (a + b)[0] == a[0] && (a + b)[1..] == a[1..] + b;
    } else {
      assert a + b == b;
    }
  }

  /**
    Removing the own path drops exactly one occurrence of it (the first) and
    leaves every other path where it was relative to the rest.
  */
  lemma WithoutOwnPathKeepsOthers(paths: seq<string>, own: string)
    ensures OtherPaths(WithoutOwnPath(paths, own), own) == OtherPaths(paths, own)
  {
    var k := IndexOf(paths, own);
    if k != -1 {
      var pre, mid, post := paths[..k], [paths[k]], paths[k + 1..];
      assert OtherPaths(mid, own) == [] by {
        assert mid[0] == own && mid[1..] == [];
      }
      calc {
        OtherPaths(paths, own);
        { assert paths == (pre + mid) + post; }
        OtherPaths((pre + mid) + post, own);
        { OtherPathsAppend(pre + mid, post, own); }
        OtherPaths(pre + mid, own) + OtherPaths(post, own);
        { OtherPathsAppend(pre, mid, own); }
        OtherPaths(pre, own) + OtherPaths(post, own);
        { OtherPathsAppend(pre, post, own); }
        OtherPaths(pre + post, own);
      }
    }
  }

  // ---------------------------------------------------------------------------
  // The bundled pass (first idle step only)

  predicate IsSvg(entry: string) { |entry| >= 4 && entry[|entry| - 4..] == ".svg" }

  /**
    The item for a bundled `.svg` entry: its name is the entry without the
    extension, its icon the entry under the resource root's `actions` folder, and
    its group DISTRO exactly when the name starts with "distro", CUSTOM otherwise.
  */
  function BundledItem(entry: string, root: string): (r: IconDataItem)
    requires IsSvg(entry)
    ensures r.name + ".svg" == entry
    ensures r.icon == root + "/actions/" + entry
    ensures r.group == DISTRO <==> "distro" <= r.name
    ensures r.group == CUSTOM <==> !("distro" <= r.name)
  {
    var name := entry[..|entry| - 4];
    assert name + ".svg" == entry;
    assert "distro" <= entry ==> |name| >= 6 by {
      assert entry[|name|] == '.';
    }
    assert "distro" <= entry ==> "distro" <= name;
    IconDataItem(name, root + "/actions/" + entry, if "distro" <= entry then DISTRO else CUSTOM)
  }

  /** The loop over the enumerated entries: `.svg` entries become items, the rest is skipped. */
  function BundledItems(entries: seq<string>, root: string): seq<IconDataItem> {
    if entries == [] then []
    else
      var last := entries[|entries| - 1];
      BundledItems(entries[..|entries| - 1], root) + (if IsSvg(last) then [BundledItem(last, root)] else [])
  }

  /** A failed enumeration (`None`) adds nothing; it does not stop the build. */
  function BundledPass(entries: Option<seq<string>>, root: string): seq<IconDataItem> {
    match entries
    case None => []
    case Some(es) => BundledItems(es, root)
  }

  /** The `.svg` entries, in order. */
  function SvgEntries(entries: seq<string>): (r: seq<string>)
    ensures forall e :: e in r <==> e in entries && IsSvg(e)
  {
    if entries == [] then []
    else (if IsSvg(entries[0]) then [entries[0]] else []) + SvgEntries(entries[1..])
  }

  function SvgEntriesOf(entries: Option<seq<string>>): seq<string> {
    match entries
    case None => []
    case Some(es) => SvgEntries(es)
  }

  lemma {:induction false} SvgEntriesAppend(a: seq<string>, b: seq<string>)
    ensures SvgEntries(a + b) == SvgEntries(a) + SvgEntries(b)
  {
    if a != [] {
      SvgEntriesAppend(a[1..], b);
      assert (a + b)[0] == a[0] && (a + b)[1..] == a[1..] + b;
    } else {
      assert a + b == b;
    }
  }

  /** The bundled pass yields exactly one item per `.svg` entry, in entry order. */
  lemma {:induction false} BundledItemsPerSvgEntry(entries: seq<string>, root: string)
    ensures |BundledItems(entries, root)| == |SvgEntries(entries)|
    ensures forall k :: 0 <= k < |SvgEntries(entries)| ==>
              IsSvg(SvgEntries(entries)[k])
              && BundledItems(entries, root)[k] == BundledItem(SvgEntries(entries)[k], root)
  {
    if entries != [] {
      var init, last := entries[..|entries| - 1], entries[|entries| - 1];
      BundledItemsPerSvgEntry(init, root);
      assert entries == init + [last];
      SvgEntriesAppend(init, [last]);
      assert SvgEntries([last]) == (if IsSvg(last) then [last] else []) + SvgEntries([]);
    }
  }

  // ---------------------------------------------------------------------------
  // Provider items

  /**
    A provider icon: its name is also its icon, its group comes from its URI
    through `classify`, which the catalog's owner fixes to
    `IconClassifier.GroupOf`.
  */
  function ProviderItem(name: string, uri: string, classify: string -> int): IconDataItem {
    IconDataItem(name, name, classify(uri))
  }

  /** The items pushed for the first `n` names, `names[k]` resolved to `uris[k]`. */
  function ProviderItems(names: seq<string>, uris: seq<string>, classify: string -> int, n: nat): (r: seq<IconDataItem>)
    requires |names| == |uris| && n <= |names|
    ensures |r| == n
  {
    if n == 0 then [] else ProviderItems(names, uris, classify, n - 1) + [ProviderItem(names[n - 1], uris[n - 1], classify)]
  }

  /** One provider item per name, in name order. */
  lemma {:induction false} ProviderItemsAt(names: seq<string>, uris: seq<string>, classify: string -> int, n: nat)
    requires |names| == |uris| && n <= |names|
    ensures forall k :: 0 <= k < n ==> ProviderItems(names, uris, classify, n)[k] == ProviderItem(names[k], uris[k], classify)
  {
    if n > 0 {
      ProviderItemsAt(names, uris, classify, n - 1);
    }
  }

  // ---------------------------------------------------------------------------
  // Sorting by name with an abstract collation

  ghost predicate TotalPreorder(le: (string, string) -> bool) {
    && (forall a, b :: le(a, b) || le(b, a))
    && (forall a, b, c :: le(a, b) && le(b, c) ==> le(a, c))
  }

  predicate SortedByName(s: seq<IconDataItem>, le: (string, string) -> bool) {
    forall k :: 0 < k < |s| ==> le(s[k - 1].name, s[k].name)
  }

  /** Places `x` before the first item it collates at or before. */
  function InsertByName(x: IconDataItem, s: seq<IconDataItem>, le: (string, string) -> bool): seq<IconDataItem> {
    if s == [] then [x]
    else if le(x.name, s[0].name) then [x] + s
    else [s[0]] + InsertByName(x, s[1..], le)
  }

  /** Inserting adds exactly `x`, and the result starts with `x` or with the old first item. */
  lemma {:induction false} InsertByNameAdds(x: IconDataItem, s: seq<IconDataItem>, le: (string, string) -> bool)
    ensures multiset(InsertByName(x, s, le)) == multiset(s) + multiset{x}
    ensures InsertByName(x, s, le)[0] == x || (s != [] && InsertByName(x, s, le)[0] == s[0])
  {
    if s != [] && !le(x.name, s[0].name) {
      InsertByNameAdds(x, s[1..], le);
      assert s == [s[0]] + s[1..];
    }
  }

  /** `sort((a, b) => a.name.localeCompare(b.name))`, as an insertion sort. */
  function SortByName(s: seq<IconDataItem>, le: (string, string) -> bool): seq<IconDataItem> {
    if s == [] then [] else InsertByName(s[0], SortByName(s[1..], le), le)
  }

  /** Sorting is a permutation. */
  lemma {:induction false} SortByNamePermutes(s: seq<IconDataItem>, le: (string, string) -> bool)
    ensures multiset(SortByName(s, le)) == multiset(s) && |SortByName(s, le)| == |s|
  {
    if s != [] {
      var rest := SortByName(s[1..], le);
      SortByNamePermutes(s[1..], le);
      InsertByNameAdds(s[0], rest, le);
      calc {
        multiset(SortByName(s, le));
        multiset(rest) + multiset{s[0]};
        { assert s == [s[0]] + s[1..]; }
        multiset(s);
      }
      assert |SortByName(s, le)| == |multiset(SortByName(s, le))| == |multiset(s)|;
    }
  }

  lemma {:induction false} InsertByNameSorted(x: IconDataItem, s: seq<IconDataItem>, le: (string, string) -> bool)
    requires TotalPreorder(le) && SortedByName(s, le)
    ensures SortedByName(InsertByName(x, s, le), le)
  {
    if s != [] && !le(x.name, s[0].name) {
      var rest := s[1..];
      InsertByNameSorted(x, rest, le);
      InsertByNameAdds(x, rest, le);
      var r := InsertByName(x, rest, le);
      assert le(s[0].name, x.name);
      assert rest != [] ==> le(s[0].name, rest[0].name);
      assert le(s[0].name, r[0].name);
      assert InsertByName(x, s, le) == [s[0]] + r;
    }
  }

  /** The sorted catalog is in collation order: each name collates at or after the one before. */
  lemma {:induction false} SortByNameSorted(s: seq<IconDataItem>, le: (string, string) -> bool)
    requires TotalPreorder(le)
    ensures SortedByName(SortByName(s, le), le)
  {
    if s != [] {
      SortByNameSorted(s[1..], le);
      InsertByNameSorted(s[0], SortByName(s[1..], le), le);
    }
  }

  /** The items of `s` whose names collate equal to `key`, in their order in `s`. */
  function EqualNamed(s: seq<IconDataItem>, key: string, le: (string, string) -> bool): seq<IconDataItem> {
    if s == [] then []
    else (if le(s[0].name, key) && le(key, s[0].name) then [s[0]] else []) + EqualNamed(s[1..], key, le)
  }

  /** Inserting `x` puts it before every item whose name collates equal to its own. */
  lemma {:induction false} InsertByNameStable(x: IconDataItem, s: seq<IconDataItem>, key: string,
                                              le: (string, string) -> bool)
    requires TotalPreorder(le)
    ensures EqualNamed(InsertByName(x, s, le), key, le)
            == (if le(x.name, key) && le(key, x.name) then [x] else []) + EqualNamed(s, key, le)
  {
    var hx := if le(x.name, key) && le(key, x.name) then [x] else [];
    if s == [] {
      assert InsertByName(x, s, le) == [x] && [x][1..] == [];
    } else if le(x.name, s[0].name) {
      assert InsertByName(x, s, le) == [x] + s && ([x] + s)[1..] == s;
    } else {
      var r := InsertByName(x, s[1..], le);
      InsertByNameStable(x, s[1..], key, le);
      var h0 := if le(s[0].name, key) && le(key, s[0].name) then [s[0]] else [];
      assert InsertByName(x, s, le) == [s[0]] + r && ([s[0]] + r)[1..] == r;
      assert EqualNamed(InsertByName(x, s, le), key, le) == h0 + (hx + EqualNamed(s[1..], key, le));
      assert h0 == [] || hx == [];
    }
  }

  /**
    The sort is stable, like `Array.prototype.sort`: the items whose names
    collate equal keep the order they were gathered in.
  */
  lemma {:induction false} SortByNameStable(s: seq<IconDataItem>, key: string, le: (string, string) -> bool)
    requires TotalPreorder(le)
    ensures EqualNamed(SortByName(s, le), key, le) == EqualNamed(s, key, le)
  {
    if s != [] {
      SortByNameStable(s[1..], key, le);
      InsertByNameStable(s[0], SortByName(s[1..], le), key, le);
    }
  }

  // ---------------------------------------------------------------------------
  // The published catalog

  /** The items the build has gathered once every name has been resolved. */
  function Gathered(entries: Option<seq<string>>, root: string, names: seq<string>, uris: seq<string>,
                    classify: string -> int): seq<IconDataItem>
    requires |names| == |uris|
  {
    BundledPass(entries, root) + ProviderItems(names, uris, classify, |names|)
  }

  lemma BundledPassLength(entries: Option<seq<string>>, root: string)
    ensures |BundledPass(entries, root)| == |SvgEntriesOf(entries)|
  {
    if entries.Some? { BundledItemsPerSvgEntry(entries.value, root); }
  }

  /** Every bundled item is CUSTOM or DISTRO. */
  lemma BundledGroups(entries: Option<seq<string>>, root: string)
    ensures forall it :: it in BundledPass(entries, root) ==> CUSTOM <= it.group <= DISTRO
  {
    var b := BundledPass(entries, root);
    if entries.Some? { BundledItemsPerSvgEntry(entries.value, root); }
    forall it | it in b ensures CUSTOM <= it.group <= DISTRO {
      var j :| 0 <= j < |b| && b[j] == it;
      var es := entries.value;
      assert IsSvg(SvgEntries(es)[j]) && b[j] == BundledItem(SvgEntries(es)[j], root);
    }
  }

  /** A provider item's group is whatever the classification gives for its URI. */
  lemma ProviderGroupsWithin(names: seq<string>, uris: seq<string>, classify: string -> int, lo: int, hi: int)
    requires |names| == |uris|
    requires forall u :: lo <= classify(u) <= hi
    ensures forall it :: it in ProviderItems(names, uris, classify, |names|) ==> lo <= it.group <= hi
  {
    var p := ProviderItems(names, uris, classify, |names|);
    ProviderItemsAt(names, uris, classify, |names|);
    forall it | it in p ensures lo <= it.group <= hi {
      var j :| 0 <= j < |p| && p[j] == it;
      assert it.group == classify(uris[j]);
    }
  }

  /** The regular expression puts every URI in ACTIONS..STATUS. */
  lemma GroupOfRange()
    ensures forall u :: ACTIONS <= IconClassifier.GroupOf(u) <= STATUS
  {
    forall u ensures ACTIONS <= IconClassifier.GroupOf(u) <= STATUS {
      IconClassifier.GroupOfSpec(u);
    }
  }

  /** Every provider item the regular expression classifies lies in ACTIONS..STATUS. */
  lemma ProviderGroups(names: seq<string>, uris: seq<string>)
    requires |names| == |uris|
    ensures forall it :: it in ProviderItems(names, uris, IconClassifier.GroupOf, |names|) ==> ACTIONS <= it.group <= STATUS
  {
    GroupOfRange();
    ProviderGroupsWithin(names, uris, IconClassifier.GroupOf, ACTIONS, STATUS);
  }

  /** The items after `b` are the provider items, one per name in order. */
  lemma ProviderItemsAfter(b: seq<IconDataItem>, names: seq<string>, uris: seq<string>, classify: string -> int)
    requires |names| == |uris|
    ensures |b + ProviderItems(names, uris, classify, |names|)| == |b| + |names|
    ensures forall k :: 0 <= k < |names| ==>
              (b + ProviderItems(names, uris, classify, |names|))[|b| + k] == ProviderItem(names[k], uris[k], classify)
  {
    ProviderItemsAt(names, uris, classify, |names|);
  }

  /** Sorting keeps exactly the items it is given, and puts them in collation order. */
  lemma SortedPermutation(all: seq<IconDataItem>, le: (string, string) -> bool)
    requires TotalPreorder(le)
    ensures SortedByName(SortByName(all, le), le)
    ensures multiset(SortByName(all, le)) == multiset(all) && |SortByName(all, le)| == |all|
    ensures forall it :: it in SortByName(all, le) <==> it in all
  {
    SortByNameSorted(all, le);
    SortByNamePermutes(all, le);
    var c := SortByName(all, le);
    forall it ensures it in c <==> it in all {
      assert it in c <==> it in multiset(c);
      assert it in all <==> it in multiset(all);
    }
  }

  /**
    What the build publishes: sorted by name, a permutation of the bundled items
    followed by the provider items, one item per `.svg` entry and one per name
    (none skipped), each in a group from CUSTOM to STATUS.
  */
  lemma PublishedCatalog(entries: Option<seq<string>>, root: string, names: seq<string>, uris: seq<string>,
                         le: (string, string) -> bool)
    requires |names| == |uris| && TotalPreorder(le)
    ensures var c := SortByName(Gathered(entries, root, names, uris, IconClassifier.GroupOf), le);
      && SortedByName(c, le)
      && multiset(c) == multiset(Gathered(entries, root, names, uris, IconClassifier.GroupOf))
      && |c| == |SvgEntriesOf(entries)| + |names|
      && (forall k :: 0 <= k < |names| ==> ProviderItem(names[k], uris[k], IconClassifier.GroupOf) in c)
      && (forall it :: it in c ==> CUSTOM <= it.group <= STATUS)
  {
    var b := BundledPass(entries, root);
    var p := ProviderItems(names, uris, IconClassifier.GroupOf, |names|);
    BundledPassLength(entries, root);
    BundledGroups(entries, root);
    ProviderGroups(names, uris);
    ProviderItemsAfter(b, names, uris, IconClassifier.GroupOf);
    SortedPermutation(b + p, le);
    forall k | 0 <= k < |names| ensures ProviderItem(names[k], uris[k], IconClassifier.GroupOf) in b + p {
      assert (b + p)[|b| + k] == ProviderItem(names[k], uris[k], IconClassifier.GroupOf);
    }
  }

  /** Idle steps a build of `n` names takes: one per chunk of 400, and one when there are none. */
  function ChunkSteps(n: nat): nat {
    if n == 0 then 1 else (n + CHUNK_SIZE - 1) / CHUNK_SIZE
  }

  lemma ChunkStepsIsCeiling(n: nat, steps: nat)
    requires 0 < n && CHUNK_SIZE * (steps - 1) < n <= CHUNK_SIZE * steps
    ensures ChunkSteps(n) == steps
  {
    var a := n + CHUNK_SIZE - 1;
    assert CHUNK_SIZE * steps <= a < CHUNK_SIZE * (steps + 1);
    var q := a / CHUNK_SIZE;
    assert a == CHUNK_SIZE * q + a % CHUNK_SIZE;
  }

  // ---------------------------------------------------------------------------
  // The loops of one idle step

  /** The loop over the enumerated bundled entries, run on the first step only. */
  method BundledLoop(entries: Option<seq<string>>, root: string) returns (acc: seq<IconDataItem>)
    ensures acc == BundledPass(entries, root)
  {
    acc := [];
    if entries.Some? {
      var es := entries.value;
      var k := 0;
      while k < |es|
        invariant 0 <= k <= |es|
        invariant acc == BundledItems(es[..k], root)
      {
        assert es[..k + 1][..k] == es[..k];
        if IsSvg(es[k]) {
          acc := acc + [BundledItem(es[k], root)];
        }
        k := k + 1;
      }
      assert es[..|es|] == es;
    }
  }

  /** The inner loop of a step: names `from` up to `end` are resolved and pushed. */
  method ResolveChunk(ghost b: seq<IconDataItem>, acc0: seq<IconDataItem>, names: seq<string>, uris: seq<string>,
                      classify: string -> int, from: nat, end: nat) returns (acc: seq<IconDataItem>)
    requires |names| == |uris| && from <= end <= |names|
    requires acc0 == b + ProviderItems(names, uris, classify, from)
    ensures acc == b + ProviderItems(names, uris, classify, end)
  {
    acc := acc0;
    var i := from;
    while i < end
      invariant from <= i <= end
      invariant acc == b + ProviderItems(names, uris, classify, i)
    {
      acc := acc + [ProviderItem(names[i], uris[i], classify)];
      i := i + 1;
    }
  }

  // ---------------------------------------------------------------------------
  // The memoising owner of the catalog

  /** `GLib.SOURCE_CONTINUE` / `GLib.SOURCE_REMOVE`. */
  datatype StepResult = Continue | Remove

  /** What `getSystemIcons` returns: an already resolved promise, or the pending one by identity. */
  datatype IconsHandle = Resolved(icons: seq<IconDataItem>) | Pending(promise: nat)

  /** The part of the preferences window `_setVisiblePage` drives. */
  class PrefsWindow {
    var visiblePageName: string
    var subpage: Subpage

    constructor (name: string)
      ensures visiblePageName == name && subpage == NoSubpage
    {
      visiblePageName := name;
      subpage := NoSubpage;
    }
  }

  /** The `prefs-visible-page` setting. */
  class PrefsSettings {
    var prefsVisiblePage: SettingsPage

    constructor (page: SettingsPage)
      ensures prefsVisiblePage == page
    {
      prefsVisiblePage := page;
    }
  }

  class ArcMenuPrefs {
    /** `localeCompare(a, b) <= 0`. */
    const collate: (string, string) -> bool
    /** `Constants.RESOURCE_PATH`, the folder the bundled icons' `icon` points into. */
    const resourceRoot: string
    /** The classification of a provider icon by its URI. */
    const classify: string -> int
    /** The extension's own icon path, removed from the theme's resource path. */
    const ownPath: string

    var cachedSystemIcons: Option<seq<IconDataItem>>
    /** The promise `_systemIconsPromise` holds, by identity. */
    var systemIconsPromise: Option<nat>
    /** `_idleAddId` is set: the build's idle callback is scheduled. */
    var idleScheduled: bool
    /** Promises created so far; the next one is numbered by this. */
    var promisesCreated: nat
    /** The promises that have resolved, with the catalog each resolved to. */
    var resolutions: map<nat, seq<IconDataItem>>

    // The state the current build's idle callback closes over.
    var resourcePaths: seq<string>
    var names: seq<string>
    var uris: seq<string>
    var cursor: nat
    var iconsData: seq<IconDataItem>
    /** The items the bundled pass of the current build added. */
    ghost var bundled: seq<IconDataItem>

    ghost predicate Valid()
      reads this
    {
      && |names| == |uris| && cursor <= |names|
      && (idleScheduled <==> systemIconsPromise.Some? && cachedSystemIcons.None?)
      && (cachedSystemIcons.Some? ==> systemIconsPromise.Some?)
      && (systemIconsPromise.Some? ==> systemIconsPromise.value < promisesCreated)
      && (forall id :: id in resolutions ==> id < promisesCreated)
      && (idleScheduled ==>
            && systemIconsPromise.value !in resolutions
            && Accumulated(iconsData, bundled, names, uris, classify, cursor))
      && (cachedSystemIcons.Some? ==>
            && systemIconsPromise.value in resolutions
            && resolutions[systemIconsPromise.value] == cachedSystemIcons.value
            && Published(cachedSystemIcons.value, bundled, names, uris, classify, collate))
    }

    constructor (collate: (string, string) -> bool, resourceRoot: string)
      ensures Valid()
      ensures this.collate == collate && this.resourceRoot == resourceRoot
      ensures classify == IconClassifier.GroupOf && ownPath == OWN_RESOURCE_PATH
      ensures cachedSystemIcons == None && systemIconsPromise == None && !idleScheduled
      ensures promisesCreated == 0 && resolutions == map[]
    {
      this.collate := collate;
      this.resourceRoot := resourceRoot;
      classify := IconClassifier.GroupOf;
      ownPath := OWN_RESOURCE_PATH;
      cachedSystemIcons := None;
      systemIconsPromise := None;
      idleScheduled := false;
      promisesCreated := 0;
      resolutions := map[];
      resourcePaths, names, uris, cursor, iconsData := [], [], [], 0, [];
      bundled := [];
    }

    /**
      `getSystemIcons`: the cached catalog if there is one, else the promise in
      flight, else a new build. Only the last case changes anything, so at most
      one build is ever in flight.
    */
    method GetSystemIcons(themeResourcePaths: seq<string>, themeNames: seq<string>, themeUris: seq<string>)
      returns (h: IconsHandle)
      requires Valid() && |themeNames| == |themeUris|
      modifies this
      ensures Valid()
      ensures old(cachedSystemIcons).Some? ==>
                h == Resolved(old(cachedSystemIcons).value) && unchanged(this)
      ensures old(cachedSystemIcons).None? && old(systemIconsPromise).Some? ==>
                h == Pending(old(systemIconsPromise).value) && unchanged(this)
      ensures old(cachedSystemIcons).None? && old(systemIconsPromise).None? ==>
                && h == Pending(old(promisesCreated))
                && systemIconsPromise == Some(old(promisesCreated))
                && promisesCreated == old(promisesCreated) + 1
                && idleScheduled && cachedSystemIcons == None && resolutions == old(resolutions)
                && resourcePaths == WithoutOwnPath(themeResourcePaths, ownPath)
                && names == themeNames && uris == themeUris && cursor == 0 && iconsData == []
    {
      if cachedSystemIcons.Some? {
        return Resolved(cachedSystemIcons.value);
      }
      if systemIconsPromise.Some? {
        return Pending(systemIconsPromise.value);
      }
      StartSystemIconsPromise(themeResourcePaths, themeNames, themeUris);
      h := Pending(systemIconsPromise.value);
    }

    /** `_startSystemIconsPromise`: a new promise, a fresh accumulator and the idle source. */
    method StartSystemIconsPromise(themeResourcePaths: seq<string>, themeNames: seq<string>, themeUris: seq<string>)
      requires |themeNames| == |themeUris|
      requires cachedSystemIcons.None? && systemIconsPromise.None?
      requires forall id :: id in resolutions ==> id < promisesCreated
      modifies this
      ensures Valid()
      ensures systemIconsPromise == Some(old(promisesCreated)) && promisesCreated == old(promisesCreated) + 1
      ensures idleScheduled && cachedSystemIcons == None && resolutions == old(resolutions)
      ensures resourcePaths == WithoutOwnPath(themeResourcePaths, ownPath)
      ensures names == themeNames && uris == themeUris && cursor == 0 && iconsData == []
    {
      var paths := WithoutOwnPath(themeResourcePaths, ownPath);
      systemIconsPromise := Some(promisesCreated);
      promisesCreated := promisesCreated + 1;
      resourcePaths, names, uris := paths, themeNames, themeUris;
      cursor, iconsData, bundled := 0, [], [];
      idleScheduled := true;
      assert Accumulated(iconsData, bundled, names, uris, classify, cursor);
    }

    /**
      One run of the idle callback. On the first run the enumerated bundled
      entries are added; then at most CHUNK_SIZE names are resolved; once every
      name is resolved the accumulator is sorted, published as the cache, the
      promise resolves to it and the source is removed.
    */
    method Step(entries: Option<seq<string>>) returns (r: StepResult)
      requires Valid() && idleScheduled
      modifies this
      ensures Valid()
      ensures names == old(names) && uris == old(uris) && resourcePaths == old(resourcePaths)
      ensures systemIconsPromise == old(systemIconsPromise) && promisesCreated == old(promisesCreated)
      ensures old(cursor) == 0 ==> bundled == BundledPass(entries, resourceRoot)
      ensures old(cursor) > 0 ==> bundled == old(bundled)
      ensures cursor == Min(old(cursor) + CHUNK_SIZE, |names|)
      ensures r == Continue <==> cursor < |names|
      ensures r == Continue ==> idleScheduled && resolutions == old(resolutions)
      ensures r == Remove ==>
                && !idleScheduled
                && cachedSystemIcons == Some(SortByName(bundled + ProviderItems(names, uris, classify, |names|), collate))
                && resolutions == old(resolutions)[systemIconsPromise.value := cachedSystemIcons.value]
    {
      var acc := iconsData;
      if cursor == 0 {
        acc := BundledLoop(entries, resourceRoot);
        bundled := acc;
        assert acc + [] == acc;
      }
      var end := Min(cursor + CHUNK_SIZE, |names|);
      acc := ResolveChunk(bundled, acc, names, uris, classify, cursor, end);
      if end < |names| {
        cursor, iconsData := end, acc;
        return Continue;
      }
      Publish(acc);
      r := Remove;
    }

    /**
      The end of the last step: the accumulator, now holding every item, is
      sorted, cached and resolves the promise, and the idle source is removed.
    */
    method Publish(acc: seq<IconDataItem>)
      requires Valid() && idleScheduled
      requires acc == bundled + ProviderItems(names, uris, classify, |names|)
      modifies this
      ensures Valid() && !idleScheduled
      ensures names == old(names) && uris == old(uris) && resourcePaths == old(resourcePaths) && bundled == old(bundled)
      ensures systemIconsPromise == old(systemIconsPromise) && promisesCreated == old(promisesCreated)
      ensures cursor == |names|
      ensures cachedSystemIcons == Some(SortByName(acc, collate))
      ensures resolutions == old(resolutions)[systemIconsPromise.value := cachedSystemIcons.value]
    {
      var sorted := SortByName(acc, collate);
      cursor, iconsData, cachedSystemIcons := |names|, sorted, Some(sorted);
      resolutions := resolutions[systemIconsPromise.value := sorted];
      idleScheduled := false;
    }

    /**
      The main loop dispatching the idle source until it is removed: a build
      started from scratch publishes the sorted catalog of everything gathered
      after exactly `ChunkSteps(|names|)` runs.
    */
    method RunIdleLoop(entries: Option<seq<string>>) returns (steps: nat)
      requires Valid() && idleScheduled && cursor == 0
      modifies this
      ensures Valid() && !idleScheduled
      ensures names == old(names) && uris == old(uris) && systemIconsPromise == old(systemIconsPromise)
      ensures promisesCreated == old(promisesCreated) && resourcePaths == old(resourcePaths)
      ensures cachedSystemIcons == Some(SortByName(Gathered(entries, resourceRoot, names, uris, classify), collate))
      ensures resolutions == old(resolutions)[systemIconsPromise.value := cachedSystemIcons.value]
      ensures steps == ChunkSteps(|names|)
    {
      steps := 0;
      var r := Continue;
      while r == Continue
        invariant Valid()
        invariant names == old(names) && uris == old(uris) && systemIconsPromise == old(systemIconsPromise)
        invariant promisesCreated == old(promisesCreated) && resourcePaths == old(resourcePaths)
        invariant r == Continue ==> idleScheduled && resolutions == old(resolutions)
                                    && cursor == CHUNK_SIZE * steps && (steps == 0 || cursor < |names|)
        invariant steps > 0 ==> bundled == BundledPass(entries, resourceRoot)
        invariant r == Remove ==>
                    && !idleScheduled && steps == ChunkSteps(|names|)
                    && cachedSystemIcons == Some(SortByName(Gathered(entries, resourceRoot, names, uris, classify), collate))
                    && resolutions == old(resolutions)[systemIconsPromise.value := cachedSystemIcons.value]
        decreases |names| - cursor, if r == Continue then 1 else 0
      {
        ghost var before := cursor;
        r := Step(entries);
        steps := steps + 1;
        if r == Remove && |names| > 0 {
          ChunkStepsIsCeiling(|names|, steps);
        }
      }
    }

    /**
      The window's close-request handler, as far as the catalog goes: the
      scheduled idle step is removed and the cache and promise are cleared, so the
      next `GetSystemIcons` starts a fresh build. A promise still in flight never
      resolves.
    */
    method CloseRequest()
      requires Valid()
      modifies this
      ensures Valid()
      ensures !idleScheduled && cachedSystemIcons == None && systemIconsPromise == None
      ensures promisesCreated == old(promisesCreated) && resolutions == old(resolutions)
    {
      if idleScheduled {
        idleScheduled := false;
      }
      cachedSystemIcons := None;
      systemIconsPromise := None;
      cursor, iconsData := 0, [];
    }

    /**
      `_setVisiblePage`: leaves any subpage, shows the page the setting names
      (unlisted values show nothing new) and resets the setting to MAIN.
    */
    method SetVisiblePage(window: PrefsWindow, settings: PrefsSettings)
      modifies window, settings
      ensures settings.prefsVisiblePage == Main
      ensures match ViewFor(old(settings.prefsVisiblePage))
              case Some(v) => window.visiblePageName == v.pageName && window.subpage == v.subpage
              case None => window.visiblePageName == old(window.visiblePageName) && window.subpage == NoSubpage
    {
      window.subpage := NoSubpage;
      var v := ViewFor(settings.prefsVisiblePage);
      if v.Some? {
        window.visiblePageName := v.value.pageName;
        window.subpage := v.value.subpage;
      }
      settings.prefsVisiblePage := Main;
    }
  }
}
