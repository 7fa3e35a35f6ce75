# ArcMenu preferences core and shell notifications, in Dafny

This project models four parts of the ArcMenu GNOME Shell extension.

1. **The icon catalog** (`src/prefs.js`). The preferences window builds the catalog of system icons that the icon picker offers. The build runs once and is memoised (`getSystemIcons`). Each build:
   - removes the extension's own resource path from a copy of the theme's paths;
   - adds the bundled `.svg` icons, grouped as CUSTOM or DISTRO by their name;
   - resolves the theme's icon names 400 per idle step, classifying each by a regular expression over its URI;
   - sorts the result by name, caches it and resolves the promise with it.

   Closing the window drops the cache, the promise and the idle source. `_setVisiblePage` shows the page named by the `prefs-visible-page` setting and then resets that setting to MAIN.
2. **The icon picker and the entry lists** (`src/prefsWidgets.js`):
   - the `IconGroup` and `IconCategory` tables;
   - the group dropdown, whose selected position is the group;
   - the filter that the group and the trimmed, lower-cased search text install;
   - the Move Up / Move Down / Remove menu of an entry row (`modifyEntry`);
   - the drop handler that reorders dragged rows.
3. **The monthly/new-release notification** (`notification.js`). On a new release it shows the release notification. Otherwise it shows a donation request at most once per calendar month. Either way it stores the time it notified.
4. **The support notifier** (`supportNotifier.js`). It shows one notification per new project version unless the user switched it off. Its actions open the Donate or What's-new page of the preferences.

The files, one module each:
- `wrappers.dfy`: `Option`.
- `text.dfy`: JavaScript's `trim`, `toLowerCase` and `includes`, over ASCII case.
- `icon_groups.dfy`: the enumerations and the dropdown.
- `icon_classifier.dfy`: the URI classification. An operational leftmost-match search is proved equal to a declarative reading of the regular expression.
- `icon_catalog.dfy`: the build, as functions and as the `ArcMenuPrefs` class with its idle loop, plus `_setVisiblePage`.
- `settings_pages.dfy`: the values of the `prefs-visible-page` setting and the page each one shows, shared by the window and the notifier.
- `icon_filter.dfy`: the picker filter.
- `entry_rows.dfy`: the list-box reorderings.
- `notification.dfy` and `support_notifier.dfy`: the two notifiers.

Things outside the program become parameters or fields:
- The icon theme provider is a set of inputs: the resource paths, the icon names and the URI each name resolves to.
- `Gio.resources_enumerate_children` is `Option<seq<string>>`, where `None` is a thrown error.
- `localeCompare(a, b) <= 0` is an abstract comparator `collate`. Where sortedness is proved, `collate` is required to be a total preorder.
- `Date.now()` is the `dateNow` parameter.
- `new Date(t)`'s local calendar fields are a `calendar` function parameter.
- `Constants.RESOURCE_PATH` is a constructor parameter.
- GSettings keys are fields of small settings classes.
- Each idle source is a boolean, and each promise a number; its resolution is an entry of a map.

Behaviour of the code worth noting:
- A URI such as `file:///usr/share/icons/<theme>/scalable/actions/x.svg` is captured as `scalable` and so lands in the SCALABLE group, not ACTIONS (`IconClassifier.ScalableBeforeActions`).
- The build has no per-name error handling: every icon name becomes exactly one item (`IconCatalog.PublishedCatalog`).
- Only the enumeration of the bundled icons is wrapped in `try`/`catch`; when it throws, the bundled pass adds nothing and the build goes on (`IconCatalog.BundledPassLength`).
- Closing the window while a build is running removes its idle source, so that build's promise never resolves (`IconCatalog.ArcMenuPrefs.CloseRequest`).

## Model

| member | source | states |
|---|---|---|
| Text.ToLower | src/prefsWidgets.js:252 | the lower-cased name has the same length, maps each character through ASCII lower-casing, and contains no upper-case letter |
| Text.Trim | src/prefsWidgets.js:267 | the trimmed text is a contiguous slice of the input obtained by cutting leading and trailing JavaScript whitespace, and neither of its ends is whitespace |
| Text.TrimNoEdges | src/prefsWidgets.js:267 | text whose ends are not whitespace is left unchanged by trimming |
| Text.TrimIdempotent | src/prefsWidgets.js:267 | trimming twice is trimming once |
| Text.ToLowerIdempotent | src/prefsWidgets.js:267 | lower-casing twice is lower-casing once |
| Text.LowerCharKeepsWhitespace | src/prefsWidgets.js:267 | lower-casing neither creates nor removes whitespace, so it commutes with the trim's edge test |
| Text.Includes | src/prefsWidgets.js:252 | `String.prototype.includes`; `Text.IncludesIff` states what it means |
| Text.IncludesIff | src/prefsWidgets.js:252 | `includes(q)` holds exactly when `q` occurs at some position of the string |
| Text.IncludesEmpty | src/prefsWidgets.js:252 | every string includes the empty string |
| IconGroups.SelectedGroup | src/prefsWidgets.js:161-175 | every dropdown position is an `IconGroup` value, and the label shown at that position is that group's label |
| IconGroups.DropdownCoversGroups | src/prefsWidgets.js:261-264 | the dropdown has one position per group, and selecting position k sets the current group to k |
| IconGroups.IconCategoryDistinct | src/prefsWidgets.js:28-40 | `IconCategory` is injective, with left inverse `CategoryName`; it maps only to groups other than ALL, CUSTOM and DISTRO, and reaches every group from ACTIONS to STATUS |
| IconClassifier.MatchAt | src/prefs.js:239 | the expression tried at one position; `MatchAtIsRegexMatch` proves it captures `t` exactly when the expression matches there capturing `t` |
| IconClassifier.LeftmostMatch | src/prefs.js:239 | `filename.match(...)`, the leftmost match and its capture; `LeftmostMatchIsRegexMatch` proves it is the leftmost position where the expression matches, and nothing exactly when it matches nowhere |
| IconClassifier.CategoryOf | src/prefs.js:240 | `match ? match[1].toLowerCase() : 'other'`; `CategoryIsCapturedToken` proves it is the captured alternative, or "other" |
| IconClassifier.GroupOf | src/prefs.js:244 | `IconCategory[category] ?? IconGroup.OTHER`; `GroupOfSpec` proves it is the category's entry, OTHER without a match, and within ACTIONS..STATUS |
| IconClassifier.FirstTokenSound | src/prefs.js:239 | an alternative found at a position is one of the ten folder names, occurs there ignoring case, and is followed by a valid tail |
| IconClassifier.FirstSuccessFound | src/prefs.js:239 | the scan stops at the first position where an attempt succeeds, and every earlier attempt failed |
| IconClassifier.FirstSuccessNone | src/prefs.js:239 | a scan that finds nothing had every attempt fail |
| IconClassifier.LeftmostMatchFound | src/prefs.js:239 | a match reported at `at` is a match there, and no earlier position matches |
| IconClassifier.LeftmostMatchNone | src/prefs.js:239 | when no match is reported, no position matches |
| IconClassifier.TailAtIsRegexTail | src/prefs.js:239 | the operational test of the tail `[/]?(?:[\dx]+ or scalable)?[/]` agrees with its declarative reading |
| IconClassifier.TokensExclusive | src/prefs.js:239 | at most one alternative of the capturing group occurs at a given position |
| IconClassifier.TokensDifferEarly | src/prefs.js:239 | alternatives that share their first three letters are equal |
| IconClassifier.MatchAtSound | src/prefs.js:239 | what the position test captures is a match of the regular expression |
| IconClassifier.FirstTokenFinds | src/prefs.js:239 | an alternative that matches with a valid tail is the one the search finds |
| IconClassifier.MatchAtComplete | src/prefs.js:239 | every match of the regular expression at a position is found by the position test |
| IconClassifier.MatchAtIsRegexMatch | src/prefs.js:239 | at each position, the test captures `t` exactly when the expression matches there capturing `t` |
| IconClassifier.LeftmostMatchIsRegexMatch | src/prefs.js:239 | the search finds nothing exactly when the expression matches nowhere; otherwise it finds the leftmost match and its captured alternative |
| IconClassifier.CategoryIsCapturedToken | src/prefs.js:239-240 | the lower-cased capture is the matched alternative itself, and "other" when nothing matched |
| IconClassifier.WordAtLowersTo | src/prefs.js:240 | a folder name matched ignoring case lower-cases to the alternative |
| IconClassifier.TokenCategorized | src/prefs.js:239-244 | every alternative of the expression is a key of `IconCategory`, mapped into ACTIONS..STATUS |
| IconClassifier.GroupOfSpec | src/prefs.js:239-244 | a provider icon's group is the `IconCategory` entry of the leftmost captured folder name, or OTHER without a match, and always lies in ACTIONS..STATUS |
| IconClassifier.WordAtLiteral | src/prefs.js:239 | a lower-case literal in the URI is a case-insensitive occurrence of itself |
| IconClassifier.ScalableBeforeActions | src/prefs.js:239-244 | a URI `<prefix>/scalable/actions/...` with no match starting inside the prefix is classified SCALABLE, because "scalable" is itself an alternative and matches first |
| IconClassifier.GluedSizeAccepted | src/prefs.js:239 | a size glued to the folder name (`/apps48/`, `/apps32x32/`) is still a match for that folder |
| IconClassifier.NoSlashIsOther | src/prefs.js:239-244 | a URI without a slash is OTHER |
| IconCatalog.WithoutOwnPath | src/prefs.js:194-196 | the copied paths after `splice(indexOf(own), 1)`; `WithoutOwnPathRemovesOne` and `WithoutOwnPathKeepsOthers` state what it keeps |
| IconCatalog.IndexOf | src/prefs.js:194 | `indexOf` gives -1 exactly when the path is absent, and otherwise a position holding it |
| IconCatalog.IndexOfFirst | src/prefs.js:194 | that position is the first one holding the path |
| IconCatalog.WithoutOwnPathRemovesOne | src/prefs.js:192-196 | without the own path the copy is unchanged; with it, the result is the copy with exactly its first occurrence cut out and the other entries in their order (the multiset loses one copy of the own path) |
| IconCatalog.OtherPaths | src/prefs.js:192-196 | the reference list of the paths other than the extension's own contains no own path |
| IconCatalog.OtherPathsAppend | src/prefs.js:192-196 | that reference list distributes over concatenation |
| IconCatalog.WithoutOwnPathKeepsOthers | src/prefs.js:192-196 | removing the own path keeps every other path, in order |
| IconCatalog.BundledItems | src/prefs.js:212-223 | the for-of loop over the entries; `BundledItemsPerSvgEntry` proves one item per `.svg` entry, in order |
| IconCatalog.BundledPass | src/prefs.js:208-226 | the bundled pass, empty when the enumeration throws; `BundledPassLength` and `BundledGroups` state its size and groups |
| IconCatalog.BundledItem | src/prefs.js:213-221 | a bundled item's name plus ".svg" is the entry, its icon lies under the resource root's `actions` folder, and its group is DISTRO exactly when the name starts with "distro", otherwise CUSTOM |
| IconCatalog.SvgEntries | src/prefs.js:212-214 | the kept entries are exactly the `.svg` entries |
| IconCatalog.SvgEntriesAppend | src/prefs.js:212-214 | selecting `.svg` entries distributes over concatenation |
| IconCatalog.BundledItemsPerSvgEntry | src/prefs.js:208-226 | the bundled pass yields one item per `.svg` entry, in entry order |
| IconCatalog.ProviderItem | src/prefs.js:241-245 | the item for one name: name and icon are the name, the group is the classification of its URI (`ProviderItemsAt`, `ProviderGroups`) |
| IconCatalog.ProviderItems | src/prefs.js:229-247 | the first n names yield exactly n items |
| IconCatalog.ProviderItemsAt | src/prefs.js:229-247 | item k has name and icon `names[k]` and the group of the URI `names[k]` resolves to |
| IconCatalog.SortByName | src/prefs.js:252 | `sort` by `localeCompare` of the names, as an insertion sort; `SortedPermutation` and `SortByNameStable` state that it is sorted, a permutation and stable |
| IconCatalog.InsertByNameAdds | src/prefs.js:252 | an insertion step adds exactly the one item |
| IconCatalog.SortByNamePermutes | src/prefs.js:252 | sorting by name is a permutation |
| IconCatalog.InsertByNameSorted | src/prefs.js:252 | inserting into a sorted list keeps it sorted, for a total preorder |
| IconCatalog.SortByNameSorted | src/prefs.js:252 | the sorted catalog is in collation order |
| IconCatalog.EqualNamed | src/prefs.js:252 | the reference selection of the items whose names collate equal to a key, in order |
| IconCatalog.InsertByNameStable | src/prefs.js:252 | an insertion puts the new item before every item whose name collates equal to its own, and leaves the other items of that class in order |
| IconCatalog.SortByNameStable | src/prefs.js:252 | for every name, the items whose names collate equal to it keep their gathered order in the sorted catalog |
| IconCatalog.BundledPassLength | src/prefs.js:208-226 | a failed enumeration yields no bundled items; otherwise one per `.svg` entry |
| IconCatalog.BundledGroups | src/prefs.js:220 | every bundled item is CUSTOM or DISTRO |
| IconCatalog.ProviderGroupsWithin | src/prefs.js:244 | if every classification lies in lo..hi, so does every provider item's group |
| IconCatalog.GroupOfRange | src/prefs.js:239-244 | the classification puts every URI in ACTIONS..STATUS |
| IconCatalog.ProviderGroups | src/prefs.js:239-246 | every provider item lies in ACTIONS..STATUS |
| IconCatalog.ProviderItemsAfter | src/prefs.js:222-246 | after the bundled items come the provider items, one per name, in name order |
| IconCatalog.SortedPermutation | src/prefs.js:252 | the sort keeps exactly the items it is given and puts them in collation order |
| IconCatalog.PublishedCatalog | src/prefs.js:207-257 | the published catalog is sorted and is a permutation of everything gathered; it has one item per `.svg` entry and one per name, contains every provider item, and every group lies in CUSTOM..STATUS |
| IconCatalog.ChunkSteps | src/prefs.js:205-250 | the number of idle runs a build takes; `ChunkStepsIsCeiling` proves it is the ceiling of n / 400, and `RunIdleLoop` that the loop takes exactly that many |
| IconCatalog.ChunkStepsIsCeiling | src/prefs.js:205-250 | a build of n > 0 names takes the ceiling of n / 400 idle steps |
| IconCatalog.BundledLoop | src/prefs.js:208-226 | the loop over enumerated entries computes the bundled pass, and nothing when the enumeration threw |
| IconCatalog.ResolveChunk | src/prefs.js:228-247 | resolving names `from` to `end` extends the accumulator by exactly those provider items |
| SettingsPages.ViewFor | src/prefs.js:136-168 | every listed setting value shows one of the window's pages; exactly the unlisted values show none |
| IconCatalog.ArcMenuPrefs.constructor | src/prefs.js:27-40 | starts without cache, promise or idle source, with the extension's own resource path as the path to exclude |
| IconCatalog.ArcMenuPrefs.GetSystemIcons | src/prefs.js:173-182 | returns the cache, else the pending promise, and in both cases changes nothing; only with neither does it start a new build and return its promise, so at most one build is in flight |
| IconCatalog.ArcMenuPrefs.StartSystemIconsPromise | src/prefs.js:184-207 | creates a fresh promise and an empty accumulator over the paths without the own one, and schedules the idle source |
| IconCatalog.ArcMenuPrefs.Step | src/prefs.js:207-258 | a step adds the bundled pass first, advances the cursor by at most 400 names, and continues exactly while names remain; the last step caches the sorted items and resolves the promise to them |
| IconCatalog.ArcMenuPrefs.Publish | src/prefs.js:249-257 | the accumulator is sorted, cached, resolves the promise, and the idle source is removed |
| IconCatalog.ArcMenuPrefs.RunIdleLoop | src/prefs.js:207-258 | after exactly `ChunkSteps` of the name count steps, a fresh build has cached, and resolved its promise with, the sorted catalog of everything gathered |
| IconCatalog.ArcMenuPrefs.CloseRequest | src/prefs.js:82-93 | closing removes the idle source and clears cache and promise, so the next request starts a new build; no promise resolves |
| IconCatalog.ArcMenuPrefs.SetVisiblePage | src/prefs.js:136-171 | leaves any subpage, shows the page (and subpage) the setting names, keeps the page for unlisted values, and resets the setting to MAIN |
| IconFilter.NormalizeQuery | src/prefsWidgets.js:267 | `searchEntry.text.trim().toLowerCase()`; `NormalizedQuery` states what the stored query looks like |
| IconFilter.NormalizedQuery | src/prefsWidgets.js:266-269 | the stored query has no upper-case letter and no whitespace at either end, and normalising it again changes nothing |
| IconFilter.Matches | src/prefsWidgets.js:244-256 | the filter function for one item; `MatchesIff` states when it passes |
| IconFilter.MatchesIff | src/prefsWidgets.js:244-256 | an item passes exactly when the group is ALL or its own, and the query occurs in its lower-cased name; the empty query passes any name |
| IconFilter.FilterItems | src/prefsWidgets.js:244-256 | the items the filter model shows, in catalog order; `FilterItemsMembers`, `FilterItemsAppend`, `FilterShowsAll` and `FilterByGroup` state which |
| IconFilter.FilterItemsMembers | src/prefsWidgets.js:244-256 | the filtered view holds exactly the catalog items that pass, never more items than the catalog |
| IconFilter.FilterItemsAppend | src/prefsWidgets.js:244-256 | filtering keeps catalog order: it distributes over concatenation |
| IconFilter.FilterShowsAll | src/prefsWidgets.js:244-256 | group ALL with the empty query shows the whole catalog, unchanged and in order |
| IconFilter.FilterByGroup | src/prefsWidgets.js:250-251 | a group other than ALL shows only items of that group |
| IconFilter.FilterThree | src/prefsWidgets.js:244-256 | for any three items, the filter is one test per item, kept in order |
| IconFilter.MissingLetter | src/prefsWidgets.js:253-254 | a name that lacks the query's first letter is filtered out |
| IconFilter.OccurringQueryMatches | src/prefsWidgets.js:253-254 | a name whose lower-cased form holds the query at some offset passes it; the partner of `MissingLetter` |
| IconFilter.AlphaMisses | src/prefsWidgets.js:253-254 | a step of the `FilterExample` illustration: "Alpha" does not match "et" |
| IconFilter.GammaMisses | src/prefsWidgets.js:253-254 | a step of the `FilterExample` illustration: "Gamma" does not match "et" |
| IconFilter.BetaHits | src/prefsWidgets.js:253-254 | a step of the `FilterExample` illustration: "beta" matches "et" |
| IconFilter.FilterExample | src/prefsWidgets.js:244-256 | an illustration: on [Alpha, beta, Gamma], group APPS shows Alpha and Gamma, and the query "et" shows beta |
| EntryRows.IndexOf | src/prefsWidgets.js:507-508 | `get_index` is the row's position in its list box |
| EntryRows.RemoveAt | src/prefsWidgets.js:666 | removing a row shortens the list by one and keeps the others in order |
| EntryRows.InsertAt | src/prefsWidgets.js:668 | inserting puts the row at the position, or at the end when the position is out of range, and keeps the others in order |
| EntryRows.Relocate | src/prefsWidgets.js:516-518 | `remove(dragRow)` then `insert(dragRow, newIndex)`; `RelocatePlaces` and `RelocateUnique` state what the list becomes |
| EntryRows.RelocatePlaces | src/prefsWidgets.js:516-518 | after a remove and reinsert the row sits at the target index, the other rows are unchanged in order, and the list is a permutation of the old one |
| EntryRows.RelocateUnique | src/prefsWidgets.js:516-518 | those facts determine the reordered list |
| EntryRows.RelocateDownIsSwap | src/prefsWidgets.js:664-668 | moving a row one down exchanges it with its successor |
| EntryRows.RelocateUpIsSwap | src/prefsWidgets.js:664-668 | moving a row one up exchanges it with its predecessor |
| EntryRows.ListBox.Remove | src/prefsWidgets.js:666 | removes exactly that row and keeps the rows distinct |
| EntryRows.ListBox.Insert | src/prefsWidgets.js:668 | inserts at the position (appending when it is out of range) and keeps the rows distinct |
| EntryRows.EditEntriesBox.ModifyEntry | src/prefsWidgets.js:642-672 | Move Down on the last row and Move Up on the first change nothing and emit nothing; otherwise a move swaps the row with its neighbour and emits (start, start ± 1), and Remove deletes exactly that row and emits (start, -1) |
| EntryRows.Drop | src/prefsWidgets.js:504-522 | a drop is always accepted; onto the row's own position it changes nothing and emits nothing; otherwise the row is reinserted at the target's original index and `drag-drop-done` is emitted |
| MonthlyNotification.NextMonthSameDay | notification.js:134-141 | the same day of the following month is one month later |
| MonthlyNotification.HasMonthElapsed | notification.js:118-145 | `_hasMonthElapsed`; `MonthElapsedMeansNextMonthReached`, `MonthElapsedCases` and `MonthElapsedMonotone` state what it means |
| MonthlyNotification.MonthElapsedMeansNextMonthReached | notification.js:118-145 | a month has elapsed exactly when nothing was ever notified, or the end date has reached the start's day in the following month |
| MonthlyNotification.NeverNotifiedElapsed | notification.js:119-120 | timestamp 0 counts as elapsed |
| MonthlyNotification.MonthElapsedCases | notification.js:134-144 | for a real start: more than one month apart is elapsed; exactly one month is elapsed iff the end day is not before the start day; otherwise not elapsed |
| MonthlyNotification.SameInstantNotElapsed | notification.js:118-145 | no month elapses between a real timestamp and itself |
| MonthlyNotification.MonthElapsedMonotone | notification.js:118-145 | once elapsed, a month stays elapsed for any later end date |
| MonthlyNotification.Decide | notification.js:48-68 | the settings written and the notification shown by one check; `DecideShows`, `DecideWrites` and `SecondCheckSilent` state them |
| MonthlyNotification.DecideShows | notification.js:64-67 | the release notification is shown exactly when the flag is set; the monthly one exactly when the flag is clear and a month elapsed; otherwise nothing |
| MonthlyNotification.DecideWrites | notification.js:59-62 | the settings are written exactly when something is shown: the flag cleared, the date set to now; otherwise both are kept |
| MonthlyNotification.SecondCheckSilent | notification.js:48-68 | a second check at the same real instant shows nothing |
| MonthlyNotification.SecondCheckAtEpoch | notification.js:48-68 | at time 0, the stored "now" reads as "never notified", and a second check shows the monthly notification again |
| MonthlyNotification.DecimalString | notification.js:41 | `toString` of a version number is a string of decimal digits without a leading zero that denotes the number |
| MonthlyNotification.VersionText | notification.js:41 | the version is the non-empty `version-name`, else the decimal version number |
| MonthlyNotification.ActionLinks | notification.js:111-116 | the actions end with the PayPal and Buy-Me-a-Coffee links; "What's new?" comes first exactly for a release notification |
| MonthlyNotification.Notification.constructor | notification.js:37-46 | sets the version, icon path and release link, then checks the settings once |
| MonthlyNotification.Notification.MaybeShowNotification | notification.js:48-68 | writes the settings and shows at most one notification, as `Decide` gives from the settings read and the time now |
| MonthlyNotification.Notification.ShowNotification | notification.js:70-109 | records the type and hands exactly one notification with its actions to the tray |
| MonthlyNotification.Notification.AddNotificationActions | notification.js:111-116 | the notification's actions are the links of `ActionLinks` for its type |
| SupportNotifier.ActionsOpenShownPages | supportNotifier.js:91-95 | the Donate action opens the donation page, and "What's new?" opens the about page's what's-new subpage |
| SupportNotifier.Decide | supportNotifier.js:43-55 | the stored version and the notification of one check; `DecideShowsNewVersion`, `DecideMonotone` and `SecondCheckSilent` state them |
| SupportNotifier.DecideShowsNewVersion | supportNotifier.js:43-55 | a notification is shown exactly when enabled and the stored version is older, and the stored version then becomes the current one; otherwise it is kept |
| SupportNotifier.DecideMonotone | supportNotifier.js:43-55 | the stored version never decreases, and is either kept or set to the current version |
| SupportNotifier.SecondCheckSilent | supportNotifier.js:43-55 | a second check for the same version shows nothing and changes nothing |
| SupportNotifier.SupportNotification.constructor | supportNotifier.js:25-34 | takes the settings, version and icon path from the extension, then checks once |
| SupportNotifier.SupportNotification.Destroy | supportNotifier.js:36-41 | drops the settings, extension, version and icon path |
| SupportNotifier.SupportNotification.MaybeShowNotification | supportNotifier.js:43-55 | disabled does nothing; an older stored version is replaced by the current one and one notification is shown; otherwise nothing happens |
| SupportNotifier.SupportNotification.ShowNotification | supportNotifier.js:57-78 | hands one notification for the current version to the tray, with the Donate, What's-new and Dismiss actions |
| SupportNotifier.SupportNotification.OpenSettingsPage | supportNotifier.js:97-100 | stores the page in `prefs-visible-page` and opens the preferences on it |

## Left out

- The GTK and libadwaita widgets are not modelled: building pages, the icon grid, popovers, CSS and drag icons. `DonatePage` and the preferences pages other than `_setVisiblePage` are not modelled either.
- IconCatalog.ArcMenuPrefs.constructor: the registration of the extension's icon path and of the gresource bundle with the icon theme is I/O and is not modelled.
- Idle sources and promises are not concurrent here. A source is a flag and a promise is a number. The main loop dispatching the source is `RunIdleLoop`, and promise resolution is an entry of `resolutions`.
- Calls into the icon theme (`get_icon_names`, `lookup_icon`, `get_file().get_uri()`) and `Gio.resources_enumerate_children` are inputs. The new `Gtk.IconTheme` built over the remaining paths is reduced to the `resourcePaths` field.
- IconCatalog.SortByName: `Array.prototype.sort` is modelled as an insertion sort by an abstract `collate` comparator. `localeCompare` itself is not modelled; the sortedness lemmas assume `collate` is a total preorder. The sort is proved sorted, a permutation and stable, as `sort` is required to be; that it then gives exactly the engine's order is not proved in Dafny.
- Text.ToLower: only ASCII letters are case-folded. `toLowerCase` folds all of Unicode.
- `console.log` timing and counts, and the window's realize timing, are logging only.
- The initial `idle_add` in `fillPreferencesWindow` that calls `getSystemIcons` is modelled only as a call to `GetSystemIcons`. The close-request handler's settings disconnects are not modelled, and neither is its removal of that pending initial idle (`_timeoutAddId`, `src/prefs.js:87-90`): when the window closes before the idle runs, `getSystemIcons` is never called.
- MessageTray rendering is not modelled: sources, titles, bodies, urgency, residency, gettext translation and the GNOME version branching (`ShellVersion`, `SystemNotificationSource`). `openUri` and the action callbacks are not modelled either. A notification is its type (or version) plus its action list.
- `support-notifier-project-version` is a 32-bit GSettings integer, and `previous-notification-date` is an unsigned 64-bit one. Neither range is modelled.
- `new Date(t)` is the `calendar` parameter. Time zones and daylight saving are folded into it.
- Calling `_maybeShowNotification` after `destroy` would throw in the source. The model's `MaybeShowNotification` requires the fields to be set instead.
- EntryRows.ListBox.Insert: `Gtk.ListBox.insert` appending for a position that is negative or past the end is taken from GTK's documentation. The `show()` calls only redraw and are not modelled.
- The drop handler's asynchronous `read_value_async` / `finish` handshake with the drag source is not modelled.
- `src/constants.js` is not part of this model. The numeric values of `SettingsPage` are therefore a datatype, and `RESOURCE_PATH` is a parameter.
- EntryRows.Drop: a drag that starts in a different list box is not modelled. The handler reads `parent.dragRow`, which is then unset or stale, so `get_index` throws or an old row is reinserted. The model requires the dragged row to be a row of the target's list box.
