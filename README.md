# MCU unlock map: a verified model of its core

This project models, in Dafny, the core of a web app that draws the Marvel
films and series as a branching "unlock map".

- **Catalog.** A fixed catalog (`projects.js`) gives every entry its
  prerequisites, a phase label and a grid position.
- **Progress map.** The user's progress is an insertion-ordered map from entry
  id to `{count, watchedWith, memories}`. An entry is **watched** when its id
  is a key of the map.
- **Derived states.** From the map the page derives which entries are
  **visible** and which are **unlocked**.
- **Drawing.** It lays the visible entries out on a pixel grid and keeps a keyed
  table of node elements in step with them. It draws an arrow for each visible
  prerequisite edge and scrolls to centre a target node.
- **Characters page.** Characters unlock when their debut entry is watched.
- **Friend routes.** The server lets users send friend requests and "watched
  together" requests. Accepting a watch request updates both users' progress.

The modules follow the source:

| module (file) | source | form |
|---|---|---|
| `Wrappers` (wrappers.dfy) | — | `Option` |
| `Digits` (digits.dfy) | script.js:212-216 | the first digit run of a string, decimal digits |
| `Catalog` (catalog.dfy) | projects.js, script.js:23-29 | the catalog and the phase-unlocker table, as constants |
| `Graph` (graph.dfy) | script.js:201-253 | `parsePhase`, the visibility and unlock predicates, the `unlocks` adjacency, `getHighestUnlockedPhase` |
| `Progress` (progress.dfy) | script.js:76-219, 624-625, 946-956, 1093-1122 | the progress map as a value, its mutators and its two storage encodings |
| `WatchStore` (watch_state.dfy) | script.js:76-219, 1021-1053 | the `WatchState` class, whose methods update its fields in place |
| `Layout` (layout.dfy) | script.js:1-21, 258-278, 335-348 | bounds, `toPixel` and the container extent |
| `Scene` (scene.dfy) | script.js:283-523, 1021-1058 | the `MapRenderer` class with its `NodeElement` objects, the arrows, centring, the click guard and the peer view's read-only switch |
| `MemoryLightbox` (lightbox.dfy) | script.js:1218-1250 | the lightbox cursor, as a class |
| `CharactersPage` (characters.dfy) | characters-page.js | watched-id extraction, the unlock filter, search, count label and initials |
| `SocialStore` (friends.dfy) | routes/friends.js | the routes over an in-memory store class of Friend records and user documents |
| `CatalogFacts`, `CatalogNodes` (catalog_facts.dfy, catalog_nodes.dfy) | projects.js | facts about the concrete catalog |

Interfaces to the outside world become parameters:

- a successful server response (`Option<seq<ServerEntry>>`, `None` when the
  request failed);
- the parsed local cache (`None` when it does not parse);
- whether a token is present;
- the spacing constants the media query picks;
- the rectangles the browser reports.

A save is recorded in the `saves` history of `WatchState`: the payload it
sends is `LastPersisted`, and the same history stands for the notification of
the listeners.

A phase-1 node is unlocked whatever is watched (script.js:239), so an
unlocked node need not be visible:

- **avengers1.** It is in phase 1, so it is unlocked at all times, yet it is
  hidden until thor1, cap1 and hulk are all watched.
- **Where the model states it.** `Graph.UnlockedImpliesVisible` therefore
  requires a phase other than 1. `CatalogNodes.Avengers1Gates` states the
  behaviour the code actually has.

## Model

| member | source | states |
|---|---|---|
| Digits.FirstDigitRunSpec | script.js:212-216 | The match of `/\d+/` is absent exactly when the string has no digit; otherwise it is a non-empty, maximal run of digits that nothing before it starts earlier |
| Digits.DecimalRoundTrip | script.js:215 | `+match[0]` reads back the number whose decimal digits were written |
| Digits.FirstDigitRunOf | script.js:214 | In a string made of a digit-free prefix, a digit run and a suffix not starting with a digit, the match is exactly that run |
| Digits.LeadingNumber | script.js:1236 | The leading digits of a decimal number followed by a non-digit read back that number |
| Graph.ParsePhaseOfNumber | script.js:213 | A numeric phase is kept unchanged |
| Graph.ParsePhaseOfLabel | script.js:214-215 | A label whose first digit run spells n parses to n |
| Graph.ParsePhaseWithoutDigits | script.js:214-215 | A label with no digit parses to 1 |
| Graph.UnlockRule | script.js:232-242 | A phase-1 node is always unlocked. A later node is unlocked iff the phase table has an unlocker for its phase, that unlocker is watched, and all its prerequisites are watched |
| Graph.VisibilityRule | script.js:244-248 | The start node and watched nodes are visible; any other node is visible iff all its prerequisites are watched |
| Graph.UnlockedImpliesVisible | script.js:238-248 | From phase 2 on, unlocked implies visible |
| Graph.Monotone | script.js:232-248 | Watching more never hides or locks a node |
| Graph.VisibleProjects | script.js:259 | The filter keeps exactly the visible entries |
| Graph.VisibleIdsSnoc | script.js:355 | Appending a node to the scanned entries adds its id to the visible id set exactly when it is visible |
| Graph.Unlocks | script.js:206-208 | `p.unlocks` holds exactly the ids of the entries whose prerequisites name p |
| Graph.UnlocksInverse | script.js:206-208 | B is in A's `unlocks` if A is among B's prerequisites, and only then when ids are distinct |
| Graph.ById | script.js:202 | Every entry's id is a key, and each key maps to an entry of the catalog with that id |
| Graph.ByIdFinds | script.js:202 | With distinct ids every entry is found under its own id |
| Graph.MaxUnlockedPhase | script.js:250-253 | None iff no node is phase-unlocked; otherwise the largest phase number among the phase-unlocked nodes, attained by one of them |
| Progress.Remove | script.js:161 | Deleting a key keeps exactly the other keys and keeps them free of duplicates |
| Progress.RemoveKeepsOrder | script.js:161 | Deleting the key at position i leaves the keys before and after it, in their order |
| Progress.Put | script.js:95-99 | `Map.set` keeps the map well formed (distinct keys, key list equal to the key set) |
| Progress.Delete | script.js:161 | `Map.delete` keeps the map well formed, drops exactly that key's entry and keeps the other keys in their order |
| Progress.LastWatchedIdIsNewestKey | script.js:188-194 | The last watched id is the start node on an empty map and a key otherwise |
| Progress.PutNewKeyBecomesLast | script.js:188-194 | A newly inserted id becomes the last watched id |
| Progress.ToggleSpec | script.js:160-168 | Toggle flips membership of the id and changes no other key. A new id gets count 1 and no memories and is appended to the key order; a watched id is cut out of the order, the keys before and after it keeping their places |
| Progress.UntoggleNewest | script.js:160-194 | Untoggling the newest key makes the key before it the last watched, or the start node when it was the only one |
| Progress.ToggleTwice | script.js:160-168 | Toggling an unwatched id twice restores the map exactly; toggling a watched id twice resets its entry and moves it to the end |
| Progress.WatchAgainSpec | script.js:147-158 | A watched id gains exactly one viewing and keeps its co-viewers and memories; an absent id leaves the map unchanged with count 0. The key set and order never change |
| Progress.DecodeServer | script.js:95-99 | Loading server entries keeps the map well formed |
| Progress.DecodeServerReplays | script.js:95-128 | Loading the first n elements of the save payload replays the first n keys in order |
| Progress.ServerRoundTrip | script.js:95-128 | Loading what save sent gives the same keys, order and entries, except that a missing `watchedWith` comes back as `[]` |
| Progress.ReplayRebuilds | script.js:1048-1049 | Setting the first n keys of a map, in order, into an empty map rebuilds that prefix |
| Progress.ReplayAll | script.js:1048-1049 | Replaying every key of a map in order into an empty map rebuilds it exactly |
| Progress.DecodeCache | script.js:108-115 | Reading the cache keeps the map well formed |
| Progress.PropertyOrder | script.js:138-139 | The keys of the cache object as `Object.entries` lists them: each key once, as many as were inserted, and in insertion order when no key is an array index |
| Progress.SortIndices | script.js:138-139 | The array-index keys come out ascending by value, each once, none lost |
| Progress.IndexKeyFirst | script.js:138-139 | Keys inserted as "thor1" then "7" are listed as "7" then "thor1" |
| Progress.DecodeCacheReplays | script.js:108-115 | Reading the cache items written for a key list sets those keys in that order, entries verbatim |
| Progress.CacheReplaysOrdered | script.js:108-139 | Reading back the saved cache object gives the saved entries with the keys in property order |
| Progress.CacheRoundTrip | script.js:108-139 | The local cache restores every entry exactly; the keys come back in property order (array indices first, ascending, then the others in insertion order), so the map comes back exactly when no key is an array index |
| Progress.Persisted | script.js:121-139 | The two payloads a save can write: the server payload reads back as the normalised map, the cache object as the same entries in property order |
| Progress.CacheMovesIndexKeysFirst | script.js:108-194 | A map whose newest key is "7" reloads from the cache with "thor1" as the last watched id |
| Progress.LegacyFlags | script.js:110-111 | A legacy `true` marks the id watched once with a fresh entry; `false` adds nothing |
| Progress.Loaded | script.js:86-119 | Load keeps the map well formed |
| Progress.ReloadAfterSave | script.js:86-139 | A fresh load reads back what the last save wrote: from the server the normalised map, from the cache the entries in property order |
| Progress.WithoutUrl | script.js:625 | The memory filter never grows the list |
| Progress.WithoutUrlDistributes | script.js:625 | The filter works piece by piece, so the kept memories keep their order |
| Progress.WithoutUrlMembers | script.js:625 | The kept memories are exactly those with another URL |
| Progress.WithoutAbsentUrl | script.js:625 | Removing a URL no memory has changes nothing |
| Progress.MemoryRemovedSpec | script.js:624-625 | Memory removal keeps keys, order, count and co-viewers; the memories become exactly the old ones without that URL, in their order; no other entry changes |
| Progress.AddName | script.js:950-951 | The name is appended exactly when it is missing, and the old names keep their places |
| Progress.AcceptMergeThrowsAfterToggle | script.js:946-956 | As written, accepting a watch request on an entry created by toggle throws (toggle, script.js:164, creates entries without `watchedWith`) |
| Progress.AcceptMergeSpec | script.js:946-956 | An absent entry is created with count 1 and no co-viewers and becomes the last watched. A present one gains one viewing and keeps its memories and its key position; its co-viewers gain the requester's name at the end unless it is there already, and stay as they were without a requester name. Nothing else changes. It agrees with the as-written handler wherever that one does not throw |
| Progress.RecordCoViewerThrowsAfterToggle | script.js:1093-1122 | As written, recording the co-viewer on an entry created by toggle throws (toggle, script.js:164, creates entries without `watchedWith`) |
| Progress.WatchedTogetherSpec | script.js:1093-1122 | Afterwards the project is watched and its co-viewers are the old ones followed by the friend, unless already there. Count, memories and key order are unchanged for a watched project. A new entry has count 1, only that friend and no memories, and it is appended, so it becomes the last watched id. It agrees with the as-written code wherever that does not throw |
| WatchStore.WatchState.constructor | script.js:77-82 | A new store has an empty map, no listeners and no saves |
| WatchStore.WatchState.Save | script.js:121-143 | Each save records the current map as persisted and delivered to the listeners |
| WatchStore.WatchState.LastPersisted | script.js:121-143 | The last save's payloads read back as the last saved map: normalised entries from the server payload, every entry in property order from the cache object |
| WatchStore.WatchState.Load | script.js:86-119 | The map becomes `Loaded`: server entries when logged in and the request succeeded, otherwise the parsed cache |
| WatchStore.WatchState.LoadServer | script.js:95-99 | The loop sets every server entry in order |
| WatchStore.WatchState.LoadCache | script.js:108-115 | The loop applies every cache value in order |
| WatchStore.WatchState.ReloadAfterLogin | script.js:747-751 | After login the map is exactly what a load into an empty map gives |
| WatchStore.WatchState.WatchAgain | script.js:152-158 | The map becomes `WatchedAgain`; a save happens only when the id was watched |
| WatchStore.WatchAgainKeepsGates | script.js:152-158 | watchAgain changes no node's visibility or unlock state (the rules of script.js:232-248 read only the key set) |
| WatchStore.WatchState.Toggle | script.js:160-168 | The map becomes `Toggled`, one save happens, and the result is the new watched status, true iff the id was absent |
| WatchStore.WatchState.Clear | script.js:170-185 | The map becomes empty and the empty map is what is persisted |
| WatchStore.WatchState.GetLastWatchedId | script.js:188-194 | The loop returns the last inserted key, or the start node on an empty map |
| WatchStore.WatchState.Subscribe | script.js:196-199 | The listener is added |
| WatchStore.WatchState.Unsubscribe | script.js:198 | The returned function removes the listener |
| WatchStore.WatchState.InitProjects | script.js:201-210 | Afterwards `byId` is the id index and `unlocks` holds every entry's adjacency |
| WatchStore.IndexById | script.js:202 | The loop builds the id index, the later entry winning |
| WatchStore.UnlocksTable | script.js:203-209 | The loop stores `Unlocks` under each entry's id and nothing else |
| WatchStore.WatchState.BeginPeerView | script.js:1025-1036 | The own map is handed back and the map becomes the peer's entries loaded into an empty map |
| WatchStore.WatchState.EndPeerView | script.js:1047-1049 | Restoring the kept map key by key gives it back exactly |
| WatchStore.WatchState.RemoveMemory | script.js:624-625 | The map becomes `MemoryRemoved` |
| WatchStore.WatchState.AcceptWatchRequest | script.js:946-957 | A watch request with a project merges by `AcceptMerge` and saves; anything else changes nothing |
| WatchStore.WatchState.WatchedWithFriend | script.js:1091-1125 | The project is marked watched (saved if new); once sent, the friend is recorded (saved if added) |
| Layout.MinOf | script.js:266-268 | `Math.min` returns an element no larger than any other |
| Layout.MaxOf | script.js:267-269 | `Math.max` returns an element no smaller than any other |
| Layout.ColumnsAttained | script.js:266-267 | The smallest and the largest column are those of some visible node |
| Layout.RowsAttained | script.js:268-269 | The smallest and the largest row are those of some visible node |
| Layout.BoundsOf | script.js:262-270 | The bounds enclose every visible node and each side is attained by one |
| Layout.GetBounds | script.js:258-271 | None iff nothing is visible, else the tight box of the visible nodes |
| Layout.NoBoundsIffNothingVisible | script.js:258-260 | Bounds are null iff no catalog node is visible |
| Layout.PixelInBox | script.js:275-278 | A node inside the box maps to an offset inside the span and a footprint inside the container, touching the edges at the extremes (container size from script.js:339-344) |
| Layout.PlacementInContainer | script.js:258-278 | Every visible node lies in [0, span·spacing] and inside the container; the leftmost and topmost sit at 0 (container size from script.js:339-344) |
| Layout.EdgesAreOccupied | script.js:258-278 | Some visible node touches each of the four container edges (container size from script.js:339-344) |
| Scene.NodeElement.constructor | script.js:384-406 | A created element carries the id, the position and both flags |
| Scene.EdgesFromMembers | script.js:432-441 | One parent contributes an arrow to a child iff the child is in its `unlocks` and is known, visible and has an element |
| Scene.EdgesMembers | script.js:426-443 | An arrow is drawn iff some drawn parent lists the child in `unlocks` and the child is known, visible and has an element |
| Scene.DrawnEdgesExact | script.js:416-444 | With the tables from initProjects and one element per visible node, the arrows are exactly the visible (prerequisite, entry) pairs |
| Scene.CenterTargetRule | script.js:506 | The target is the pending id if non-empty, else the newest key, else the start node (newest key as in script.js:188-194) |
| Scene.ScrollTarget | script.js:515-521 | Both scroll offsets are non-negative |
| Scene.ScrollCentersNode | script.js:515-521 | Unclamped, the scroll puts the node's centre at the wrapper's centre; clamped, the offset is 0 |
| Scene.OpensPopupRule | script.js:300-317 | A click opens the popup iff the id names an entry that is watched (read-only view) or unlocked (otherwise) |
| Scene.MapRenderer.constructor | script.js:284-292 | No elements, no arrows, no pending target |
| Scene.MapRenderer.UpdateContainerSize | script.js:335-348 | The container gets the width and height of the span |
| Scene.MapRenderer.RemoveStale | script.js:357-362 | Exactly the elements whose id is to be kept remain, unchanged |
| Scene.MapRenderer.UpdateNodeState | script.js:408-414 | `watched` is isWatched and `locked` is not-unlocked; the position is kept |
| Scene.MapRenderer.PlaceVisible | script.js:364-377 | Afterwards the keys are the visible ids; kept ids keep their element, new ones are fresh, and each shows its entry |
| Scene.MapRenderer.PlaceEach | script.js:364-377 | With the watched set fixed, the loop adds exactly the visible ids to the element table and leaves each visible project's element showing it |
| Scene.MapRenderer.PlaceAt | script.js:365-376 | One iteration: a visible project gains its element (a fresh one if it had none) showing it, a hidden one changes nothing, and earlier projects still show theirs |
| Scene.MapRenderer.PlaceOne | script.js:365-376 | The id gains an element showing its entry (new if it had none); every other element is kept untouched |
| Scene.MapRenderer.RenderNodes | script.js:350-382 | One element per visible id, each at its pixel with its two flags; survivors keep their element and only new ids get a new one |
| Scene.MapRenderer.RenderArrows | script.js:416-444 | The arrows are the edge list `Edges` in drawing order |
| Scene.MapRenderer.SetCenterTarget | script.js:501-503 | The pending target becomes the id |
| Scene.MapRenderer.CenterOnTarget | script.js:505-523 | The pending target is cleared; a scroll is requested iff the target has an element |
| Scene.MapRenderer.Draw | script.js:320-333 | Container size, element table, phase indicator, arrows and centring are all as specified |
| Scene.MapRenderer.Render | script.js:320-333 | With no visible node nothing changes, the element objects included; otherwise as `Draw` on the bounds |
| Scene.MapRenderer.SetReadonly | script.js:1052-1057 | The container's `readonly` class is on or off as asked |
| Scene.MapRenderer.Click | script.js:300-317 | The handler opens the popup exactly when the guard `OpensPopup` does, read against the container's `readonly` class |
| Scene.EnterPeerView | script.js:1021-1058 | The own map is kept, the peer's entries are shown and the map is read-only, so a click opens exactly the catalog nodes the peer watched |
| Scene.ExitPeerView | script.js:1047-1053 | The own map is back exactly and the map is no longer read-only, so a click opens exactly the unlocked catalog nodes |
| MemoryLightbox.StepsStayInRange | script.js:1229-1244 | Both buttons keep the cursor on a memory, and a button does nothing exactly when rendered disabled |
| MemoryLightbox.StepsInverse | script.js:1243-1244 | Previous undoes next and next undoes previous away from the ends |
| MemoryLightbox.NextTimesFromStart | script.js:1244 | From the first memory, k presses of next reach memory min(k, n−1) |
| MemoryLightbox.CounterShowsPosition | script.js:1236 | The counter starts with the 1-based position |
| MemoryLightbox.Lightbox.constructor | script.js:1218-1219 | The cursor starts at the pressed index |
| MemoryLightbox.Lightbox.Prev | script.js:1243 | The cursor moves by `StepPrev` and stays on a memory |
| MemoryLightbox.Lightbox.Next | script.js:1244 | The cursor moves by `StepNext` and stays on a memory |
| CharactersPage.WatchedIdsFromServer | characters-page.js:19-24 | An id is watched iff some entry for it has a positive count |
| CharactersPage.WatchedIdsFromCache | characters-page.js:33-39 | An id is watched iff its value is `true` or an object with a positive count |
| CharactersPage.GetWatchedIds | characters-page.js:9-43 | The server rule when a token is present and the request succeeded, else the cache rule; an unparsable cache gives the empty set |
| CharactersPage.ServerViewsAgree | characters-page.js:20-23 | With positive counts, this page and the map page agree on the watched set from the server |
| CharactersPage.CacheViewsAgree | characters-page.js:33-39 | With entry objects of positive count, both pages agree on the watched set from the cache |
| CharactersPage.Unlocked | characters-page.js:48 | A character is kept iff its debut is watched |
| CharactersPage.UnlockedKeepsOrder | characters-page.js:48 | The filter keeps the original order |
| CharactersPage.UnlockedMonotone | characters-page.js:48 | Watching more never hides a character |
| CharactersPage.Lower | characters-page.js:58 | Lower-casing keeps the length, leaves no capital letter, keeps every other character, and turns each capital into the small letter that upper-cases back to it |
| CharactersPage.LowerIdempotent | characters-page.js:58 | Lower-casing twice is lower-casing once |
| CharactersPage.IncludesMeans | characters-page.js:58 | `includes` holds iff the query occurs at some position |
| CharactersPage.NameFilter | characters-page.js:57-59 | A character is shown iff its lower-cased name includes the lower-cased query |
| CharactersPage.EmptyFilterKeepsAll | characters-page.js:55-59 | The empty query shows every unlocked character |
| CharactersPage.FilterIgnoresQueryCase | characters-page.js:57-59 | The query's case does not matter |
| CharactersPage.SearchFindsAnyCase | characters-page.js:57-59 | "STARK" finds "Tony Stark" |
| CharactersPage.MissingLetterMisses | characters-page.js:58 | A query whose first letter the name lacks finds nothing |
| CharactersPage.SearchSkipsOthers | characters-page.js:57-59 | "hulk" does not find "Tony Stark" |
| CharactersPage.CountLabelReads | characters-page.js:51-100 | The label starts with the number it reports, and a search label ends in "s" iff that number is not 1 |
| CharactersPage.Split | characters-page.js:78 | `split(' ')` gives at least one piece and no piece has a space |
| CharactersPage.JoinSplit | characters-page.js:78 | Joining the pieces with spaces gives back the name |
| CharactersPage.SplitAfter | characters-page.js:78 | A word followed by a space splits off as the first piece |
| CharactersPage.InitialsAreFirstLetters | characters-page.js:78-81 | Every character of the initials is an upper-cased first letter of a word |
| CharactersPage.InitialsOfOneWord | characters-page.js:78-81 | One word gives its first letter |
| CharactersPage.InitialsOfTwoWords | characters-page.js:78-81 | Two words give both first letters |
| CharactersPage.InitialsKeepTwo | characters-page.js:78-81 | Further words are cut off after two letters |
| CharactersPage.InitialsSkipEmptyWords | characters-page.js:78-81 | A double space makes an empty word, which adds no letter |
| SocialStore.FindRecord | routes/friends.js:36-41 | `findOne` gives the first matching record, or none iff no record matches |
| SocialStore.RemoveAt | routes/friends.js:112 | Deleting one record keeps the others in order |
| SocialStore.FindEntry | routes/friends.js:75 | `find` gives the first entry for the project, or none iff there is none |
| SocialStore.MergeWatchSpec | routes/friends.js:74-106 | An absent entry is appended with count 1 and only the other user's name. A present one gains exactly one viewing, keeps its memories and names, and gains the name only if missing. No other entry changes |
| SocialStore.FriendListSpec | routes/friends.js:119-143 | `/list` never answers an error status. It throws iff a listed record refers to a missing user, and otherwise lists exactly the other parties of the caller's accepted friend-type records |
| SocialStore.NoSelfFriend | routes/friends.js:136-141 | Without self-links nobody is listed as their own friend |
| SocialStore.PendingFor | routes/friends.js:49-55 | `/pending` lists exactly the pending records addressed to the caller |
| SocialStore.AnyLinkSymmetric | routes/friends.js:36-41 | The duplicate check looks in both directions |
| SocialStore.SecondRequestRefused | routes/friends.js:36-44 | Once a request exists, later ones between the two users, either way, are refused |
| SocialStore.SecondWatchRequestRefused | routes/friends.js:207-223 | The same pending watch request cannot be sent twice |
| SocialStore.RespondOnlyOnce | routes/friends.js:60-66 | Only the recipient finds a pending record, and once answered it is found no more |
| SocialStore.FriendStore.constructor | routes/friends.js:1-5 | An empty Friend collection over the given users |
| SocialStore.FriendStore.Create | routes/friends.js:44 | One record with a fresh id is appended |
| SocialStore.FriendStore.Request | routes/friends.js:31-46 | 400 for oneself, 400 when any record links the two, otherwise exactly one new pending friend record |
| SocialStore.FriendStore.Respond | routes/friends.js:58-116 | 404 unless a pending record to the caller exists. Otherwise its status becomes the action. An accepted watch request merges both users' entries and is deleted. A missing user document throws after the status change |
| SocialStore.FriendStore.WatchRequest | routes/friends.js:175-226 | 403 without an accepted friendship, 400 for a duplicate pending watch request, otherwise one new pending watch record |
| SocialStore.FriendStore.Remove | routes/friends.js:228-253 | 404 without a friend-type record between the two, otherwise the first one is deleted |
| CatalogFacts.CatalogIdList | projects.js:1-93 | The ids of `projects`, in order, are the literal id list |
| CatalogFacts.CatalogIdsDistinct | projects.js:1-93 | Every id in `projects` is distinct |
| CatalogFacts.PrerequisitesNameEntries | projects.js:1-93 | Every prerequisite id names a catalog entry |
| CatalogFacts.UnlockersNameEntries | script.js:23-29 | Every phase-unlocker value names a catalog entry |
| CatalogFacts.LabelsParse | script.js:212-216 | "Phase N" parses to N for N in 1..6 |
| CatalogFacts.CatalogPhases | projects.js:3-91 | Every entry carries one of the labels "Phase 1" … "Phase 6" |
| CatalogFacts.PhasesInRange | projects.js:3-91 | Every entry has phase number 1..6, and every phase above 1 has an unlocker (unlocker table script.js:23-29) |
| CatalogFacts.FreshVisibility | script.js:244-248 | On a fresh state a node is shown iff it is the start node or has no prerequisites |
| CatalogFacts.CatalogFreshInBox | projects.js:1-93 | Every start-or-root entry is one of the seven fresh ids and lies in x ∈ [−3, 4], y ∈ [1, 21] |
| CatalogFacts.FreshNodes | projects.js:3-70 | Where the seven fresh entries sit, with no prerequisites, and which of them reach the corners |
| CatalogFacts.FreshVisibleSet | projects.js:1-93 | The visible set on a fresh state is exactly {ironman1, guardians1, doctorstrange, moonknight, xmen97, spidermananimated, fantasticfour} (visibility rule script.js:244-248) |
| CatalogFacts.FreshBoxOf | script.js:258-271 | A catalog whose fresh nodes lie in the box and reach its four edges has exactly that box as fresh bounds |
| CatalogFacts.FreshBounds | projects.js:1-93 | A fresh map spans x ∈ [−3, 4] and y ∈ [1, 21] (getBounds script.js:258-271) |
| CatalogNodes.HighestPhaseWhenFresh | script.js:250-253 | With nothing watched and a phase-1 node, the highest unlocked phase is 1 |
| CatalogNodes.FreshHighestPhase | script.js:250-253 | On a fresh state the phase indicator shows 1 (ironman1, projects.js:3, is phase 1) |
| CatalogNodes.HighestPhaseAt | script.js:250-253 | A phase-unlocked node of the largest phase makes that phase the highest |
| CatalogNodes.EchoIsPhase6 | projects.js:57 | echo is the first phase-6 entry and has phase 6 |
| CatalogNodes.Loki2OpensPhase6 | script.js:250-253 | Watching loki2 makes 6 the highest unlocked phase (loki2 at projects.js:53 unlocks phase 6 per script.js:28) |
| CatalogNodes.Avengers1Gates | projects.js:8 | avengers1 is phase 1 and always unlocked; unless watched it is shown iff thor1, cap1 and hulk are all watched; it is the phase-2 unlocker (rules at script.js:239 and 247) |
| CatalogNodes.Avengers1Shown | projects.js:8 | Unless watched, avengers1 is shown iff thor1, cap1 and hulk are all watched (rule at script.js:247) |
| CatalogNodes.RootGates | script.js:232-248 | A root node of phase ≥ 2 is always shown and unlocked iff its phase unlocker is watched |
| CatalogNodes.DoctorStrangeGates | projects.js:20 | doctorstrange is phase 3, always shown, and unlocked iff ageofultron is watched (unlocker at script.js:25, rules at script.js:232-248) |
| CatalogNodes.DoctorStrangePhase | projects.js:20 | The label of doctorstrange parses to phase 3 (parsed by script.js:212-216) |

## Definitions

The functions below state the code's rules directly; each is specified by the
lemmas or methods named beside it.

| definition | source | specified by |
|---|---|---|
| Graph.ParsePhase | script.js:212-216 | Graph.ParsePhaseOfNumber, Graph.ParsePhaseOfLabel, Graph.ParsePhaseWithoutDigits |
| Graph.IsPhaseUnlocked | script.js:232-236 | Graph.UnlockRule |
| Graph.IsUnlocked | script.js:238-242 | Graph.UnlockRule, Graph.Monotone |
| Graph.IsVisible | script.js:244-248 | Graph.VisibilityRule, Graph.Monotone |
| Graph.VisibleIdsUpTo | script.js:364 | Graph.VisibleIdsUpToPrefix, Scene.MapRenderer.PlaceEach |
| Graph.HighestUnlockedPhase | script.js:250-253 | Graph.MaxUnlockedPhase, CatalogNodes.HighestPhaseAt |
| Layout.ToPixel | script.js:275-278 | Layout.PixelInBox, Layout.PlacementInContainer |
| Layout.ContainerWidth | script.js:339-346 | Layout.PixelInBox, Layout.EdgesAreOccupied |
| Layout.ContainerHeight | script.js:339-347 | Layout.PixelInBox, Layout.EdgesAreOccupied |
| Progress.GetCount | script.js:147 | Progress.WatchAgainSpec, Progress.AcceptMergeSpec |
| Progress.LastWatchedId | script.js:188-194 | Progress.LastWatchedIdIsNewestKey, Progress.PutNewKeyBecomesLast, WatchStore.WatchState.GetLastWatchedId |
| Progress.WatchedAgain | script.js:152-158 | Progress.WatchAgainSpec |
| Progress.Toggled | script.js:160-168 | Progress.ToggleSpec, Progress.ToggleTwice, Progress.UntoggleNewest |
| Progress.EncodeServer | script.js:123-128 | Progress.ServerRoundTrip, Progress.Persisted |
| Progress.EncodeCache | script.js:138-139 | Progress.CacheRoundTrip, Progress.Persisted |
| Progress.MemoryRemoved | script.js:624-625 | Progress.MemoryRemovedSpec |
| Progress.AcceptMergeAsWritten | script.js:946-956 | Progress.AcceptMergeThrowsAfterToggle, Progress.AcceptMergeSpec |
| Progress.AcceptMerge | script.js:946-956 | Progress.AcceptMergeSpec |
| Progress.MarkWatchedTogether | script.js:1093-1097 | Progress.WatchedTogetherSpec |
| Progress.RecordCoViewerAsWritten | script.js:1117-1122 | Progress.RecordCoViewerThrowsAfterToggle, Progress.WatchedTogetherSpec |
| Progress.RecordCoViewer | script.js:1117-1122 | Progress.WatchedTogetherSpec |
| Scene.Edges | script.js:426-443 | Scene.EdgesFromMembers, Scene.EdgesMembers, Scene.DrawnEdgesExact |
| Scene.CenterTargetId | script.js:506 | Scene.CenterTargetRule |
| Scene.CenteringOffset | script.js:515-516 | Scene.ScrollCentersNode |
| Scene.OpensPopup | script.js:300-317 | Scene.OpensPopupRule, Scene.MapRenderer.Click |
| MemoryLightbox.StepPrev | script.js:1243 | MemoryLightbox.StepsStayInRange, MemoryLightbox.StepsInverse |
| MemoryLightbox.StepNext | script.js:1244 | MemoryLightbox.StepsStayInRange, MemoryLightbox.StepsInverse, MemoryLightbox.NextTimesFromStart |
| CharactersPage.Includes | characters-page.js:58 | CharactersPage.IncludesMeans |
| CharactersPage.CountLabel | characters-page.js:51-100 | CharactersPage.CountLabelReads |
| CharactersPage.Initials | characters-page.js:78-81 | CharactersPage.InitialsAreFirstLetters, CharactersPage.InitialsOfOneWord, CharactersPage.InitialsOfTwoWords, CharactersPage.InitialsKeepTwo |
| SocialStore.MergeWatch | routes/friends.js:74-106 | SocialStore.MergeWatchSpec |
| SocialStore.FriendList | routes/friends.js:119-143 | SocialStore.FriendListSpec |

## Left out

- Graph.ParsePhase: phase numbers are modelled as exact integers. In
  JavaScript they are doubles: `+match[0]` (script.js:215) rounds a digit
  run above 2^53, and a numeric phase may be fractional. The model reads a
  digit run as an unbounded `int` and keeps only integer phases. The
  catalog's phases are 1 to 6, which a double holds exactly.
- Network, storage and DOM. `fetch`, `localStorage`, markup, images, popups,
  modals and the friends panel are left out. Their inputs and results appear
  as parameters: a server response, a parsed cache, a token flag and reported
  rectangles.
- Persistence failures are not modelled apart from the failed-load fallback.
  Save and clear are modelled by what they persist, recorded in `saves`.
- Listener calls are not modelled one by one. A save stands for the
  notification of every listener.
- Arrow geometry (script.js:466-495) is floating point over client rectangles.
  Only which (parent, child) edges are drawn is modelled.
- Arrowhead markup, the phase indicator's markup and smooth scrolling are left
  out.
- `requestAnimationFrame` ordering is collapsed. `Draw` runs the frame
  callback right after the synchronous part of `render`.
- `markAllWatched` (script.js:647-649) calls a method `WatchState` does not
  define, so it would throw. It is not modelled.
- The `/progress/:friendId` route (routes/friends.js:146-172) reads a variable
  it never defines (lines 151-152) and so always throws. It is not modelled.
- The `/search` route is left out: it delegates to a case-insensitive regular
  expression query of the database. Authentication middleware, tokens and
  passwords are out of scope.
- The memory upload (script.js:1131-1216) is left out: a Cloudinary upload and
  a server call. Only the memory-removal edit of the map is modelled.
- testing.js is left out: it is a superseded prototype.
- models/user.js and models/Friend.js are used only as the shapes of entries
  and records.
- Cache values other than booleans and objects are not modelled: a number or
  a string in the parsed cache would be stored as it is. The cache holds
  booleans or entry objects.
- `LowerChar`, `UpperChar`: case mapping covers ASCII letters only, not
  Unicode case folding.
- `SocialStore.FriendStore.Respond`: `action` is any string. The schema's
  enum validation on save is not modelled.
- The Mongo `populate` calls are modelled by looking user ids up in `users`.
  Object ids are strings.
- Record ids come from a counter (`nextRid`). They are not Mongo `ObjectId`s.
- The server defaults a new `WatchEntry.count` to 1 and memories to `[]`. Only
  the values the routes write are modelled.
- The client's watch-accept merge (script.js:946-956) creates an absent entry
  with `watchedWith: []`. The server (routes/friends.js:77-82) creates it with
  the requester's name. Both are modelled as written.
- Concurrency is not modelled. That covers the `Promise.all` in `/respond`,
  overlapping saves and re-entrant listeners.
- `WatchStore.WatchState.WatchedWithFriend`: `sent` stands for the result of
  the server call. The call itself and the button's markup are not modelled.
- Scene.ScrollTarget: the centring arithmetic is done on exact reals. Floating
  point rounding of the client rectangles and of the scroll offsets is not
  modelled.
- Progress.CacheRoundTrip: what reloads from the cache has the saved entries
  but not always the saved key order. JavaScript lists an object's array-index
  keys (canonical numerals below 2^32 − 1) first, ascending, and the other keys
  after them in insertion order. The model states that order and does not
  promise the insertion order when a key is an array index.
- Scene.EnterPeerView: the fetch error path (script.js:1023, an alert) and the
  banner markup are not modelled; the method starts from the peer's entries.

## Findings

| source | as written | input that shows it | evidently intended | confidence | as-written member | corrected member |
|---|---|---|---|---|---|---|
| script.js:946-950 | The accept handler calls `entry.watchedWith.includes(...)`. An entry created by toggle (script.js:164) has no `watchedWith`, so this throws after the count was raised, and the save and the render are skipped | toggle "thor1" on, then accept a watch request for "thor1" from "sam" | treat a missing `watchedWith` as `[]`, as `getWatchedWith` (script.js:218) does | not executed | Progress.AcceptMergeThrowsAfterToggle | Progress.AcceptMergeSpec |
| script.js:1117-1121 | After a watch request is sent, `entry.watchedWith.includes(friendName)` throws on an entry created by toggle, so the co-viewer is never recorded | toggle "thor1" on, then mark it watched with friend "sam" | treat a missing `watchedWith` as `[]` | not executed | Progress.RecordCoViewerThrowsAfterToggle | Progress.WatchedTogetherSpec |
