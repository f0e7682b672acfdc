# obsidian-leaflet: map registry, persistence and popup controller in Dafny

This project models two parts of the Obsidian Leaflet plugin and proves
properties of the model.

**The plugin object (`src/main.ts`).** It turns `leaflet` code blocks into
live maps and keeps each map's markers in its persisted data. The model
covers:

- the `key: value` parsing of a block, with the `height` default and the abort
  when there is no `image`;
- loading the record whose path is `sourcePath + "/" + image`;
- registering the live map, where the last one registered wins;
- the `saveSettings` snapshot, which rebuilds `mapMarkers` from the live maps
  only;
- the vault `delete` handler, which prunes the first record whose path
  contains the deleted file's path;
- the marker context modal: setting a marker's link, changing its type with
  colour fallback, and deleting it by id;
- the `loadSettings` merge;
- `generateMarkerMarkup`, with its in-place default-filling and the prepended
  `"default"` entry;
- the link made from a document dropped on a map.

**The popup controller (`src/map/popup.ts`).** It is one popup per map, bound
to a target (a marker, a circle, a bare coordinate or a line), with
hover-intent timers. The model covers:

- the tooltip policy;
- anchor and offset selection by target kind;
- re-opening on the same target and switching to another;
- the 500 ms hover timeout and the 1000 ms coordinate close;
- the `permanent` option.

## Modules

- `Wrappers`: `Option` and `Result`.
- `Text`: the JavaScript string operations the code uses, `includes` and
  `split` with a non-empty separator, over `seq<char>`:
  - `IndexFrom` (a search from a position, like `indexOf(t, from)`) and
    `StartsWith` are how the model states `includes` and `split`;
  - `join`, as the inverse that `split` is proved against;
  - the last piece of a split.
- `LeafletTypes`: `LatLng`.
- `Settings`: the persisted data and the pure functions over it:
  - the merge, default-filling and markup;
  - type resolution;
  - record lookup and pruning.
- `Embed`: block parsing (`Object.fromEntries` with the last entry winning),
  the map key, and the dropped-document link.
- `LiveMaps`:
  - classes `LiveMarker` and `LiveMap`, whose fields the context modal and
    `setMarkerIcons` update in place;
  - the snapshot functions;
  - the registry filters and the lemmas about them.
- `Plugin`: class `ObsidianLeaflet`. It has the fields `data` (`AppData`),
  `markerIcons` and `maps`, and a record `written` of every blob handed to
  `saveData`. `Valid()` says paths are unique among the live maps, the
  catalogue is filled, `markerIcons` is its markup and every live map draws
  with it; every save re-establishes it.
- `PopupController`: class `Popup` and the Leaflet popup it drives.
  - The browser timer queue is explicit. `timers` holds this popup's scheduled
    callbacks that have neither run nor been cleared.
  - `Fire` is the event loop running the next one.
  - `Valid()` says at most one timer is pending, it is the one
    `_timeoutHandler` names, and a permanent popup has none.
- `PopupScenarios`: event sequences on a new popup, with their outcomes as
  results.

## Behaviour of the code worth knowing

- `close` does not clear a pending timer: it only asks the map to close the
  popup (src/map/popup.ts:166-169).
  - A hover timeout still queued after some other close runs `onTimeOut`
    later, and closing again changes nothing.
  - `Popup.Close` does not touch `timers`.
- The `!this.leafletInstance` guard of `close` can never fire. The
  constructor always builds an instance, and `open` only replaces it with
  another. The model keeps the instance non-null and proves instead that
  closing a closed popup changes nothing.
- The `delete` handler prunes with substring containment, `path.includes(file.path)`.
  It removes one record: the first containing one, found by object identity.
  Its save then replaces `mapMarkers` with the snapshot of the live maps.
  - So the data after the handler does not depend on the pruning.
  - A record whose map is still live is written back.
  - `OnVaultDelete`'s contract states exactly this.
- Target identity (`this.target == target`) is reference equality. It is
  modelled by a `ref` field on each target.
- A line is anchored at `getLatLngs()[1]`. A line with fewer than two vertices
  gets no anchor (`undefined` in the code).

## Model

| member | source | states |
|---|---|---|
| Text.IndexFromFirst | src/main.ts:92 | the search behind `includes`, from a position: the first occurrence at or after it; None only when there is none |
| Text.IndexOfFirst | src/main.ts:92 | the search behind `includes`, from the start: the first index where `t` occurs; None only when `t` occurs nowhere |
| Text.IncludesOccurs | src/main.ts:92 | `includes` holds exactly when `t` occurs somewhere in `s` |
| Text.JoinSplit | src/main.ts:121 | joining the pieces of `split(sep)` with `sep` gives the input back |
| Text.SplitPiecesFree | src/main.ts:121 | no piece of a split contains the separator |
| Text.SplitLast | src/main.ts:165-169 | the piece `pop` takes is a suffix of the input without the separator. It is the whole input exactly when there is no separator; otherwise what precedes it ends with the separator |
| Settings.MergeSettings | src/main.ts:284-290 | a missing blob leaves the defaults; for each of the four keys, a value present in the blob overrides the default and a missing key keeps it; a complete blob is taken as it is |
| Settings.ColorOr | src/main.ts:243-247 | the icon's colour when it is truthy, otherwise the default marker's |
| Settings.FillDefaults | src/main.ts:334-339 | a missing transform and an empty icon name come from the default marker; every other field is unchanged |
| Settings.FillDefaultsIdempotent | src/main.ts:334-339 | filling twice is filling once |
| Settings.FillAllIdempotent | src/main.ts:333-339 | filling a filled catalogue again changes nothing, so every save leaves the catalogue as the first one filled it |
| Settings.FillAll | src/main.ts:333-339 | every catalogue entry is filled, in order |
| Settings.IconMarkup | src/main.ts:340-358 | an entry's markup keeps its type, uses its glyph and transform masked by the default glyph, and is coloured with fallback |
| Settings.DefaultIcon | src/main.ts:360-370 | the prepended entry has type `"default"` and the default marker's icon name and colour, without mask or transform |
| Settings.MarkerMarkup | src/main.ts:360-373 | length is input + 1 iff the default icon name is non-empty; the `"default"` entry then comes first; the others keep input order and types |
| Settings.FindIcon | src/main.ts:225-227 | the first catalogue entry of the given type; None when there is none |
| Settings.ResolveMarkerType | src/main.ts:222-227 | `"default"` is the default marker; any other value is the first entry of that type, and it resolves iff one exists |
| Settings.RetypedIcon | src/main.ts:228-255 | the new marker icon has the resolved type and the fixed transform (6, 0, -2), masked by the default glyph, colour with fallback; None exactly when the type does not resolve |
| Settings.FindRecord | src/main.ts:140-148 | the first record whose path equals the key exactly; None iff no path equals it |
| Settings.StoredMarkers | src/main.ts:140-150 | the markers of the first record whose path is the key (`find`); none when no record has that path |
| Settings.FirstContaining | src/main.ts:91-93 | the index of the first record whose path contains the file's path; None iff no path contains it |
| Settings.PruneFirst | src/main.ts:95-101 | exactly the first containing record is removed, the rest keep their order; nothing changes when none contains it |
| Embed.ParseLine | src/main.ts:121 | the key is the text before the first `": "`, the value the text from there up to the next `": "` or the end of the line; a line without `": "` is a key without a value |
| Embed.Entries | src/main.ts:120-121 | one entry per line, each the parse of that line |
| Embed.Lookup | src/main.ts:120 | `Object.fromEntries(...)[key]`: the value of the last entry with the key, whatever it is; None when no entry has it |
| Embed.ParseEmbed | src/main.ts:120-130 | an error iff `image` is missing or empty; otherwise the image, and the height or `"500px"` |
| Embed.HeightDefaults | src/main.ts:120 | without a `height` line the height is `"500px"` |
| Embed.ImageLineAccepted | src/main.ts:120-130 | a block whose last `image` line has a non-empty value is accepted with that image |
| Embed.HeightLineTaken | src/main.ts:120-122 | in an accepted block, the value of the last `height` line is the height |
| Embed.MissingImageRejected | src/main.ts:124-130 | without an `image` line the block is rejected |
| Embed.MapKey | src/main.ts:142 | the key is `sourcePath`, `/`, then `image` |
| Embed.DropLink | src/main.ts:165-174 | the link is the text after the last `file=` (all of it when there is none) followed by `.md` |
| LiveMaps.LiveMap.constructor | src/main.ts:132-138 | a new map keyed by `sourcePath/image`, with no markers and the current markup |
| LiveMaps.LiveMap.LoadData | src/main.ts:145-149 | one new live marker per stored record, appended in order; the map's snapshot grows by exactly those records |
| LiveMaps.LiveMap.SetMarkerIcons | src/main.ts:320 | the map's icons become the given markup |
| LiveMaps.MarkerRecord | src/main.ts:299-306 | a marker's record holds its type, id, `[lat, lng]` and link |
| LiveMaps.MarkerSnapshot | src/main.ts:298-307 | one record per live marker, in order, one to one |
| LiveMaps.MapSnapshot | src/main.ts:294-310 | one record per live map, in `maps` order, with its path and its markers' records |
| LiveMaps.IsSnapshotExactly | src/main.ts:294-311 | the pointwise snapshot description holds of exactly the record list `saveSettings` builds |
| LiveMaps.SnapshotLookup | src/main.ts:294-311 | with unique paths, looking a live map's path up in the snapshot gives exactly that map's markers |
| LiveMaps.WithPath | src/main.ts:152 | the live maps with the given path |
| LiveMaps.WithoutPath | src/main.ts:153-155 | the live maps of other paths, all of them |
| LiveMaps.WithoutPathUnique | src/main.ts:153-155 | filtering keeps paths unique |
| LiveMaps.Register | src/main.ts:152-157 | after filter and push the new map is last and the only one with its path; maps of other paths keep their order; paths stay unique |
| LiveMaps.WithoutId | src/main.ts:268-270 | no kept marker has the id; every marker with another id is kept; nothing changes when no marker has it |
| LiveMaps.WithoutIdAppend | src/main.ts:268-270 | filtering by id keeps relative order (it distributes over concatenation) |
| Plugin.ObsidianLeaflet.Onload | src/main.ts:76-81 | after loading: the merged data with its catalogue filled, the markup of that catalogue, no live maps, nothing written; the markup invariant (`Valid`) holds |
| Plugin.ObsidianLeaflet.LoadSettings | src/main.ts:284-290 | the data becomes the merge of defaults and stored blob |
| Plugin.ObsidianLeaflet.GenerateMarkerMarkup | src/main.ts:330-373 | fills the catalogue in place and nothing else; returns the markup of the filled catalogue |
| Plugin.ObsidianLeaflet.SaveSettings | src/main.ts:291-321 | `mapMarkers` becomes the snapshot of the live maps; the data is written; the catalogue is filled, the markup regenerated and handed to every map; no live marker list changes; every other field of the data is kept, so the markup invariant holds afterwards |
| Plugin.ObsidianLeaflet.PruneDeleted | src/main.ts:90-101 | prunes iff some path contains the file's path, removing the first such record only |
| Plugin.ObsidianLeaflet.OnVaultDelete | src/main.ts:89-105 | without a containing path nothing changes and nothing is written; otherwise one save, the stored records are the snapshot of the live maps, no map's marker list changes, the catalogue is filled and every other field kept, and the markup is current; `Valid` is preserved |
| Plugin.ObsidianLeaflet.Register | src/main.ts:152-157 | `maps` becomes the maps of other paths followed by the new one; unique paths are kept, and `Valid` when the new map draws with the current markup |
| Plugin.ObsidianLeaflet.PostProcess | src/main.ts:115-157 | an error iff the block has no image, with nothing changed; otherwise a new map showing the image, keyed by `sourcePath/image`, loaded from its stored record, registered last, and saved; the marker lists of the maps live before are unchanged, the catalogue is filled and every other field of the data kept; `Valid` is preserved |
| Plugin.ObsidianLeaflet.ShowMap | src/main.ts:132-157 | build, load, register, save; afterwards the stored record for the map's path holds exactly the markers loaded for it, and the maps live before keep their marker lists; the catalogue is filled and every other field of the data kept |
| Plugin.ObsidianLeaflet.NewMap | src/main.ts:132-150 | a new map showing the block's image at its height, keyed `sourcePath/image`, whose markers are the records stored under that exact path, none when there is no such record |
| Plugin.ObsidianLeaflet.SetMarkerLink | src/main.ts:207-210 | the marker's link is set, its icon and location kept, no map's marker list changes, and the data saved with every other field kept; the markup is current and `Valid` is preserved |
| Plugin.ObsidianLeaflet.ChangeMarkerType | src/main.ts:221-258 | an unknown type changes nothing; otherwise the marker gets the resolved type's re-rendered icon, keeps its link and location, no map's marker list changes, and the data is saved with every other field kept; the markup is current and `Valid` is preserved |
| Plugin.ObsidianLeaflet.DeleteMarker | src/main.ts:266-272 | the map keeps exactly its markers of other ids, in order, the other maps keep their marker lists, and the data is saved with every other field kept; the markup is current and `Valid` is preserved |
| Plugin.SetAllMarkerIcons | src/main.ts:320 | every map gets the markup; no map's markers change |
| PopupController.TooltipOf | src/map/popup.ts:93 | bare coordinates have no `tooltip` property; the other targets expose theirs |
| PopupController.Gate | src/map/popup.ts:93-94 | `open` goes on exactly for a bare coordinate, a target without a `tooltip` setting, or one whose kind's global setting is on and whose own setting is neither "always" nor "never" |
| PopupController.CanShowTooltip | src/map/popup.ts:23-35 | global setting (marker or overlay by target kind) and the target's own setting neither "always" nor "never" |
| PopupController.CoordinatesPassGate | src/map/popup.ts:93 | a bare coordinate is never stopped by the tooltip gate |
| PopupController.SecondVertex | src/map/popup.ts:193-195 | `getLatLngs()[1]`, present iff the line has at least two vertices |
| PopupController.Anchor | src/map/popup.ts:187-218 | a coordinate is anchored at itself, a line at its second vertex, a circle at its centre, a marker at its location |
| PopupController.OffsetFor | src/map/popup.ts:187-218 | coordinates and lines keep the options' offset; circles and markers are lifted, circles by their own rule |
| PopupController.HandlerOf | src/map/popup.ts:116 | `handler ?? target` |
| PopupController.CoordinateHandler | src/map/popup.ts:145 | `handlerTarget instanceof L.LatLng` (`IsCoordinate`) holds exactly when no handler layer was given and the target is a bare coordinate |
| PopupController.WithoutHandle | src/map/popup.ts:79 | clearing drops the timer with that handle and keeps all others; an undefined handle drops nothing |
| PopupController.Popup.constructor | src/map/popup.ts:19-22 | a closed popup with no target and no timer |
| PopupController.Popup.IsOpen | src/map/popup.ts:220-222 | whether the current Leaflet popup is open; `Shows`, the reuse test of `open`, is stated through it |
| PopupController.Popup.SetTimeout | src/map/popup.ts:83 | queues one timer under a new handle |
| PopupController.Popup.ClearTimeout | src/map/popup.ts:79 | removes the timer with that handle |
| PopupController.Popup.Close | src/map/popup.ts:166-169 | the popup is closed with anchor and content kept; closing a closed popup changes nothing |
| PopupController.Popup.OnTimeOut | src/map/popup.ts:75-76 | closes unless permanent; a permanent popup is untouched |
| PopupController.Popup.OnMouseOut | src/map/popup.ts:78-84 | the pending timer is cleared; unless permanent exactly one 500 ms timeout is pending after |
| PopupController.Popup.OnMouseOver | src/map/popup.ts:85-87 | no timer is pending after |
| PopupController.Popup.Fire | src/map/popup.ts:146-153 | the pending timer runs and leaves none; either callback leaves the popup closed |
| PopupController.Popup.BuildPopup | src/map/popup.ts:187-219 | a new closed popup with the target's anchor and offset |
| PopupController.Popup.GetPopup | src/map/popup.ts:171-185 | the current popup when open on the same target; otherwise the target is bound, the open popup closed and a new one built |
| PopupController.Popup.Refresh | src/map/popup.ts:100-107 | new content, and a line is re-anchored at its second vertex |
| PopupController.Popup.OpenNew | src/map/popup.ts:110-163 | binds target and `handler ?? target`, closes the old popup, opens a new one; a 1000 ms close is pending iff not permanent and the handler is a bare coordinate |
| PopupController.Popup.Open | src/map/popup.ts:88-164 | a refused target changes nothing; otherwise timers are cleared and it either refreshes the popup already open on that target (nothing else changes) or opens a new popup as `OpenNew` states; at most one timer stays pending |
| PopupScenarios.CoordinatePopupCloses | src/map/popup.ts:144-154 | a coordinate popup opens, its single timer is the 1000 ms close, and running it closes the popup |
| PopupScenarios.HoverOutCloses | src/map/popup.ts:78-84 | after mouse-out the 500 ms timeout runs and closes the popup |
| PopupScenarios.HoverBackKeepsOpen | src/map/popup.ts:85-87 | mouse-over after mouse-out cancels the close: nothing runs, the popup stays open |
| PopupScenarios.PermanentStaysOpen | src/map/popup.ts:144 | a permanent popup schedules nothing and stays open |
| PopupScenarios.ReopenKeepsPopup | src/map/popup.ts:100-107 | re-opening on the same line keeps the same Leaflet popup, now with the new content at the second vertex |
| PopupScenarios.SwitchTargetReplacesPopup | src/map/popup.ts:110-123 | opening on another object closes the first popup and opens a new one at the new anchor |
| PopupScenarios.RefusedTooltipStaysClosed | src/map/popup.ts:93-94 | a marker set to "never" or "always" gets no hover popup and binds nothing |
| PopupScenarios.GlobalSettingDecides | src/map/popup.ts:23-35 | with marker tooltips off and overlay tooltips on, an unset marker gets no popup and an unset overlay does |

## Left out

- I/O and async are left out: `loadData`/`saveData`, `Notice`, `console`, the error text appended to the element, and `await` ordering. A save is recorded as the blob appended to `written`; the stored blob is a parameter of `Onload`.
- `LeafletMap` (src/leaflet) is not part of this model. Its constructor is taken to key a map by `sourcePath + "/" + image`. `loadData` is taken to create one live marker per record with that record's type, id, location and link. Marker id generation and `createMarker` live there too, so id uniqueness is not stated.
- LiveMaps.LiveMap.LoadData: the markup a loaded marker gets, `HtmlFor` (the first icon of its type whose markup is resolved, `Unresolved` exactly when there is none), is a modelling choice because `LeafletMap` is not part of this model.
- The glyph library (`icon`, `getIcon`, `toHtml`, `addIcon`) is foreign. Markup is the symbolic `Glyph` term naming what was asked for. The `addIcon` loop of `saveSettings` registers glyphs with Obsidian and is left out.
- The drop handler's `decodeURIComponent` and `layerPointToLatLng` are left out. `DropLink` takes the decoded text, and the marker's position is not modelled.
- Event wiring is left out:
  - `registerEvent`/`registerDomEvent` and `dragover`;
  - `marker-added` (a save), and `marker-click` with `openLinkText`/`getEditor`;
  - the settings tab, and the modal's own UI.
  The handlers the modal runs are modelled as methods.
- Popup listeners are left out: attaching and detaching the `mouseout`/`mouseenter` handlers, `popupopen`, the zoom listener for circles, and the line's `remove` listener. The `off`/`removeEventListener` calls pass unbound references, so they would not detach what was attached either way. Hover events are inputs, `OnMouseOut` and `OnMouseOver`.
- PopupController.Popup.OnTimeOut: states only the close; the listener detachment it attempts first is not modelled.
- Pixel offsets from `getBoundingClientRect` are floating point DOM measurements. `Offset` records only which rule applies. `target.closePopup()` acts on Leaflet's own bound popups and is left out.
- Popup content is an opaque string. A content function is not evaluated.
- JavaScript strings are UTF-16. They are modelled as `seq<char>`, and the separators used are ASCII.
