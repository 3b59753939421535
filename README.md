# ChestTracker core in Dafny

ChestTracker is a client-side Minecraft mod. It remembers what items were last
seen in containers and shows them in a searchable screen and in block tooltips.
This project models the mod's self-contained decision logic and proves
properties of it:

- **The floating inventory button** (`inventory_button.dfy`, on top of
  `geometry.dfy`). It places its two secondary buttons in the first free
  direction of RIGHT, LEFT, DOWN, UP. It keeps them open while the pointer is
  in an inflated hover zone. It runs a press / hold 200 ms / drag / release
  state machine. The button is a class whose methods update its fields.
- **The main ChestTracker screen** (`chest_tracker_screen.dfy`):
  - the do-while loops that shrink the grid until the menu fits the window;
  - the centring of the menu;
  - the order of the memory keys, config-listed first;
  - the memory buttons, with their positions, icons and highlight switch;
  - the remembered counts, sorted highest first;
  - the filter, with its scroll-disable rule.
  The screen is a class over its fields.
- **The Jade tooltip preview** (`jade_preview.dfy`):
  - the guards that skip the preview;
  - the loop that splits the first `min(max, n)` stacks into lines;
  - the loop that puts a margin between lines;
  - the name and brand conditions.
- **The session id** (`load_context.dfy`). `LoadContext.get` picks an id and a
  name for the memory bank of the current session. The order tried is
  singleplayer, Realms, LAN, then multiplayer. This includes the Realm id in
  hexadecimal left-padded to 16 characters, and removing a trailing `:port`
  from a LAN address. It also models the remembered last Realm.
- **The memory bank view** (`memory_bank_view.dfy`). Edits go to a copy of the
  metadata and key removals are queued. Neither reaches the bank before `save`.
  There is also an empty view.
- **The GUI constants and the default icon order** (`gui_constants.dfy`). The
  icon order is thirteen priority items, then every other registry item except
  AIR. It is de-duplicated with first occurrences kept.

`game.dfy` holds the host values these share:

- items, stacks and resource locations;
- Java's truncating integer division;
- ASCII lower-casing;
- the "first occurrences" order of an insertion-ordered map.

Clocks, pointer positions, the item registry, the memory store, the search
library and the game's string helpers are parameters. No game object is read
directly.

Three behaviours of the code are easy to misread:

- A release over the button opens the screen whenever no drag was started,
  even after the 200 ms hold. A drag starts only on a drag event once the hold
  is over.
- The scroll bar test uses the configured grid size, not the shrunk live one.
- `Encompassing` requires a non-empty list. Its only callers pass the primary
  button plus at least one other rectangle.

## Model

| member | source | states |
|---|---|---|
| Game.JavaDiv | src/client/java/red/jackf/chesttracker/gui/ChestTrackerScreen.java:100-101 | Java `int` division truncates toward zero: bounds of the quotient for non-negative and negative dividends |
| Game.Lower | src/client/java/red/jackf/chesttracker/gui/ChestTrackerScreen.java:252 | the lower-cased query has the same length and is lower-cased character by character |
| Game.LowerIdempotent | src/client/java/red/jackf/chesttracker/gui/ChestTrackerScreen.java:252 | lower-casing twice equals lower-casing once, and the result has no upper-case letter |
| Game.FirstOccurrencesMembers | src/client/java/red/jackf/chesttracker/impl/gui/GuiConstants.java:43 | an insertion-ordered map that keeps existing entries has exactly the inserted keys not already present, each once |
| Geometry.Overlaps | src/client/java/red/jackf/chesttracker/gui/invbutton/InventoryButton.java:90 | overlapping rectangles share the pixel at the top-left of their common area, and rectangles that do not overlap share no pixel; OverlapsIffCommonPixel states both directions as one equivalence |
| Geometry.OverlapsIffCommonPixel | src/client/java/red/jackf/chesttracker/gui/invbutton/InventoryButton.java:90 | two rectangles overlap iff they share a pixel; touching edges do not overlap |
| Geometry.OverlapsSymmetric | src/client/java/red/jackf/chesttracker/gui/invbutton/InventoryButton.java:90 | overlap is symmetric |
| Geometry.PointerOverlapsIffContains | src/client/java/red/jackf/chesttracker/gui/invbutton/InventoryButton.java:74-76 | a pointer's 1x1 rectangle overlaps a rectangle iff the rectangle contains the pointer |
| Geometry.EmptyOverlapsNothing | src/client/java/red/jackf/chesttracker/gui/invbutton/InventoryButton.java:125 | the empty hover area overlaps no rectangle |
| Geometry.Step | src/client/java/red/jackf/chesttracker/gui/invbutton/InventoryButton.java:98 | a step keeps the size and moves the rectangle by the distance along the direction only |
| Geometry.StepInverseAndAdditive | src/client/java/red/jackf/chesttracker/gui/invbutton/InventoryButton.java:98 | stepping back undoes a step, and consecutive steps add up |
| Geometry.Inflate | src/client/java/red/jackf/chesttracker/gui/invbutton/InventoryButton.java:123 | every side moves out by the margin |
| Geometry.InflateContains | src/client/java/red/jackf/chesttracker/gui/invbutton/InventoryButton.java:123 | the inflated rectangle contains the original's pixels and exactly the pixels within the margin of it |
| Geometry.Encompassing | src/client/java/red/jackf/chesttracker/gui/invbutton/InventoryButton.java:110 | every listed rectangle lies within the enclosing one; EncompassingTight and EncompassingIsLeast add that it is the least such rectangle |
| Geometry.EncompassingBounds | src/client/java/red/jackf/chesttracker/gui/invbutton/InventoryButton.java:110 | every listed rectangle lies within the enclosing one |
| Geometry.EncompassingTight | src/client/java/red/jackf/chesttracker/gui/invbutton/InventoryButton.java:110 | each side of the enclosing rectangle is a side of some listed rectangle |
| Geometry.EncompassingIsLeast | src/client/java/red/jackf/chesttracker/gui/invbutton/InventoryButton.java:110 | the enclosing rectangle lies within every rectangle that holds all listed ones |
| Geometry.IsFree | src/client/java/red/jackf/chesttracker/gui/invbutton/InventoryButton.java:90 | every pixel of a free placement is inside the bounds and inside none of the colliders |
| Geometry.FreeMeansNoSharedPixel | src/client/java/red/jackf/chesttracker/gui/invbutton/InventoryButton.java:90 | every pixel of a free placement is inside the bounds and inside no collider |
| GuiConstants.ConstantsConsistent | src/client/java/red/jackf/chesttracker/impl/gui/GuiConstants.java:21-31 | grid minimums do not exceed maximums; the first hold time is shorter than the second; the unknown icon is one crafting table |
| GuiConstants.PriorityDistinct | src/client/java/red/jackf/chesttracker/impl/gui/GuiConstants.java:37-41 | the priority list has 13 distinct items, none of them AIR |
| GuiConstants.Filtered | src/client/java/red/jackf/chesttracker/impl/gui/GuiConstants.java:42 | the stream filter keeps exactly the registry items not already listed and other than AIR |
| GuiConstants.FilteredDistinct | src/client/java/red/jackf/chesttracker/impl/gui/GuiConstants.java:42 | filtering a registry without repeats gives a list without repeats |
| GuiConstants.FirstOccurrencesOfDistinct | src/client/java/red/jackf/chesttracker/impl/gui/GuiConstants.java:43 | collecting a list without repeats keeps it unchanged |
| GuiConstants.FirstOccurrencesAppend | src/client/java/red/jackf/chesttracker/impl/gui/GuiConstants.java:36-43 | collecting two concatenated lists gives the first one's keys, then the second one's keys that are new |
| GuiConstants.DefaultIconOrder | src/client/java/red/jackf/chesttracker/impl/gui/GuiConstants.java:35-44 | the order starts with the priority items in their listed order, holds each item once and never holds AIR |
| GuiConstants.DefaultIconOrderProperties | src/client/java/red/jackf/chesttracker/impl/gui/GuiConstants.java:35-44 | the order starts with the 13 priority items in order, never holds AIR, holds each item once, and holds exactly the priority items and the other registry items; for a registry without repeats it is the priority list followed by the rest of the registry |
| GuiConstants.CollectFirstWins | src/client/java/red/jackf/chesttracker/impl/gui/GuiConstants.java:43 | the collected map's key order is the list's first occurrences, and each key maps to a stack of its own item |
| GuiConstants.MakeItemListOrder | src/client/java/red/jackf/chesttracker/impl/gui/GuiConstants.java:35-44 | the map's key order is the default icon order, and each key maps to a stack of its own item |
| InventoryButtons.SecondariesDoNotOverlap | src/client/java/red/jackf/chesttracker/gui/invbutton/InventoryButton.java:97-100 | each secondary button is one pitch (9 + 5 pixels) beyond the previous button in the direction, so no two 9x9 buttons overlap, the primary one included |
| InventoryButtons.RectangleFor | src/client/java/red/jackf/chesttracker/gui/invbutton/InventoryButton.java:103-111 | the rectangle holds the primary button and every stepped secondary button |
| InventoryButtons.RectangleForEncloses | src/client/java/red/jackf/chesttracker/gui/invbutton/InventoryButton.java:103-111 | rectangleFor holds the primary button and every stepped secondary button, and lies within any rectangle that holds them all |
| InventoryButtons.RectangleForClosedForm | src/client/java/red/jackf/chesttracker/gui/invbutton/InventoryButton.java:103-111 | rectangleFor(dir) is the primary rectangle extended by 28 pixels towards dir |
| InventoryButtons.ChosenDirection | src/client/java/red/jackf/chesttracker/gui/invbutton/InventoryButton.java:86-94 | the chosen direction is one of RIGHT, LEFT, DOWN, UP |
| InventoryButtons.ChooseDirection | src/client/java/red/jackf/chesttracker/gui/invbutton/InventoryButton.java:86-94 | the loop returns the first direction in the order whose rectangle is free, or RIGHT when none is free |
| InventoryButtons.DownChosenWhenRightBlockedAndLeftOffScreen | src/client/java/red/jackf/chesttracker/gui/invbutton/InventoryButton.java:86-94 | at the screen's left edge, with a widget where the first button would go to the right, DOWN is chosen |
| InventoryButtons.PlaceSecondaries | src/client/java/red/jackf/chesttracker/gui/invbutton/InventoryButton.java:97-100 | after the loop, secondary button i sits at the primary rectangle stepped 14*i pixels in the chosen direction |
| InventoryButtons.InventoryButton.IsExpandedHover | src/client/java/red/jackf/chesttracker/gui/invbutton/InventoryButton.java:74-76 | the pointer is in the expanded hover zone iff the hover area contains it |
| InventoryButtons.InventoryButton.constructor | src/client/java/red/jackf/chesttracker/gui/invbutton/InventoryButton.java:41-55 | the button is idle at the resolved position, with its secondary buttons laid out and visible and an empty hover area |
| InventoryButtons.InventoryButton.ApplyPosition | src/client/java/red/jackf/chesttracker/gui/invbutton/InventoryButton.java:78-101 | nothing changes when not forced and the position is unchanged; otherwise lastPosition becomes position, the button moves to the resolved point, and the secondary buttons move to the chosen direction; the drag state is untouched |
| InventoryButtons.InventoryButton.ShowExtraButtons | src/client/java/red/jackf/chesttracker/gui/invbutton/InventoryButton.java:113-127 | every secondary button gets the requested visibility; the hover area becomes the enclosing rectangle inflated by 5 when shown and empty when hidden |
| InventoryButtons.InventoryButton.Render | src/client/java/red/jackf/chesttracker/gui/invbutton/InventoryButton.java:58-64 | while dragging the secondary buttons are hidden and the hover area is empty; otherwise they are shown iff the button is hovered or the pointer is in the previous hover area |
| InventoryButtons.InventoryButton.MouseClicked | src/client/java/red/jackf/chesttracker/gui/invbutton/InventoryButton.java:130-139 | a press over the button arms the drag and records the press time; any other press leaves the drag state alone |
| InventoryButtons.InventoryButton.MouseDragged | src/client/java/red/jackf/chesttracker/gui/invbutton/InventoryButton.java:142-156 | dragging starts iff the drag is armed and 200 ms have passed; then the button follows the new position; otherwise nothing changes |
| InventoryButtons.InventoryButton.MouseReleased | src/client/java/red/jackf/chesttracker/gui/invbutton/InventoryButton.java:159-174 | a release always disarms; ending a drag persists the position; otherwise the release is handled, opening the screen, iff it is over the button |
| InventoryButtons.PressAndReleaseIsAClick | src/client/java/red/jackf/chesttracker/gui/invbutton/InventoryButton.java:130-174 | a press and a release 100 ms later open the screen and persist nothing |
| InventoryButtons.PressHoldAndDragMovesTheButton | src/client/java/red/jackf/chesttracker/gui/invbutton/InventoryButton.java:142-174 | a press, then a move at 250 ms, then a release persists the new position |
| ChestTrackerScreens.ShrinkToFit | src/client/java/red/jackf/chesttracker/gui/ChestTrackerScreen.java:91-97 | the live grid is the largest size up to the configured one whose menu fits, else the minimum; the menu size matches the live grid |
| ChestTrackerScreens.ComputeLayout | src/client/java/red/jackf/chesttracker/gui/ChestTrackerScreen.java:88-101 | along each axis the live grid is the largest size up to the configured one whose menu fits, never below the minimum (a configured size at or below it is kept), and the menu is centred with Java division |
| ChestTrackerScreens.FittingMenuIsCentred | src/client/java/red/jackf/chesttracker/gui/ChestTrackerScreen.java:100-101 | a menu that fits lies inside the window, with opposite margins differing by at most one pixel |
| ChestTrackerScreens.ConfiguredKeysMembers | src/client/java/red/jackf/chesttracker/gui/ChestTrackerScreen.java:197-199 | the first key loop lists exactly the configured ids that are keys, each once when the config has no repeats |
| ChestTrackerScreens.KeyOrder | src/client/java/red/jackf/chesttracker/gui/ChestTrackerScreen.java:194-202 | the order lists exactly the memory keys, and the configured keys come first in config order |
| ChestTrackerScreens.KeyOrderProperties | src/client/java/red/jackf/chesttracker/gui/ChestTrackerScreen.java:194-202 | every key is listed and nothing else is; the configured keys come first in config order; with distinct configured ids no key is listed twice |
| ChestTrackerScreens.CollectConfigured | src/client/java/red/jackf/chesttracker/gui/ChestTrackerScreen.java:197-199 | the first loop collects the configured ids that are keys, in config order |
| ChestTrackerScreens.OrderKeys | src/client/java/red/jackf/chesttracker/gui/ChestTrackerScreen.java:194-202 | both loops give the key order: exactly the keys, with the configured ones first |
| ChestTrackerScreens.IconFor | src/client/java/red/jackf/chesttracker/gui/ChestTrackerScreen.java:206 | a key's icon is a crafting table or the icon of a configured entry with that id; IconForFirstMatch says which |
| ChestTrackerScreens.IconForFirstMatch | src/client/java/red/jackf/chesttracker/gui/ChestTrackerScreen.java:206 | a key's icon is that of its first configured icon, or a crafting table when none matches |
| ChestTrackerScreens.BuildButtons | src/client/java/red/jackf/chesttracker/gui/ChestTrackerScreen.java:204-220 | button i shows its key's icon at (left - 24, top + 24*i); exactly the current memory's buttons start highlighted; each key maps to its last button |
| ChestTrackerScreens.MemoryButtons | src/client/java/red/jackf/chesttracker/gui/ChestTrackerScreen.java:190-220 | the buttons follow the key order, with their icons, positions and initial highlight |
| ChestTrackerScreens.SelectHighlights | src/client/java/red/jackf/chesttracker/gui/ChestTrackerScreen.java:208-213 | after a click the clicked key's button is highlighted and every button keeps its key |
| ChestTrackerScreens.SelectAsWritten | src/client/java/red/jackf/chesttracker/gui/ChestTrackerScreen.java:207-216 | as written, a click throws exactly when the current memory has no button; otherwise every button keeps its key and the clicked key's button is highlighted |
| ChestTrackerScreens.SelectAgreesWhenCurrentHasButton | src/client/java/red/jackf/chesttracker/gui/ChestTrackerScreen.java:208-213 | when the current memory has a button, the corrected handler does what the written one does |
| ChestTrackerScreens.ClickThrowsWhenCurrentMemoryHasNoKey | src/client/java/red/jackf/chesttracker/gui/ChestTrackerScreen.java:208 | as written, every button click fails when the current memory is not a memory key |
| ChestTrackerScreens.ClickInNetherWithOnlyOverworldMemoryThrows | src/client/java/red/jackf/chesttracker/gui/ChestTrackerScreen.java:208 | as written, a click fails in the nether when only the overworld has a memory |
| ChestTrackerScreens.SelectKeepsSingleHighlight | src/client/java/red/jackf/chesttracker/gui/ChestTrackerScreen.java:207-219 | with one button per key, after a click exactly the clicked memory's button is highlighted |
| ChestTrackerScreens.SortByCountDesc | src/client/java/red/jackf/chesttracker/gui/ChestTrackerScreen.java:237-238 | the sort is a permutation of the count entries; SortByCountDescCorrect adds the order and its stability |
| ChestTrackerScreens.InsertByCountShape | src/client/java/red/jackf/chesttracker/gui/ChestTrackerScreen.java:238 | inserting an entry into the sorted list adds exactly that entry |
| ChestTrackerScreens.InsertByCountSorted | src/client/java/red/jackf/chesttracker/gui/ChestTrackerScreen.java:238 | inserting into a list sorted highest first keeps it sorted |
| ChestTrackerScreens.InsertByCountWithCount | src/client/java/red/jackf/chesttracker/gui/ChestTrackerScreen.java:238 | an inserted entry goes before every other entry with the same count |
| ChestTrackerScreens.SortByCountDescCorrect | src/client/java/red/jackf/chesttracker/gui/ChestTrackerScreen.java:237-238 | the sort is highest first, a permutation, and equal counts keep their original order |
| ChestTrackerScreens.SortedStacks | src/client/java/red/jackf/chesttracker/gui/ChestTrackerScreen.java:236-244 | there is one item per count entry, ordered from the highest count to the lowest |
| ChestTrackerScreens.SortedStacksHighestFirst | src/client/java/red/jackf/chesttracker/gui/ChestTrackerScreen.java:236-244 | the items are one stack per count entry, highest count first, each with its entry's item, tag and count |
| ChestTrackerScreens.TiesKeepInsertionOrder | src/client/java/red/jackf/chesttracker/gui/ChestTrackerScreen.java:237-238 | counts A:5, B:12, C:5 sort to B, A, C |
| ChestTrackerScreens.ChestTrackerScreen.constructor | src/client/java/red/jackf/chesttracker/gui/ChestTrackerScreen.java:72-78 | the screen opens on the level's dimension, or on chesttracker:unknown without a level |
| ChestTrackerScreens.ChestTrackerScreen.Filter | src/client/java/red/jackf/chesttracker/gui/ChestTrackerScreen.java:251-256 | the list shows the items matching the lower-cased query; scrolling is disabled iff they fit the configured grid; nothing else changes |
| ChestTrackerScreens.ChestTrackerScreen.SearchChanged | src/client/java/red/jackf/chesttracker/gui/ChestTrackerScreen.java:155-158 | a new search text is stored and filtered by |
| ChestTrackerScreens.ChestTrackerScreen.UpdateItems | src/client/java/red/jackf/chesttracker/gui/ChestTrackerScreen.java:234-246 | nothing happens without a memory; otherwise the items are the current memory's counts, highest first, then filtered |
| ChestTrackerScreens.ChestTrackerScreen.Relayout | src/client/java/red/jackf/chesttracker/gui/ChestTrackerScreen.java:88-162 | the grid fits the window, the menu is centred, and the rebuilt search box filters again; the memory and the buttons are kept |
| ChestTrackerScreens.ChestTrackerScreen.Init | src/client/java/red/jackf/chesttracker/gui/ChestTrackerScreen.java:86-224 | after init: the layout fits; the buttons follow the key order with their icons, positions and highlights; the items are the current memory's sorted counts, filtered by the search text |
| ChestTrackerScreens.ChestTrackerScreen.SelectMemory | src/client/java/red/jackf/chesttracker/gui/ChestTrackerScreen.java:207-216 | the corrected click handler of the Findings row: the clicked key becomes the memory, its items are reloaded, filtered and the scroll flag reset, the highlight moves to its button, and the window, configuration, layout and search text are kept; the as-written handler, which throws when the current memory has no button, is SelectAsWritten |
| JadePreviews.HandledByJade | src/client/java/red/jackf/chesttracker/impl/compat/mods/jade/JadeClientContentsPreview.java:36-42 | Jade takes over only when the server sent its own storage or furnace data, and never when both of its options are off |
| JadePreviews.ShownCount | src/client/java/red/jackf/chesttracker/impl/compat/mods/jade/JadeClientContentsPreview.java:56 | the count is where the loop `i < max && i < n` stops: every index below it passes the test, and the count itself fails it |
| JadePreviews.FlattenAppend | src/client/java/red/jackf/chesttracker/impl/compat/mods/jade/JadeClientContentsPreview.java:60 | adding a line appends its items |
| JadePreviews.Chunks | src/client/java/red/jackf/chesttracker/impl/compat/mods/jade/JadeClientContentsPreview.java:54-64 | the lines join up to the shown stacks and none is empty; ChunksIsChunking adds the line lengths |
| JadePreviews.ChunksIsChunking | src/client/java/red/jackf/chesttracker/impl/compat/mods/jade/JadeClientContentsPreview.java:54-64 | the lines join up to the shown stacks; no line is empty; every line but the last is full; none is longer than perLine |
| JadePreviews.ChunkingUnique | src/client/java/red/jackf/chesttracker/impl/compat/mods/jade/JadeClientContentsPreview.java:54-64 | any split with those properties is that split |
| JadePreviews.ChunkLines | src/client/java/red/jackf/chesttracker/impl/compat/mods/jade/JadeClientContentsPreview.java:54-64 | the chunking loop's lines split the first min(max, n) stacks as stated above |
| JadePreviews.MarginOpsLayout | src/client/java/red/jackf/chesttracker/impl/compat/mods/jade/JadeClientContentsPreview.java:65-68 | the calls alternate lines and margins, with one margin fewer than lines and none after the last line |
| JadePreviews.AddLines | src/client/java/red/jackf/chesttracker/impl/compat/mods/jade/JadeClientContentsPreview.java:65-68 | the second loop makes exactly those calls |
| JadePreviews.MarginOpsCounts | src/client/java/red/jackf/chesttracker/impl/compat/mods/jade/JadeClientContentsPreview.java:65-68 | the lines carry the items in order, and the margin is set lines - 1 times |
| JadePreviews.CountsAppend | src/client/java/red/jackf/chesttracker/impl/compat/mods/jade/JadeClientContentsPreview.java:65-79 | the items and margin counts of consecutive calls add up |
| JadePreviews.MarginOpsOnlyLines | src/client/java/red/jackf/chesttracker/impl/compat/mods/jade/JadeClientContentsPreview.java:65-68 | the line loop never names the object or adds the brand line |
| JadePreviews.TailOpsContents | src/client/java/red/jackf/chesttracker/impl/compat/mods/jade/JadeClientContentsPreview.java:70-79 | the name is replaced iff the memory has a name; the brand line is added iff details and the option are on |
| JadePreviews.PreviewOpsContents | src/client/java/red/jackf/chesttracker/impl/compat/mods/jade/JadeClientContentsPreview.java:65-79 | all calls: the lines' items, lines - 1 margins, the name iff there is one, the brand iff requested |
| JadePreviews.Tooltip | src/client/java/red/jackf/chesttracker/impl/compat/mods/jade/JadeClientContentsPreview.java:35-81 | the provider fails exactly when a preview is due and the line width is negative; TooltipContents and NothingAddedWithoutMemory give the calls it makes otherwise |
| JadePreviews.AppendTooltip | src/client/java/red/jackf/chesttracker/impl/compat/mods/jade/JadeClientContentsPreview.java:35-81 | the method makes the calls of the tooltip specification, or fails on a negative line width |
| JadePreviews.TooltipContents | src/client/java/red/jackf/chesttracker/impl/compat/mods/jade/JadeClientContentsPreview.java:44-79 | a shown preview holds exactly the first min(max, n) stacks in order, lines - 1 margins, the name iff the memory has one, and the brand iff details and the option are on |
| JadePreviews.NothingAddedWithoutMemory | src/client/java/red/jackf/chesttracker/impl/compat/mods/jade/JadeClientContentsPreview.java:36-47 | nothing is added when Jade shows the block itself, no bank is loaded, or no memory is at the block |
| JadePreviews.FourOfFiveInLinesOfThree | src/client/java/red/jackf/chesttracker/impl/compat/mods/jade/JadeClientContentsPreview.java:54-68 | five stacks with a limit of four in lines of three give a line of three, a margin, and a line of one |
| LoadContexts.ToHex | src/client/java/red/jackf/chesttracker/storage/LoadContext.java:33 | the hexadecimal form has at least one digit, all lower-case hex digits, and no leading zero unless the number is zero |
| LoadContexts.ToHexRoundTrip | src/client/java/red/jackf/chesttracker/storage/LoadContext.java:33 | the hex digits parse back to the number; they are lower-case hex digits with no leading zero |
| LoadContexts.ToHexLength | src/client/java/red/jackf/chesttracker/storage/LoadContext.java:33 | a number below 16^k has at most k hex digits |
| LoadContexts.Unsigned | src/client/java/red/jackf/chesttracker/storage/LoadContext.java:33 | the unsigned reading of a long is the one number in [0, 2^64) congruent to it modulo 2^64, that is, the same 64 bits |
| LoadContexts.UnsignedInjective | src/client/java/red/jackf/chesttracker/storage/LoadContext.java:33 | two longs with the same unsigned reading are equal |
| LoadContexts.LeftPad | src/client/java/red/jackf/chesttracker/storage/LoadContext.java:33 | padding puts spaces in front up to the size and keeps the string at the end |
| LoadContexts.RealmKey | src/client/java/red/jackf/chesttracker/storage/LoadContext.java:33 | a realm key has 16 characters, each a space or a hex digit |
| LoadContexts.RealmKeyShape | src/client/java/red/jackf/chesttracker/storage/LoadContext.java:33 | a realm key has 16 characters and ends in the id's hex digits |
| LoadContexts.RealmKeyInjective | src/client/java/red/jackf/chesttracker/storage/LoadContext.java:33 | different realm ids give different keys |
| LoadContexts.AllFs | src/client/java/red/jackf/chesttracker/storage/LoadContext.java:33 | 16^(k+1) - 1 prints as k + 1 digits 'f' |
| LoadContexts.DefaultRealmKey | src/client/java/red/jackf/chesttracker/storage/LoadContext.java:13 | the default realm id -1 gives the key of sixteen 'f's |
| LoadContexts.StripPort | src/client/java/red/jackf/chesttracker/storage/LoadContext.java:39 | the address is kept, or cut just before a ':' that is followed by one or more digits up to its end |
| LoadContexts.StripPortRemovesPort | src/client/java/red/jackf/chesttracker/storage/LoadContext.java:39 | an address ending in ':' and digits loses that suffix |
| LoadContexts.StripPortKeepsOthers | src/client/java/red/jackf/chesttracker/storage/LoadContext.java:39 | any other address is kept as it is |
| LoadContexts.KindOf | src/client/java/red/jackf/chesttracker/storage/LoadContext.java:19-53 | there is a session kind iff there is a live connection with a singleplayer server, Realms or a current server; the singleplayer server wins over the others; a LAN session has a LAN current server |
| LoadContexts.PrefixesDistinguish | src/client/java/red/jackf/chesttracker/storage/LoadContext.java:19-53 | ids with different kind prefixes differ |
| LoadContexts.RealmRecord.constructor | src/client/java/red/jackf/chesttracker/storage/LoadContext.java:12-13 | the remembered realm starts as "Unknown Realm" with id -1 |
| LoadContexts.RealmRecord.SetLastRealm | src/client/java/red/jackf/chesttracker/storage/LoadContext.java:55-58 | both the id and the name are overwritten |
| LoadContexts.RealmRecord.Get | src/client/java/red/jackf/chesttracker/storage/LoadContext.java:19-53 | there is a context iff there is a live connection with a singleplayer, Realms or current server; its id is the kind's prefix and a sanitized part |
| LoadContexts.KindsNeverShareIds | src/client/java/red/jackf/chesttracker/storage/LoadContext.java:19-53 | sessions of different kinds never get the same id |
| LoadContexts.SingleplayerContext | src/client/java/red/jackf/chesttracker/storage/LoadContext.java:23-29 | the singleplayer id and name come from the level, even when Realms or a server is also set |
| LoadContexts.RealmsContext | src/client/java/red/jackf/chesttracker/storage/LoadContext.java:30-35 | the Realms id uses the 16-character key of the remembered realm, and the name uses its name |
| LoadContexts.LanContextIgnoresPort | src/client/java/red/jackf/chesttracker/storage/LoadContext.java:37-43 | the LAN id drops the port; the name is the first player-list entry, else the address |
| LoadContexts.MultiplayerContext | src/client/java/red/jackf/chesttracker/storage/LoadContext.java:44-48 | the multiplayer id keeps the full address and the name uses the server name |
| LoadContexts.JoinRealm | src/client/java/red/jackf/chesttracker/storage/LoadContext.java:55-58 | after setLastRealm, a Realms session is identified and named by that realm |
| MemoryBankViews.RemoveIcon | src/client/java/red/jackf/chesttracker/gui/screen/MemoryBankView.java:48 | removing an icon drops that key's icon and keeps the key order and the other icons |
| MemoryBankViews.RemoveIconsContents | src/client/java/red/jackf/chesttracker/gui/screen/MemoryBankView.java:46-49 | after queued removals the removed keys have no icons, the others keep theirs, and the key order is kept |
| MemoryBankViews.MemoryBank.constructor | src/client/java/red/jackf/chesttracker/gui/screen/MemoryBankView.java:25 | a bank with an id, metadata and keys |
| MemoryBankViews.MemoryBank.RemoveKey | src/client/java/red/jackf/chesttracker/gui/screen/MemoryBankView.java:53 | removing a key from the bank drops it and keeps the metadata |
| MemoryBankViews.MemoryBank.SetMetadata | src/client/java/red/jackf/chesttracker/gui/screen/MemoryBankView.java:54 | setting the metadata keeps the keys |
| MemoryBankViews.BankView.Of | src/client/java/red/jackf/chesttracker/gui/screen/MemoryBankView.java:25-43 | the view starts with a copy of the metadata and nothing queued; id() is the bank's id and keys() the copy's key order |
| MemoryBankViews.BankView.RemoveKey | src/client/java/red/jackf/chesttracker/gui/screen/MemoryBankView.java:46-49 | the id is queued in call order and its icon is dropped from the copy; the bank keeps its state |
| MemoryBankViews.BankView.EditMetadata | src/client/java/red/jackf/chesttracker/gui/screen/MemoryBankView.java:36-38 | edits through metadata() change the copy only |
| MemoryBankViews.BankView.Save | src/client/java/red/jackf/chesttracker/gui/screen/MemoryBankView.java:51-56 | every queued key is removed from the bank and the copy becomes its metadata; the queue is not cleared |
| MemoryBankViews.RemoveThenSave | src/client/java/red/jackf/chesttracker/gui/screen/MemoryBankView.java:46-56 | two removals and a save remove both keys and their icons and keep the key order |
| MemoryBankViews.SaveTwice | src/client/java/red/jackf/chesttracker/gui/screen/MemoryBankView.java:51-56 | saving twice has the effect of saving once |
| MemoryBankViews.EmptyView.constructor | src/client/java/red/jackf/chesttracker/gui/screen/MemoryBankView.java:60-61 | the empty view holds the blank metadata |
| MemoryBankViews.EmptyViewIgnoresEdits | src/client/java/red/jackf/chesttracker/gui/screen/MemoryBankView.java:60-81 | after a removal and a save the empty view still reports the id "error", no keys and the blank metadata |
| MemoryBankViews.EmptyIdIsNoSessionId | src/client/java/red/jackf/chesttracker/gui/screen/MemoryBankView.java:63-65 | the empty view's id "error" is never the id that a session's memory bank gets |

## Left out

- Rendering is left out: drawing, sprites, nine-patches, tooltips on the widgets, narration, focus and the settings and resize widgets. These are game-engine calls with no stated result.
- The item list and scroll widgets are left out. Only what the screen hands to them is modelled: the shown items and the scroll bar's disabled flag.
- `mouseScrolled` is left out; it works in floating point.
- Mouse coordinates are integers here. The source passes `double`s.
- The `System.out.println` debug output in `applyPosition` is left out.
- `Nudge`, `ScreenRectangle`, `Nudge.getCollidersFor` and `ButtonPosition` are not part of this model.
  - The geometry helpers are given their usual integer-rectangle meaning.
  - The colliders and the resolution of a position to pixels are fields of `Parent`.
  - `ButtonPosition.calculate` and `Util.getMillis` are method parameters.
- `ButtonPositionMap.setUser` and `ChestTracker.openInGame` are returned as a `ReleaseAction` rather than performed.
- Each secondary button's own `mouseClicked` is one parameter, `secondaryHandled`: whether any of them took the click.
- InventoryButtons.InventoryButton.MouseClicked: `baseHandled` stands for the widget base's `super.mouseClicked` and is not constrained, so the model does not say when the base class takes a click.
- The mouse-button argument of the mouse handlers is left out, as are the drag deltas of `mouseDragged`. `mouseDragged` and `mouseReleased` ignore them. `mouseClicked` only hands the button on to the secondary buttons and to the widget base, whose answers are parameters.
- ChestTrackerScreens.ToStack: `LightweightStack.toStack` is not part of this model; it is taken to give a single item with the stack's tag.
- InventoryButtons.InventoryButton.Render: the widget base's `isHovered()` is a parameter.
- `SecondaryButton` is not part of this model; it is taken to be 9x9 like the primary button.
- The configuration and its `save`, `Storage.save(bank)` and every other disk write are left out. The configuration is a parameter of `Init`.
- `SearchablesUtil.ITEM_STACK.filterEntries` is an uninterpreted function of the screen. No law such as identity on an empty query or idempotence is assumed of it.
- `StringUtil.sanitizeForPath` and `I18n.get` are uninterpreted functions (`Host`). Player-list entries are taken in their string form.
- Java `int` overflow is not modelled. Grid sizes, counts and pixel coordinates are unbounded integers. Java `long` is a bounded newtype where it matters, for the realm id's hexadecimal form.
- Game.Lower: lower-cases ASCII letters only, while `String.toLowerCase` also lower-cases other scripts.
- ChestTrackerScreens.SortByCountDesc: the counts map is taken in a fixed iteration order, and the stream's sort is stable. The source gives no order for equal counts beyond that of the `HashMap`.
- LoadContexts.StripPort: a `$` in a Java regex also matches before a final line terminator; addresses are taken to contain none.
- `MemoryBank.removeKey` and `VisualSettings.removeIcon` are not part of this model. They are taken to drop the key's memories and to drop the key's icon only, the key order being kept.
- `Metadata.blank()` is not part of this model. The empty view holds the value it stands for.
- The empty view's `removeKey` and `save` do nothing, so they have no contract to state.
- The bank's keys are a set, so the order in which `save` removes them does not show in the model.
- Metadata is a value here, so `deepCopy` is the value itself. After `save` the bank holds the very copy object, so a later edit through the view would reach the bank. The model does not capture that aliasing.
- ChestTrackerScreens.ChestTrackerScreen.SelectMemory: models the corrected click handler of the Findings row. When the current memory has no button it goes on, where the code as written throws; SelectAsWritten models that case.
- ChestTrackerScreens.ChestTrackerScreen.SelectMemory: the unhighlighting that the click handler does before `updateItems` is applied together with the highlighting after it. This is sound because `updateItems` reads no button.
- `ItemStacks.flattenStacks` is not part of this model. The flattened stacks are the memory's input.
- The item registry is a sequence in registry order.
- `UNKNOWN_ICON`, the margins and the grid limits of `GuiConstants` are declared but not used by the rest of the model.
- The options that only affect presentation are left out: search autofocus, autocomplete and the resize widget.

## Findings

| source | as written | input that shows it | evidently intended | confidence | as-written member | corrected member |
|---|---|---|---|---|---|---|
| src/client/java/red/jackf/chesttracker/gui/ChestTrackerScreen.java:208 | a memory button's click handler first unhighlights `buttons.get(this.memoryId)`, which is null when the current memory has no button, so it throws | the player is in the nether and only the overworld has memories: the screen opens on the nether, and clicking the overworld button dereferences null | skip the unhighlighting when the current memory has no button, then select and highlight the clicked one | not executed | ChestTrackerScreens.ClickInNetherWithOnlyOverworldMemoryThrows | ChestTrackerScreens.SelectKeepsSingleHighlight |
