/** The main ChestTracker screen: the grid is shrunk until the menu fits the
    window and the menu is centred; one button per memory key is placed down
    the left edge, in config order first; the remembered item counts of the
    selected memory are sorted highest first and filtered by the search box,
    and the scroll bar is disabled when the results fit. */
module ChestTrackerScreens {
  import opened Game

  const SMALL_MENU_WIDTH := 192
  const SMALL_MENU_HEIGHT := 153
  /** Grid columns and rows of the small menu. */
  const SMALL_GRID_WIDTH := 9
  const SMALL_GRID_HEIGHT := 6
  const MEMORY_ICON_OFFSET := 24
  const MEMORY_ICON_SPACING := 24
  /** ChestTracker.id("unknown"), the memory shown when there is no level. */
  const UNKNOWN_MEMORY := ResourceLocation("chesttracker", "unknown")

  /** Values of the mod's util.Constants class, which is not part of this model. */
  datatype SizeConstants = SizeConstants(slotSize: int, minGridWidth: int, minGridHeight: int)

  /** An item and tag without a count (LightweightStack). */
  datatype LightweightStack = LightweightStack(item: Item, tag: Option<Tag>)

  /** One entry of a memory's item counts. */
  datatype CountEntry = CountEntry(stack: LightweightStack, count: int)

  /** A configured memory icon: the memory key and the item shown for it. */
  datatype MemoryIcon = MemoryIcon(id: ResourceLocation, icon: LightweightStack)

  /** The `gui` section of the configuration. */
  datatype GuiConfig = GuiConfig(gridWidth: int, gridHeight: int, memoryIcons: seq<MemoryIcon>)

  /** ItemMemory.INSTANCE: the memory keys in iteration order and the item
      counts remembered under each key, in the map's iteration order. */
  datatype ItemMemory = ItemMemory(keys: seq<ResourceLocation>, counts: ResourceLocation -> seq<CountEntry>)

  /** A memory button: its key, icon, position and highlight flag. */
  datatype MemoryButton = MemoryButton(key: ResourceLocation, icon: ItemStack, x: int, y: int, highlighted: bool)

  // ---------------------------------------------------------------------
  // Shrinking the grid until the menu fits

  /** Menu extent along one axis for a grid of `cells` slots. */
  function MenuSize(base: int, baseCells: int, slotSize: int, cells: int): int {
    base + (cells - baseCells) * slotSize
  }

  /** One of init's do-while loops: starting one above the configured size,
      decrement the live grid size and recompute the menu size, while the
      menu is larger than the window and the grid is above its minimum. The
      result is the largest size up to the configured one that fits, or the
      minimum when none does. */
  method ShrinkToFit(configured: int, available: int, base: int, baseCells: int, slotSize: int, minCells: int)
    returns (live: int, menu: int)
    ensures live <= configured
    ensures menu == MenuSize(base, baseCells, slotSize, live)
    ensures menu <= available || live <= minCells
    ensures configured <= minCells ==> live == configured
    ensures configured > minCells ==> live >= minCells
    ensures forall v :: live < v <= configured ==> MenuSize(base, baseCells, slotSize, v) > available
  {
    live := configured + 1;
    live := live - 1;
    menu := MenuSize(base, baseCells, slotSize, live);
    while menu > available && live > minCells
      invariant live <= configured
      invariant live == configured || live >= minCells
      invariant menu == MenuSize(base, baseCells, slotSize, live)
      invariant forall v :: live < v <= configured ==> MenuSize(base, baseCells, slotSize, v) > available
      decreases live - minCells
    {
      live := live - 1;
      menu := MenuSize(base, baseCells, slotSize, live);
    }
  }

  // ---------------------------------------------------------------------
  // Ordering the memory keys

  function IconIds(icons: seq<MemoryIcon>): (ids: seq<ResourceLocation>)
    ensures |ids| == |icons| && forall i :: 0 <= i < |icons| ==> ids[i] == icons[i].id
  {
    seq(|icons|, i requires 0 <= i < |icons| => icons[i].id)
  }

  /** The configured ids that are memory keys, in config order. */
  function ConfiguredKeys(ids: seq<ResourceLocation>, keys: seq<ResourceLocation>): seq<ResourceLocation> {
    if ids == [] then []
    else
      var last := ids[|ids| - 1];
      ConfiguredKeys(ids[..|ids| - 1], keys) + (if last in keys then [last] else [])
  }

  /** The order of the memory buttons: the configured ids that are keys, in
      config order, then every other key in iteration order. */
  function KeyOrder(ids: seq<ResourceLocation>, keys: seq<ResourceLocation>): (order: seq<ResourceLocation>)
    ensures forall k :: k in order <==> k in keys
    ensures |ConfiguredKeys(ids, keys)| <= |order| && order[..|ConfiguredKeys(ids, keys)|] == ConfiguredKeys(ids, keys)
  {
    var configured := ConfiguredKeys(ids, keys);
    ConfiguredKeysMembers(ids, keys);
    FirstOccurrencesMembers(keys, set k | k in configured);
    configured + FirstOccurrences(keys, set k | k in configured)
  }

  lemma {:induction false} ConfiguredKeysMembers(ids: seq<ResourceLocation>, keys: seq<ResourceLocation>)
    ensures forall k :: k in ConfiguredKeys(ids, keys) <==> k in ids && k in keys
    ensures Distinct(ids) ==> Distinct(ConfiguredKeys(ids, keys))
  {
    if ids != [] {
      var init := ids[..|ids| - 1];
      ConfiguredKeysMembers(init, keys);
      assert ids == init + [ids[|ids| - 1]];
      if Distinct(ids) {
        assert Distinct(init) by {
          forall i, j | 0 <= i < j < |init| ensures init[i] != init[j] { assert init[i] == ids[i] && init[j] == ids[j]; }
        }
        assert ids[|ids| - 1] !in init;
      }
    }
  }

  /** Every key gets a button, nothing else does, the configured keys come
      first in config order, and with distinct configured ids no key gets
      two buttons. */
  lemma KeyOrderProperties(ids: seq<ResourceLocation>, keys: seq<ResourceLocation>)
    ensures forall k :: k in KeyOrder(ids, keys) <==> k in keys
    ensures KeyOrder(ids, keys)[..|ConfiguredKeys(ids, keys)|] == ConfiguredKeys(ids, keys)
    ensures forall k :: k in ConfiguredKeys(ids, keys) <==> k in ids && k in keys
    ensures Distinct(ids) ==> Distinct(KeyOrder(ids, keys))
  {
    var configured := ConfiguredKeys(ids, keys);
    var seen := set k | k in configured;
    ConfiguredKeysMembers(ids, keys);
    FirstOccurrencesMembers(keys, seen);
    var rest := FirstOccurrences(keys, seen);
    assert KeyOrder(ids, keys) == configured + rest;
    if Distinct(ids) {
      forall i, j | 0 <= i < j < |configured + rest| ensures (configured + rest)[i] != (configured + rest)[j] {
        if j >= |configured| && i < |configured| {
          assert (configured + rest)[i] in seen;
          assert (configured + rest)[j] in rest;
        }
      }
    }
  }

  /** init's first key loop: the configured icon ids that are keys, in
      config order. */
  method CollectConfigured(icons: seq<MemoryIcon>, keys: seq<ResourceLocation>) returns (todo: seq<ResourceLocation>)
    ensures todo == ConfiguredKeys(IconIds(icons), keys)
  {
    var ids := IconIds(icons);
    todo := [];
    var i := 0;
    while i < |icons|
      invariant 0 <= i <= |icons|
      invariant todo == ConfiguredKeys(ids[..i], keys)
    {
      assert ids[..i + 1][..i] == ids[..i];
      if icons[i].id in keys {
        todo := todo + [icons[i].id];
      }
      i := i + 1;
    }
    assert ids[..|icons|] == ids;
  }

  /** init's two key loops: first the configured ids that are keys, then
      every key not already listed. */
  method OrderKeys(icons: seq<MemoryIcon>, keys: seq<ResourceLocation>) returns (todo: seq<ResourceLocation>)
    ensures todo == KeyOrder(IconIds(icons), keys)
    ensures forall k :: k in todo <==> k in keys
    ensures Distinct(IconIds(icons)) ==> Distinct(todo)
  {
    todo := CollectConfigured(icons, keys);
    var configured := todo;
    var seen := set k | k in configured;
    var j := 0;
    while j < |keys|
      invariant 0 <= j <= |keys|
      invariant todo == configured + FirstOccurrences(keys[..j], seen)
    {
      var key := keys[j];
      assert keys[..j + 1][..j] == keys[..j];
      FirstOccurrencesMembers(keys[..j], seen);
      assert key in todo <==> key in seen || key in keys[..j];
      if key !in todo {
        todo := todo + [key];
      }
      j := j + 1;
    }
    assert keys[..|keys|] == keys;
    KeyOrderProperties(IconIds(icons), keys);
  }

  // ---------------------------------------------------------------------
  // Memory buttons

  /** The icon of a memory key: the first configured icon with that id, or a crafting table. */
  function IconFor(icons: seq<MemoryIcon>, key: ResourceLocation): (icon: ItemStack)
    ensures icon == StackOf(CRAFTING_TABLE) || exists i :: 0 <= i < |icons| && icons[i].id == key && icon == ToStack(icons[i].icon)
  {
    if icons == [] then StackOf(CRAFTING_TABLE)
    else if icons[0].id == key then ToStack(icons[0].icon)
    else IconFor(icons[1..], key)
  }

  /** A key's icon is that of its first configured icon, and a crafting
      table when it has none. */
  lemma {:induction false} IconForFirstMatch(icons: seq<MemoryIcon>, key: ResourceLocation)
    ensures (exists i :: 0 <= i < |icons| && icons[i].id == key) ==>
      exists i :: 0 <= i < |icons| && icons[i].id == key && IconFor(icons, key) == ToStack(icons[i].icon)
                  && forall j :: 0 <= j < i ==> icons[j].id != key
    ensures (forall i :: 0 <= i < |icons| ==> icons[i].id != key) ==> IconFor(icons, key) == StackOf(CRAFTING_TABLE)
  {
    if icons != [] && icons[0].id != key {
      IconForFirstMatch(icons[1..], key);
      assert forall i :: 1 <= i < |icons| ==> icons[i] == icons[1..][i - 1];
      if exists i :: 0 <= i < |icons| && icons[i].id == key {
        var i :| 0 <= i < |icons| && icons[i].id == key;
        assert icons[1..][i - 1].id == key;
        var m :| 0 <= m < |icons[1..]| && icons[1..][m].id == key && IconFor(icons[1..], key) == ToStack(icons[1..][m].icon)
                 && forall j :: 0 <= j < m ==> icons[1..][j].id != key;
        assert icons[m + 1].id == key && IconFor(icons, key) == ToStack(icons[m + 1].icon);
        assert forall j :: 0 <= j < m + 1 ==> icons[j].id != key by {
          forall j | 0 <= j < m + 1 ensures icons[j].id != key {
            if j > 0 { assert icons[j] == icons[1..][j - 1]; }
          }
        }
      }
    } else if icons != [] {
      assert icons[0].id == key && IconFor(icons, key) == ToStack(icons[0].icon);
    }
  }

  /** MemoryIcon.icon().toStack(): one item with the icon's tag. */
  function ToStack(l: LightweightStack): ItemStack {
    ItemStack(l.item, l.tag, 1)
  }

  function ButtonKeys(buttons: seq<MemoryButton>): (ks: seq<ResourceLocation>)
    ensures |ks| == |buttons| && forall i :: 0 <= i < |buttons| ==> ks[i] == buttons[i].key
  {
    seq(|buttons|, i requires 0 <= i < |buttons| => buttons[i].key)
  }

  /** The `buttons` HashMap of init: each listed key maps to the index of its
      last button (a later `put` replaces an earlier one). */
  ghost predicate LastIndexMap(order: seq<ResourceLocation>, index: map<ResourceLocation, nat>) {
    && (forall k :: k in index <==> k in order)
    && (forall k :: k in index ==> index[k] < |order| && order[index[k]] == k)
    && (forall k, j :: k in index && index[k] < j < |order| ==> order[j] != k)
  }

  /** Exactly the buttons of memory `id` are highlighted. */
  ghost predicate HighlightsOnly(buttons: seq<MemoryButton>, id: ResourceLocation) {
    forall j :: 0 <= j < |buttons| ==> (buttons[j].highlighted <==> buttons[j].key == id)
  }

  /** init's button loop: button `i` shows the icon of key `order[i]` at
      (left - 24, top + 24 * i), only buttons of the current memory start
      highlighted, and the map points each key to its last button. */
  method BuildButtons(order: seq<ResourceLocation>, icons: seq<MemoryIcon>, left: int, top: int, memoryId: ResourceLocation)
    returns (buttons: seq<MemoryButton>, index: map<ResourceLocation, nat>)
    ensures |buttons| == |order|
    ensures forall i :: 0 <= i < |order| ==>
      buttons[i] == MemoryButton(order[i], IconFor(icons, order[i]),
                                 left - MEMORY_ICON_OFFSET, top + i * MEMORY_ICON_SPACING, order[i] == memoryId)
    ensures LastIndexMap(order, index)
    ensures HighlightsOnly(buttons, memoryId)
  {
    buttons, index := [], map[];
    var i := 0;
    while i < |order|
      invariant 0 <= i <= |order| && |buttons| == i
      invariant forall j :: 0 <= j < i ==>
        buttons[j] == MemoryButton(order[j], IconFor(icons, order[j]),
                                   left - MEMORY_ICON_OFFSET, top + j * MEMORY_ICON_SPACING, order[j] == memoryId)
      invariant LastIndexMap(order[..i], index)
    {
      var resloc := order[i];
      var icon := IconFor(icons, resloc);
      var button := MemoryButton(resloc, icon, left - MEMORY_ICON_OFFSET, top + i * MEMORY_ICON_SPACING, false);
      if memoryId == resloc {
        button := button.(highlighted := true);
      }
      buttons := buttons + [button];
      assert order[..i + 1] == order[..i] + [resloc];
      index := index[resloc := i];
      i := i + 1;
    }
    assert order[..|order|] == order;
  }

  function SetHighlight(buttons: seq<MemoryButton>, j: nat, on: bool): (r: seq<MemoryButton>)
    requires j < |buttons|
    ensures |r| == |buttons| && ButtonKeys(r) == ButtonKeys(buttons)
  {
    buttons[j := buttons[j].(highlighted := on)]
  }

  /** The click handler of button `i` AS WRITTEN: `buttons.get(memoryId)` is
      dereferenced first, so the handler throws (None) when the current
      memory has no button; otherwise the old button is unhighlighted and the
      clicked key's button highlighted. */
  function SelectAsWritten(buttons: seq<MemoryButton>, index: map<ResourceLocation, nat>,
                           memoryId: ResourceLocation, i: nat): (r: Option<seq<MemoryButton>>)
    requires i < |buttons| && LastIndexMap(ButtonKeys(buttons), index)
    ensures r.None? <==> memoryId !in ButtonKeys(buttons)
    ensures r.Some? ==> |r.value| == |buttons| && ButtonKeys(r.value) == ButtonKeys(buttons)
    ensures r.Some? ==> r.value[index[buttons[i].key]].highlighted
  {
    if memoryId !in index then None
    else
      var unlit := SetHighlight(buttons, index[memoryId], false);
      Some(SetHighlight(unlit, index[buttons[i].key], true))
  }

  /** The click handler of button `i`, with the unhighlighting skipped when
      the current memory has no button. */
  function SelectHighlights(buttons: seq<MemoryButton>, index: map<ResourceLocation, nat>,
                            memoryId: ResourceLocation, i: nat): (r: seq<MemoryButton>)
    requires i < |buttons| && LastIndexMap(ButtonKeys(buttons), index)
    ensures |r| == |buttons| && ButtonKeys(r) == ButtonKeys(buttons)
    ensures r[index[buttons[i].key]].highlighted
  {
    var unlit := if memoryId in index then SetHighlight(buttons, index[memoryId], false) else buttons;
    SetHighlight(unlit, index[buttons[i].key], true)
  }

  /** When the current memory has a button, the corrected handler does what the written one does. */
  lemma SelectAgreesWhenCurrentHasButton(buttons: seq<MemoryButton>, index: map<ResourceLocation, nat>,
                                         memoryId: ResourceLocation, i: nat)
    requires i < |buttons| && LastIndexMap(ButtonKeys(buttons), index)
    requires memoryId in ButtonKeys(buttons)
    ensures SelectAsWritten(buttons, index, memoryId, i) == Some(SelectHighlights(buttons, index, memoryId, i))
  {
  }

  /** If the current memory is not one of the memory keys (a dimension with
      nothing remembered yet), every memory button click throws as written. */
  lemma ClickThrowsWhenCurrentMemoryHasNoKey(icons: seq<MemoryIcon>, keys: seq<ResourceLocation>,
                                             buttons: seq<MemoryButton>, index: map<ResourceLocation, nat>,
                                             memoryId: ResourceLocation, i: nat)
    requires ButtonKeys(buttons) == KeyOrder(IconIds(icons), keys)
    requires LastIndexMap(ButtonKeys(buttons), index)
    requires memoryId !in keys && i < |buttons|
    ensures SelectAsWritten(buttons, index, memoryId, i) == None
  {
    KeyOrderProperties(IconIds(icons), keys);
  }

  /** The concrete case: memories exist only for the overworld and the
      player is in the nether. */
  lemma ClickInNetherWithOnlyOverworldMemoryThrows(buttons: seq<MemoryButton>, index: map<ResourceLocation, nat>)
    requires buttons == [MemoryButton(ResourceLocation("minecraft", "overworld"), StackOf(CRAFTING_TABLE), -24, 0, false)]
    requires index == map[ResourceLocation("minecraft", "overworld") := 0]
    ensures LastIndexMap(ButtonKeys(buttons), index)
    ensures SelectAsWritten(buttons, index, ResourceLocation("minecraft", "the_nether"), 0) == None
  {
    assert ButtonKeys(buttons) == [ResourceLocation("minecraft", "overworld")];
  }

  /** With one button per key, selecting a button leaves exactly the buttons
      of the newly selected memory highlighted. */
  lemma SelectKeepsSingleHighlight(buttons: seq<MemoryButton>, index: map<ResourceLocation, nat>,
                                   memoryId: ResourceLocation, i: nat)
    requires i < |buttons| && LastIndexMap(ButtonKeys(buttons), index)
    requires Distinct(ButtonKeys(buttons))
    requires HighlightsOnly(buttons, memoryId)
    ensures HighlightsOnly(SelectHighlights(buttons, index, memoryId, i), buttons[i].key)
  {
    var ks := ButtonKeys(buttons);
    var k := buttons[i].key;
    var unlit := if memoryId in index then SetHighlight(buttons, index[memoryId], false) else buttons;
    assert forall j :: 0 <= j < |unlit| ==> !unlit[j].highlighted by {
      forall j | 0 <= j < |unlit| ensures !unlit[j].highlighted {
        if buttons[j].key == memoryId {
          assert ks[j] == memoryId && memoryId in index;
          assert ks[index[memoryId]] == memoryId;
          assert j == index[memoryId];
        }
      }
    }
    assert ks[index[k]] == k && ks[i] == k;
    assert index[k] == i;
    var r := SetHighlight(unlit, index[k], true);
    forall j | 0 <= j < |r| ensures r[j].highlighted <==> r[j].key == k {
      if j != i { assert ks[j] != ks[i]; assert r[j] == unlit[j] && unlit[j].key == buttons[j].key; }
    }
  }

  // ---------------------------------------------------------------------
  // Remembered counts, sorted highest first

  /** Insert `e` before the first entry whose count does not exceed its own. */
  function InsertByCount(e: CountEntry, s: seq<CountEntry>): seq<CountEntry> {
    if s == [] then [e]
    else if s[0].count <= e.count then [e] + s
    else [s[0]] + InsertByCount(e, s[1..])
  }

  /** The comparator "count, reversed" applied as a stable sort. */
  function SortByCountDesc(s: seq<CountEntry>): (r: seq<CountEntry>)
    ensures |r| == |s| && multiset(r) == multiset(s)
  {
    if s == [] then []
    else
      var t := SortByCountDesc(s[1..]);
      InsertByCountShape(s[0], t);
      assert s == [s[0]] + s[1..];
      InsertByCount(s[0], t)
  }

  ghost predicate SortedByCountDesc(s: seq<CountEntry>) {
    forall i, j :: 0 <= i < j < |s| ==> s[i].count >= s[j].count
  }

  /** The entries with count `c`, in order. */
  function WithCount(s: seq<CountEntry>, c: int): seq<CountEntry> {
    if s == [] then [] else (if s[0].count == c then [s[0]] else []) + WithCount(s[1..], c)
  }

  lemma {:induction false} InsertByCountShape(e: CountEntry, s: seq<CountEntry>)
    ensures |InsertByCount(e, s)| == |s| + 1
    ensures InsertByCount(e, s)[0] == e || (s != [] && InsertByCount(e, s)[0] == s[0])
    ensures multiset(InsertByCount(e, s)) == multiset(s) + multiset{e}
  {
    if s != [] && s[0].count > e.count {
      InsertByCountShape(e, s[1..]);
      assert s == [s[0]] + s[1..];
    }
  }

  lemma {:induction false} InsertByCountSorted(e: CountEntry, s: seq<CountEntry>)
    requires SortedByCountDesc(s)
    ensures SortedByCountDesc(InsertByCount(e, s))
  {
    if s != [] && s[0].count > e.count {
      var t := InsertByCount(e, s[1..]);
      InsertByCountSorted(e, s[1..]);
      InsertByCountShape(e, s[1..]);
      assert t[0].count <= s[0].count by {
        if t[0] != e { assert t[0] == s[1]; }
      }
      var r := [s[0]] + t;
      assert InsertByCount(e, s) == r;
      forall a, b | 0 <= a < b < |r| ensures r[a].count >= r[b].count {
        if a > 0 { assert r[a] == t[a - 1] && r[b] == t[b - 1]; }
        else { assert r[b] == t[b - 1] && t[0].count >= t[b - 1].count; }
      }
    }
  }

  lemma {:induction false} InsertByCountWithCount(e: CountEntry, s: seq<CountEntry>, c: int)
    ensures WithCount(InsertByCount(e, s), c) == if e.count == c then [e] + WithCount(s, c) else WithCount(s, c)
  {
    if s == [] {
      assert WithCount([e], c) == (if e.count == c then [e] else []) + WithCount([], c);
    } else if s[0].count <= e.count {
      assert ([e] + s)[1..] == s;
    } else {
      var t := InsertByCount(e, s[1..]);
      InsertByCountWithCount(e, s[1..], c);
      assert ([s[0]] + t)[1..] == t;
    }
  }

  /** The sort puts the highest counts first, keeps every entry, and keeps
      entries with equal counts in their original relative order. */
  lemma {:induction false} SortByCountDescCorrect(s: seq<CountEntry>)
    ensures SortedByCountDesc(SortByCountDesc(s))
    ensures multiset(SortByCountDesc(s)) == multiset(s)
    ensures |SortByCountDesc(s)| == |s|
    ensures forall c :: WithCount(SortByCountDesc(s), c) == WithCount(s, c)
  {
    if s != [] {
      var t := SortByCountDesc(s[1..]);
      SortByCountDescCorrect(s[1..]);
      assert s == [s[0]] + s[1..];
      forall c ensures WithCount(SortByCountDesc(s), c) == WithCount(s, c) {
        InsertByCountWithCount(s[0], t, c);
      }
      InsertByCountSorted(s[0], t);
      InsertByCountShape(s[0], t);
    }
  }

  /** updateItems' mapping: a full stack per entry, with the tallied count. */
  function ToItemStacks(s: seq<CountEntry>): (r: seq<ItemStack>)
    ensures |r| == |s|
    ensures forall i :: 0 <= i < |s| ==> r[i] == ItemStack(s[i].stack.item, s[i].stack.tag, s[i].count)
  {
    seq(|s|, i requires 0 <= i < |s| => ItemStack(s[i].stack.item, s[i].stack.tag, s[i].count))
  }

  /** The `items` list updateItems builds from a memory's counts. */
  function SortedStacks(counts: seq<CountEntry>): (items: seq<ItemStack>)
    ensures |items| == |counts|
    ensures forall i, j :: 0 <= i < j < |items| ==> items[i].count >= items[j].count
  {
    SortByCountDescCorrect(counts);
    ToItemStacks(SortByCountDesc(counts))
  }

  /** updateItems' items are ordered by count from highest to lowest, there
      is one for each count entry, and each carries its entry's item, tag
      and count. */
  lemma SortedStacksHighestFirst(counts: seq<CountEntry>)
    ensures |SortedStacks(counts)| == |counts|
    ensures forall i, j :: 0 <= i < j < |counts| ==> SortedStacks(counts)[i].count >= SortedStacks(counts)[j].count
    ensures multiset(SortByCountDesc(counts)) == multiset(counts)
    ensures forall i :: 0 <= i < |counts| ==>
      var e := SortByCountDesc(counts)[i]; SortedStacks(counts)[i] == ItemStack(e.stack.item, e.stack.tag, e.count)
  {
    SortByCountDescCorrect(counts);
  }

  /** Scenario: counts A:5, B:12, C:5 in that order give B, A, C. */
  lemma TiesKeepInsertionOrder(a: CountEntry, b: CountEntry, c: CountEntry)
    requires a.count == 5 && b.count == 12 && c.count == 5
    ensures SortByCountDesc([a, b, c]) == [b, a, c]
  {
    var s := [a, b, c];
    assert s[1..] == [b, c] && s[1..][1..] == [c];
    assert SortByCountDesc([c]) == [c] by { assert [c][1..] == []; }
    assert SortByCountDesc([b, c]) == InsertByCount(b, [c]) == [b, c];
    assert InsertByCount(a, [b, c]) == [b] + InsertByCount(a, [c]) by { assert [b, c][1..] == [c]; }
    assert InsertByCount(a, [c]) == [a, c];
  }

  // ---------------------------------------------------------------------
  // Layout

  /** The live grid size, the menu size and the menu's top-left corner. */
  datatype Layout = Layout(gridWidth: int, gridHeight: int, menuWidth: int, menuHeight: int, left: int, top: int)

  /** What init promises of the layout for a `width` x `height` window:
      along each axis the live grid is the largest size up to the configured
      one whose menu fits, but never below the minimum (a configured size at
      or below the minimum is kept as it is), and the menu is centred with
      Java's integer division. */
  ghost predicate FitsWindow(l: Layout, width: int, height: int, config: GuiConfig, sizes: SizeConstants) {
    && l.gridWidth <= config.gridWidth && l.gridHeight <= config.gridHeight
    && (config.gridWidth > sizes.minGridWidth ==> l.gridWidth >= sizes.minGridWidth)
    && (config.gridWidth <= sizes.minGridWidth ==> l.gridWidth == config.gridWidth)
    && (config.gridHeight > sizes.minGridHeight ==> l.gridHeight >= sizes.minGridHeight)
    && (config.gridHeight <= sizes.minGridHeight ==> l.gridHeight == config.gridHeight)
    && l.menuWidth == MenuSize(SMALL_MENU_WIDTH, SMALL_GRID_WIDTH, sizes.slotSize, l.gridWidth)
    && l.menuHeight == MenuSize(SMALL_MENU_HEIGHT, SMALL_GRID_HEIGHT, sizes.slotSize, l.gridHeight)
    && (l.menuWidth <= width || l.gridWidth <= sizes.minGridWidth)
    && (l.menuHeight <= height || l.gridHeight <= sizes.minGridHeight)
    && (forall v :: l.gridWidth < v <= config.gridWidth ==>
          MenuSize(SMALL_MENU_WIDTH, SMALL_GRID_WIDTH, sizes.slotSize, v) > width)
    && (forall v :: l.gridHeight < v <= config.gridHeight ==>
          MenuSize(SMALL_MENU_HEIGHT, SMALL_GRID_HEIGHT, sizes.slotSize, v) > height)
    && l.left == JavaDiv(width - l.menuWidth, 2)
    && l.top == JavaDiv(height - l.menuHeight, 2)
  }

  /** The first part of init: both shrink loops, then the centring. */
  method ComputeLayout(width: int, height: int, config: GuiConfig, sizes: SizeConstants) returns (l: Layout)
    ensures FitsWindow(l, width, height, config, sizes)
  {
    var w, mw := ShrinkToFit(config.gridWidth, width, SMALL_MENU_WIDTH, SMALL_GRID_WIDTH, sizes.slotSize, sizes.minGridWidth);
    var h, mh := ShrinkToFit(config.gridHeight, height, SMALL_MENU_HEIGHT, SMALL_GRID_HEIGHT, sizes.slotSize, sizes.minGridHeight);
    var left := JavaDiv(width - mw, 2);
    var top := JavaDiv(height - mh, 2);
    l := Layout(w, h, mw, mh, left, top);
  }

  /** A menu that fits the window lies inside it, with the left and right
      (top and bottom) margins differing by at most one pixel. */
  lemma FittingMenuIsCentred(l: Layout, width: int, height: int, config: GuiConfig, sizes: SizeConstants)
    requires FitsWindow(l, width, height, config, sizes)
    ensures l.menuWidth <= width ==>
      0 <= l.left && l.left <= width - (l.left + l.menuWidth) <= l.left + 1
    ensures l.menuHeight <= height ==>
      0 <= l.top && l.top <= height - (l.top + l.menuHeight) <= l.top + 1
  {
  }

  /** Button `i` is the button of key `order[i]`: its icon, its place down
      the left edge of the menu, and its highlight when it is the current memory. */
  ghost predicate ButtonsPlaced(buttons: seq<MemoryButton>, order: seq<ResourceLocation>, icons: seq<MemoryIcon>,
                                left: int, top: int, memoryId: ResourceLocation) {
    && ButtonKeys(buttons) == order
    && forall i :: 0 <= i < |order| ==>
         buttons[i] == MemoryButton(order[i], IconFor(icons, order[i]),
                                    left - MEMORY_ICON_OFFSET, top + i * MEMORY_ICON_SPACING, order[i] == memoryId)
  }

  /** The memory buttons of init: keys ordered, then one button per key. */
  method MemoryButtons(config: GuiConfig, memory: ItemMemory, left: int, top: int, memoryId: ResourceLocation)
    returns (buttons: seq<MemoryButton>, index: map<ResourceLocation, nat>)
    ensures ButtonsPlaced(buttons, KeyOrder(IconIds(config.memoryIcons), memory.keys), config.memoryIcons, left, top, memoryId)
    ensures LastIndexMap(ButtonKeys(buttons), index)
    ensures HighlightsOnly(buttons, memoryId)
  {
    var todo := OrderKeys(config.memoryIcons, memory.keys);
    buttons, index := BuildButtons(todo, config.memoryIcons, left, top, memoryId);
    assert ButtonKeys(buttons) == todo;
  }

  // ---------------------------------------------------------------------
  // The screen

  class ChestTrackerScreen {
    const sizes: SizeConstants
    /** SearchablesUtil.ITEM_STACK.filterEntries, an external search library. */
    const filterEntries: (seq<ItemStack>, string) -> seq<ItemStack>
    var width: int
    var height: int
    var config: GuiConfig
    var memory: Option<ItemMemory>
    var layout: Layout
    var memoryId: ResourceLocation
    var buttons: seq<MemoryButton>
    var buttonIndex: map<ResourceLocation, nat>
    var items: seq<ItemStack>
    /** The items handed to the item list widget. */
    var shownItems: seq<ItemStack>
    /** The scroll bar's disabled flag; None until `filter` first sets it. */
    var scrollDisabled: Option<bool>
    /** The search box's text, which survives a rebuild of the widgets. */
    var searchValue: string

    ghost predicate Valid()
      reads this`buttons, this`buttonIndex
    {
      LastIndexMap(ButtonKeys(buttons), buttonIndex)
    }

    /** Everything except the item lists and the scroll flag. */
    ghost function Settings(): (int, int, GuiConfig, Option<ItemMemory>, Layout, ResourceLocation, string, seq<MemoryButton>, map<ResourceLocation, nat>)
      reads this
    {
      (width, height, config, memory, layout, memoryId, searchValue, buttons, buttonIndex)
    }

    /** The screen opens on the current dimension's memory, or on
        "chesttracker:unknown" when there is no level. */
    constructor (level: Option<ResourceLocation>, sizes: SizeConstants,
                 filterEntries: (seq<ItemStack>, string) -> seq<ItemStack>)
      ensures Valid()
      ensures memoryId == if level.Some? then level.value else UNKNOWN_MEMORY
      ensures this.sizes == sizes && this.filterEntries == filterEntries
      ensures items == [] && shownItems == [] && buttons == [] && searchValue == "" && scrollDisabled == None
      ensures memory == None
    {
      this.sizes := sizes;
      this.filterEntries := filterEntries;
      memoryId := if level.Some? then level.value else UNKNOWN_MEMORY;
      items, shownItems, buttons, buttonIndex := [], [], [], map[];
      searchValue, scrollDisabled, memory := "", None, None;
      config := GuiConfig(0, 0, []);
      width, height, layout := 0, 0, Layout(0, 0, 0, 0, 0, 0);
    }

    /** filter(query): the items matching the lower-cased query go to the
        item list; scrolling is disabled iff they fit the configured grid
        (not the live one). */
    method Filter(query: string)
      requires Valid()
      modifies this
      ensures Valid()
      ensures shownItems == filterEntries(items, Lower(query))
      ensures scrollDisabled == Some(|shownItems| <= config.gridWidth * config.gridHeight)
      ensures items == old(items) && Settings() == old(Settings())
    {
      var filtered := filterEntries(items, Lower(query));
      shownItems := filtered;
      scrollDisabled := Some(|filtered| <= config.gridWidth * config.gridHeight);
    }

    /** The search box responder: the text changed to `s`. */
    method SearchChanged(s: string)
      requires Valid()
      modifies this
      ensures Valid()
      ensures searchValue == s
      ensures shownItems == filterEntries(items, Lower(s))
      ensures scrollDisabled == Some(|shownItems| <= config.gridWidth * config.gridHeight)
      ensures items == old(items) && buttons == old(buttons) && buttonIndex == old(buttonIndex)
      ensures memoryId == old(memoryId) && memory == old(memory) && config == old(config)
      ensures layout == old(layout) && width == old(width) && height == old(height)
    {
      searchValue := s;
      Filter(s);
    }

    /** updateItems: nothing without a memory; otherwise the selected
        memory's counts, highest first, become the items, which are then
        filtered by the search text. */
    method UpdateItems()
      requires Valid()
      modifies this
      ensures Valid()
      ensures memory.None? ==> unchanged(this)
      ensures memory.Some? ==> items == SortedStacks(memory.value.counts(memoryId))
      ensures memory.Some? ==> shownItems == filterEntries(items, Lower(searchValue))
      ensures memory.Some? ==> scrollDisabled == Some(|shownItems| <= config.gridWidth * config.gridHeight)
      ensures Settings() == old(Settings())
    {
      if memory.None? {
        return;
      }
      var counts := memory.value.counts(memoryId);
      items := SortedStacks(counts);
      Filter(searchValue);
    }

    /** The first part of init for a window of `w` x `h`: shrink the grid
        to fit, centre the menu, and re-run the filter as the search box is
        rebuilt. */
    method Relayout(w: int, h: int, cfg: GuiConfig, mem: Option<ItemMemory>)
      requires Valid()
      modifies this
      ensures Valid()
      ensures width == w && height == h && config == cfg && memory == mem
      ensures FitsWindow(layout, w, h, cfg, sizes)
      ensures memoryId == old(memoryId) && searchValue == old(searchValue) && items == old(items)
      ensures buttons == old(buttons) && buttonIndex == old(buttonIndex)
      ensures shownItems == filterEntries(items, Lower(searchValue))
      ensures scrollDisabled == Some(|shownItems| <= cfg.gridWidth * cfg.gridHeight)
    {
      var l := ComputeLayout(w, h, cfg, sizes);
      width, height, config, memory, layout := w, h, cfg, mem, l;
      // the rebuilt search box re-sends its text to `filter`
      Filter(searchValue);
    }

    /** init for a window of `w` x `h`: the layout and filter of Relayout,
        then the memory buttons, then the items. */
    method Init(w: int, h: int, cfg: GuiConfig, mem: Option<ItemMemory>)
      requires Valid()
      modifies this
      ensures Valid()
      ensures width == w && height == h && config == cfg && memory == mem
      ensures FitsWindow(layout, w, h, cfg, sizes)
      ensures memoryId == old(memoryId) && searchValue == old(searchValue)
      ensures mem.None? ==> buttons == [] && items == old(items)
      ensures mem.Some? ==>
        ButtonsPlaced(buttons, KeyOrder(IconIds(cfg.memoryIcons), mem.value.keys), cfg.memoryIcons,
                      layout.left, layout.top, memoryId)
      ensures mem.Some? ==> items == SortedStacks(mem.value.counts(memoryId))
      ensures HighlightsOnly(buttons, memoryId)
      ensures shownItems == filterEntries(items, Lower(searchValue))
      ensures scrollDisabled == Some(|shownItems| <= cfg.gridWidth * cfg.gridHeight)
    {
      Relayout(w, h, cfg, mem);
      var newButtons: seq<MemoryButton>, newIndex: map<ResourceLocation, nat> := [], map[];
      if mem.Some? {
        newButtons, newIndex := MemoryButtons(cfg, mem.value, layout.left, layout.top, memoryId);
      }
      buttons, buttonIndex := newButtons, newIndex;
      UpdateItems();
    }

    /** The click handler of memory button `i`: the previous selection's
        button is unhighlighted (when there is one), the clicked key becomes
        the memory, the items are reloaded, and the clicked key's button is
        highlighted. */
    method SelectMemory(i: nat)
      requires Valid() && i < |buttons|
      modifies this
      ensures Valid()
      ensures memoryId == old(buttons[i].key)
      ensures buttons == SelectHighlights(old(buttons), old(buttonIndex), old(memoryId), i)
      ensures Distinct(ButtonKeys(old(buttons))) && HighlightsOnly(old(buttons), old(memoryId)) ==>
        HighlightsOnly(buttons, memoryId)
      ensures buttonIndex == old(buttonIndex) && memory == old(memory) && config == old(config)
      ensures layout == old(layout) && searchValue == old(searchValue)
      ensures width == old(width) && height == old(height)
      ensures memory.Some? ==> items == SortedStacks(memory.value.counts(memoryId))
      ensures memory.Some? ==> shownItems == filterEntries(items, Lower(searchValue))
      ensures memory.Some? ==> scrollDisabled == Some(|shownItems| <= config.gridWidth * config.gridHeight)
      ensures memory.None? ==> items == old(items) && shownItems == old(shownItems)
      ensures memory.None? ==> scrollDisabled == old(scrollDisabled)
    {
      var resloc := buttons[i].key;
      if Distinct(ButtonKeys(buttons)) && HighlightsOnly(buttons, memoryId) {
        SelectKeepsSingleHighlight(buttons, buttonIndex, memoryId, i);
      }
      // updateItems reads neither the buttons nor their highlight flags, so
      // the unhighlighting that precedes it is applied together with the
      // highlighting that follows it.
      var lit := SelectHighlights(buttons, buttonIndex, memoryId, i);
      memoryId := resloc;
      UpdateItems();
      buttons := lit;
    }
  }
}
