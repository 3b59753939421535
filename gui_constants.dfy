/** GuiConstants: the layout and timing constants shared by the screens, and
    the default icon order offered when choosing an icon for a memory key. */
module GuiConstants {
  import opened Game

  const UTIL_GUI_WIDTH := 320
  const UTIL_GUI_HEIGHT := 240
  const MARGIN := 8
  const SMALL_MARGIN := 5
  const GRID_SLOT_SIZE := 18
  const MIN_GRID_COLUMNS := 9
  const MAX_GRID_WIDTH := 18
  const MIN_GRID_ROWS := 6
  const MAX_GRID_HEIGHT := 12

  /** How long (in ticks) the two confirmation buttons must be held. */
  const ARE_YOU_SURE_BUTTON_HOLD_TIME := 20
  const ARE_YOU_REALLY_SURE_BUTTON_HOLD_TIME := 30

  const UNKNOWN_ICON := StackOf(CRAFTING_TABLE)

  /** The items that open the default icon order, in this order. */
  const PRIORITY: seq<Item> := [
    CRAFTING_TABLE, GRASS_BLOCK, NETHERRACK, END_STONE,
    CHEST, ENDER_CHEST, OAK_SAPLING, RED_BED,
    DIAMOND_ORE, GLOWSTONE, NETHER_STAR, STONE, GOLD_BLOCK
  ]

  /** The grid can grow from its minimum to its maximum on both axes, and
      the second confirmation takes longer than the first. */
  lemma ConstantsConsistent()
    ensures 0 < MIN_GRID_COLUMNS <= MAX_GRID_WIDTH && 0 < MIN_GRID_ROWS <= MAX_GRID_HEIGHT
    ensures 0 < ARE_YOU_SURE_BUTTON_HOLD_TIME < ARE_YOU_REALLY_SURE_BUTTON_HOLD_TIME
    ensures UNKNOWN_ICON.item == CRAFTING_TABLE && UNKNOWN_ICON.count == 1
  {
  }

  lemma PriorityDistinct()
    ensures |PRIORITY| == 13 && Distinct(PRIORITY) && AIR !in PRIORITY
  {
  }

  /** The registry items the stream filter lets through: those not already in
      `present` and other than AIR, in registry order. */
  function Filtered(registry: seq<Item>, present: seq<Item>): (r: seq<Item>)
    ensures forall it :: it in r <==> it in registry && it !in present && it != AIR
    ensures |r| <= |registry|
  {
    if registry == [] then []
    else
      var init, last := registry[..|registry| - 1], registry[|registry| - 1];
      assert registry == init + [last];
      Filtered(init, present) + (if last !in present && last != AIR then [last] else [])
  }

  /** The key order of the default icon map for a given item registry: the
      priority items first, in their listed order, then other items, each
      once and none of them AIR. */
  function DefaultIconOrder(registry: seq<Item>): (order: seq<Item>)
    ensures |order| >= |PRIORITY| && order[..|PRIORITY|] == PRIORITY
    ensures AIR !in order && Distinct(order)
  {
    var extra := Filtered(registry, PRIORITY);
    PriorityDistinct();
    FirstOccurrencesAppend(PRIORITY, extra, {});
    FirstOccurrencesOfDistinct(PRIORITY, {});
    FirstOccurrencesMembers(PRIORITY + extra, {});
    FirstOccurrences(PRIORITY + extra, {})
  }

  /** Deduplicating a sequence that is already free of repeats and of `seen`
      changes nothing. */
  lemma {:induction false} FirstOccurrencesOfDistinct<T>(s: seq<T>, seen: set<T>)
    requires Distinct(s)
    requires forall k :: k in s ==> k !in seen
    ensures FirstOccurrences(s, seen) == s
  {
    if s != [] {
      var init, last := s[..|s| - 1], s[|s| - 1];
      assert Distinct(init) by {
        forall i, j | 0 <= i < j < |init| ensures init[i] != init[j] {
          assert init[i] == s[i] && init[j] == s[j];
        }
      }
      assert last !in init;
      FirstOccurrencesOfDistinct(init, seen);
      assert s == init + [last];
    }
  }

  /** Deduplicating a concatenation: the deduplicated head, then the tail's
      first occurrences of everything the head did not already hold. */
  lemma {:induction false} FirstOccurrencesAppend<T>(a: seq<T>, b: seq<T>, seen: set<T>)
    ensures FirstOccurrences(a + b, seen) == FirstOccurrences(a, seen) + FirstOccurrences(b, seen + set k | k in a)
  {
    if b != [] {
      var init, last := b[..|b| - 1], b[|b| - 1];
      FirstOccurrencesAppend(a, init, seen);
      assert (a + b)[..|a + b| - 1] == a + init;
      assert (a + b)[|a + b| - 1] == last;
      assert last in a + init <==> last in a || last in init;
    } else {
      assert a + b == a;
    }
  }

  /** The default icon order begins with the 13 priority items in their
      listed order, never holds AIR, holds each item once, and holds
      exactly the priority items and the registry's other items; with a
      registry free of repeats it is the priority list followed by the rest
      of the registry in registry order. */
  lemma DefaultIconOrderProperties(registry: seq<Item>)
    ensures |DefaultIconOrder(registry)| >= 13 && DefaultIconOrder(registry)[..13] == PRIORITY
    ensures AIR !in DefaultIconOrder(registry)
    ensures Distinct(DefaultIconOrder(registry))
    ensures forall it :: it in DefaultIconOrder(registry) <==> it in PRIORITY || (it in registry && it != AIR)
    ensures Distinct(registry) ==> DefaultIconOrder(registry) == PRIORITY + Filtered(registry, PRIORITY)
  {
    PriorityDistinct();
    var extra := Filtered(registry, PRIORITY);
    FirstOccurrencesAppend(PRIORITY, extra, {});
    FirstOccurrencesOfDistinct(PRIORITY, {});
    var seen := {} + set k | k in PRIORITY;
    assert DefaultIconOrder(registry) == PRIORITY + FirstOccurrences(extra, seen);
    FirstOccurrencesMembers(PRIORITY + extra, {});
    if Distinct(registry) {
      assert Distinct(extra) by { FilteredDistinct(registry, PRIORITY); }
      FirstOccurrencesOfDistinct(extra, seen);
    }
  }

  lemma {:induction false} FilteredDistinct(registry: seq<Item>, present: seq<Item>)
    requires Distinct(registry)
    ensures Distinct(Filtered(registry, present))
  {
    if registry != [] {
      var init, last := registry[..|registry| - 1], registry[|registry| - 1];
      assert Distinct(init) by {
        forall i, j | 0 <= i < j < |init| ensures init[i] != init[j] {
          assert init[i] == registry[i] && init[j] == registry[j];
        }
      }
      assert last !in init;
      FilteredDistinct(init, present);
    }
  }

  /** The collect step: an insertion-ordered map from each item of `list`
      to a single stack of it, the first occurrence of a repeated item
      winning. `order` is the map's iteration order. */
  method CollectFirstWins(list: seq<Item>) returns (order: seq<Item>, icons: map<Item, ItemStack>)
    ensures order == FirstOccurrences(list, {})
    ensures forall it :: it in icons <==> it in order
    ensures forall it :: it in icons ==> icons[it] == StackOf(it)
  {
    order, icons := [], map[];
    for i := 0 to |list|
      invariant order == FirstOccurrences(list[..i], {})
      invariant forall it :: it in icons <==> it in order
      invariant forall it :: it in icons ==> icons[it] == StackOf(it)
    {
      var item := list[i];
      FirstOccurrencesMembers(list[..i], {});
      assert list[..i + 1][..i] == list[..i];
      if item !in icons {
        order, icons := order + [item], icons[item := StackOf(item)];
      }
    }
    assert list[..|list|] == list;
  }

  /** makeItemListOrder: the priority list, then the registry items the
      filter lets through, collected first-wins into the icon map. */
  method MakeItemListOrder(registry: seq<Item>) returns (order: seq<Item>, icons: map<Item, ItemStack>)
    ensures order == DefaultIconOrder(registry)
    ensures forall it :: it in icons <==> it in order
    ensures forall it :: it in icons ==> icons[it] == StackOf(it)
  {
    var list: seq<Item> := [];
    list := list + PRIORITY;
    assert list == PRIORITY;
    // The filter is evaluated in full before the second addAll, so it sees
    // only the priority items.
    var extra := Filtered(registry, list);
    list := list + extra;
    order, icons := CollectFirstWins(list);
  }
}
