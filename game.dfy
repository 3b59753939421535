/** Host values shared by the ChestTracker model: game items and stacks,
    resource locations, an optional value, and the two pieces of Java
    arithmetic and string behaviour the core relies on. */
module Game {

  datatype Option<+T> = None | Some(value: T)

  /** Minecraft's ResourceLocation, "namespace:path"; equality is on both parts. */
  datatype ResourceLocation = ResourceLocation(namespace: string, path: string)

  /** An item type from the item registry, identified by its registry id. */
  datatype Item = Item(id: string)

  // Registry items the core refers to by name (Minecraft's Items class).
  const AIR := Item("minecraft:air")
  const CRAFTING_TABLE := Item("minecraft:crafting_table")
  const GRASS_BLOCK := Item("minecraft:grass_block")
  const NETHERRACK := Item("minecraft:netherrack")
  const END_STONE := Item("minecraft:end_stone")
  const CHEST := Item("minecraft:chest")
  const ENDER_CHEST := Item("minecraft:ender_chest")
  const OAK_SAPLING := Item("minecraft:oak_sapling")
  const RED_BED := Item("minecraft:red_bed")
  const DIAMOND_ORE := Item("minecraft:diamond_ore")
  const GLOWSTONE := Item("minecraft:glowstone")
  const NETHER_STAR := Item("minecraft:nether_star")
  const STONE := Item("minecraft:stone")
  const GOLD_BLOCK := Item("minecraft:gold_block")

  /** Structured tag data carried by a stack; its contents are not interpreted here. */
  datatype Tag = Tag(text: string)

  /** An item stack: item, optional tag and count. */
  datatype ItemStack = ItemStack(item: Item, tag: Option<Tag>, count: int)

  /** `new ItemStack(item)`: a single item with no tag. */
  function StackOf(item: Item): (s: ItemStack)
    ensures s.item == item && s.tag == None && s.count == 1
  {
    ItemStack(item, None, 1)
  }

  /** Java's `int` division, which truncates toward zero (Dafny's `/` is Euclidean). */
  function JavaDiv(a: int, b: int): (q: int)
    requires b > 0
    ensures a >= 0 ==> q >= 0 && q * b <= a < q * b + b
    ensures a < 0 ==> q <= 0 && q * b - b < a <= q * b
  {
    if a >= 0 then a / b else -((-a) / b)
  }

  /** Lower-casing of one character (ASCII letters only). */
  function LowerChar(c: char): (d: char)
    ensures 'A' <= c <= 'Z' ==> 'a' <= d <= 'z' && d as int - c as int == 32
    ensures !('A' <= c <= 'Z') ==> d == c
  {
    if 'A' <= c <= 'Z' then (c as int + 32) as char else c
  }

  /** `String.toLowerCase()` restricted to ASCII letters. */
  function Lower(s: string): (r: string)
    ensures |r| == |s|
    ensures forall i :: 0 <= i < |s| ==> r[i] == LowerChar(s[i])
  {
    if s == [] then [] else [LowerChar(s[0])] + Lower(s[1..])
  }

  lemma {:induction false} LowerIdempotent(s: string)
    ensures Lower(Lower(s)) == Lower(s)
    ensures forall i :: 0 <= i < |s| ==> !('A' <= Lower(s)[i] <= 'Z')
  {
    var l := Lower(s);
    assert forall i :: 0 <= i < |s| ==> Lower(l)[i] == l[i];
  }

  /** No element occurs twice. */
  predicate Distinct<T(==)>(s: seq<T>) {
    forall i, j :: 0 <= i < j < |s| ==> s[i] != s[j]
  }

  /** The elements of `s` in order, each at its first occurrence, leaving out
      those in `seen`: the key order of a LinkedHashMap filled from `s` by
      insertions that keep an existing entry. */
  function FirstOccurrences<T(==)>(s: seq<T>, seen: set<T>): seq<T> {
    if s == [] then []
    else
      var init, last := s[..|s| - 1], s[|s| - 1];
      FirstOccurrences(init, seen) + (if last in seen || last in init then [] else [last])
  }

  lemma {:induction false} FirstOccurrencesMembers<T>(s: seq<T>, seen: set<T>)
    ensures forall k :: k in FirstOccurrences(s, seen) <==> k in s && k !in seen
    ensures Distinct(FirstOccurrences(s, seen))
  {
    if s != [] {
      var init := s[..|s| - 1];
      FirstOccurrencesMembers(init, seen);
      assert s == init + [s[|s| - 1]];
    }
  }
}
