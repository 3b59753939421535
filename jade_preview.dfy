/** The memory preview that ChestTracker adds to Jade's block tooltip: unless
    Jade already shows the block's contents, the remembered stacks of the
    looked-at block are laid out in lines of a configured width, with a line
    margin between consecutive lines, followed by the memory's name and an
    optional brand line. */
module JadePreviews {
  import opened Game

  /** The NBT type of a server-data entry; only "is a list" matters here. */
  datatype TagKind = ListTag | OtherTag

  /** The Jade plugin options this provider reads. */
  datatype PluginConfig = PluginConfig(
    universalItemStorage: bool,
    mcFurnace: bool,
    detailedAmount: int,
    normalAmount: int,
    itemsPerLine: int,
    showText: bool)

  /** What the provider reads from Jade's block accessor. */
  datatype Accessor = Accessor(serverData: map<string, TagKind>, isFurnaceBlock: bool, showDetails: bool)

  /** A memory at the looked-at position: its stacks, already flattened
      (ItemStacks.flattenStacks is not part of this model), and its name. */
  datatype Memory = Memory(stacks: seq<ItemStack>, renderName: Option<string>)

  /** MemoryBankAccess.getLoaded(), and the memory at the block when a bank is loaded. */
  datatype LoadedBank = NoBankLoaded | BankLoaded(memoryAtBlock: Option<Memory>)

  /** The calls made on the tooltip, in order. */
  datatype TooltipOp =
    | AddLine(items: seq<ItemStack>)
    | SetLineMargin
    | ReplaceObjectName(name: string)
    | AddBrandLine

  /** The provider's outcome: the calls it made, or the exception thrown by
      `new ArrayList<>(perLine)` when the configured line width is negative. */
  datatype Outcome = Appended(ops: seq<TooltipOp>) | IllegalCapacity

  /** The early returns: Jade's own storage view handles the block, or Jade's
      furnace view has the furnace's contents. Jade only takes over when the
      server sent its own data for the block, and never when both of its
      options are off. */
  function HandledByJade(config: PluginConfig, accessor: Accessor): (handled: bool)
    ensures handled ==> "JadeItemStorage" in accessor.serverData || "furnace" in accessor.serverData
    ensures !config.universalItemStorage && !config.mcFurnace ==> !handled
  {
    || (config.universalItemStorage && "JadeItemStorage" in accessor.serverData)
    || (config.mcFurnace && accessor.isFurnaceBlock
        && "furnace" in accessor.serverData && accessor.serverData["furnace"] == ListTag)
  }

  /** How many stacks the loop `i < max && i < n` visits: every index below
      the count passes the loop test, and the count itself fails it. */
  function ShownCount(max: int, n: nat): (c: nat)
    ensures c <= n && (c == 0 || c <= max)
    ensures c == n || c >= max
  {
    if max <= 0 then 0 else Min(max, n)
  }

  function Min(a: int, b: int): int { if a <= b then a else b }

  // ---------------------------------------------------------------------
  // Lines of items

  function Flatten(lines: seq<seq<ItemStack>>): seq<ItemStack> {
    if lines == [] then [] else lines[0] + Flatten(lines[1..])
  }

  lemma {:induction false} FlattenAppend(lines: seq<seq<ItemStack>>, line: seq<ItemStack>)
    ensures Flatten(lines + [line]) == Flatten(lines) + line
  {
    if lines != [] {
      assert (lines + [line])[1..] == lines[1..] + [line];
      FlattenAppend(lines[1..], line);
    } else {
      assert Flatten([line]) == line + Flatten([]);
    }
  }

  lemma {:induction false} FlattenLength(lines: seq<seq<ItemStack>>)
    requires lines != []
    ensures |Flatten(lines)| >= |lines[0]|
  {
  }

  /** The line split: lines of `perLine` stacks, the last one possibly
      shorter; with a width of zero no line is ever full, so everything goes
      on one line. */
  function Chunks(s: seq<ItemStack>, perLine: nat): (lines: seq<seq<ItemStack>>)
    ensures Flatten(lines) == s
    ensures forall k :: 0 <= k < |lines| ==> lines[k] != []
    decreases |s|
  {
    if s == [] then []
    else if perLine == 0 || |s| <= perLine then [s]
    else [s[..perLine]] + Chunks(s[perLine..], perLine)
  }

  /** What the chunking loop promises of its lines. */
  ghost predicate IsChunking(lines: seq<seq<ItemStack>>, s: seq<ItemStack>, perLine: nat) {
    && Flatten(lines) == s
    && (forall k :: 0 <= k < |lines| ==> lines[k] != [])
    && (forall k :: 0 <= k < |lines| - 1 ==> |lines[k]| == perLine)
    && (perLine > 0 ==> forall k :: 0 <= k < |lines| ==> |lines[k]| <= perLine)
    && (perLine == 0 ==> |lines| <= 1)
  }

  /** The split concatenates back to its input, no line is empty, all lines
      but the last hold exactly `perLine` stacks and none holds more. */
  lemma {:induction false} ChunksIsChunking(s: seq<ItemStack>, perLine: nat)
    ensures IsChunking(Chunks(s, perLine), s, perLine)
    decreases |s|
  {
    if s == [] {
    } else if perLine == 0 || |s| <= perLine {
      assert Flatten([s]) == s + Flatten([]);
    } else {
      var rest := Chunks(s[perLine..], perLine);
      ChunksIsChunking(s[perLine..], perLine);
      var lines := [s[..perLine]] + rest;
      assert lines[1..] == rest;
      assert Flatten(lines) == s[..perLine] + s[perLine..] == s;
      forall k | 0 <= k < |lines| ensures lines[k] != [] && |lines[k]| <= perLine {
        if k > 0 { assert lines[k] == rest[k - 1]; }
      }
      forall k | 0 <= k < |lines| - 1 ensures |lines[k]| == perLine {
        if k > 0 { assert lines[k] == rest[k - 1]; }
      }
    }
  }

  /** Those properties pin the lines down: any split with them is Chunks. */
  lemma {:induction false} ChunkingUnique(lines: seq<seq<ItemStack>>, s: seq<ItemStack>, perLine: nat)
    requires IsChunking(lines, s, perLine)
    ensures lines == Chunks(s, perLine)
    decreases |lines|
  {
    if lines == [] {
    } else if |lines| == 1 {
      assert lines[1..] == [];
      assert Flatten(lines) == lines[0] + Flatten([]);
      assert s == lines[0] && s != [];
    } else {
      var rest := lines[1..];
      assert perLine > 0 && |lines[0]| == perLine;
      assert s == lines[0] + Flatten(rest);
      assert rest[0] == lines[1] && rest[0] != [];
      FlattenLength(rest);
      assert |s| > perLine;
      assert s[..perLine] == lines[0] && s[perLine..] == Flatten(rest);
      forall k | 0 <= k < |rest| ensures rest[k] == lines[k + 1] { }
      assert IsChunking(rest, s[perLine..], perLine);
      ChunkingUnique(rest, s[perLine..], perLine);
    }
  }

  /** The chunking loop of appendTooltip: each visited stack is added to the current
      line, a full line is closed, and a non-empty last line is kept. */
  method ChunkLines(stacks: seq<ItemStack>, max: int, perLine: nat) returns (lines: seq<seq<ItemStack>>)
    ensures IsChunking(lines, stacks[..ShownCount(max, |stacks|)], perLine)
    ensures lines == Chunks(stacks[..ShownCount(max, |stacks|)], perLine)
  {
    lines := [];
    var current: seq<ItemStack> := [];
    var i := 0;
    while i < max && i < |stacks|
      invariant 0 <= i <= ShownCount(max, |stacks|)
      invariant Flatten(lines) + current == stacks[..i]
      invariant forall k :: 0 <= k < |lines| ==> |lines[k]| == perLine
      invariant perLine > 0 ==> |current| < perLine
      invariant perLine == 0 ==> lines == []
    {
      var item := stacks[i];
      current := current + [item];
      assert stacks[..i + 1] == stacks[..i] + [item];
      if |current| == perLine {
        FlattenAppend(lines, current);
        lines := lines + [current];
        current := [];
      }
      i := i + 1;
    }
    if current != [] {
      FlattenAppend(lines, current);
      lines := lines + [current];
    }
    ChunkingUnique(lines, stacks[..ShownCount(max, |stacks|)], perLine);
  }

  // ---------------------------------------------------------------------
  // Tooltip calls for the lines

  /** The calls the second loop makes: each line, with a margin after every line but the last. */
  function MarginOps(lines: seq<seq<ItemStack>>): seq<TooltipOp> {
    if lines == [] then []
    else if |lines| == 1 then [AddLine(lines[0])]
    else [AddLine(lines[0]), SetLineMargin] + MarginOps(lines[1..])
  }

  /** Even positions are the lines in order, odd positions the margins:
      |lines| - 1 margins, never one after the last line. */
  lemma {:induction false} MarginOpsLayout(lines: seq<seq<ItemStack>>)
    ensures |MarginOps(lines)| == if lines == [] then 0 else 2 * |lines| - 1
    ensures forall j :: 0 <= j < |MarginOps(lines)| ==>
      MarginOps(lines)[j] == if j % 2 == 0 then AddLine(lines[j / 2]) else SetLineMargin
  {
    if |lines| > 1 {
      var rest := MarginOps(lines[1..]);
      MarginOpsLayout(lines[1..]);
      var ops := [AddLine(lines[0]), SetLineMargin] + rest;
      forall j | 0 <= j < |ops|
        ensures ops[j] == if j % 2 == 0 then AddLine(lines[j / 2]) else SetLineMargin
      {
        if j >= 2 {
          assert ops[j] == rest[j - 2];
          assert (j - 2) % 2 == j % 2 && (j - 2) / 2 + 1 == j / 2;
          assert lines[1..][(j - 2) / 2] == lines[j / 2];
        }
      }
    }
  }

  /** The loop of appendTooltip that adds the lines and the margins between them. */
  method AddLines(lines: seq<seq<ItemStack>>) returns (ops: seq<TooltipOp>)
    ensures ops == MarginOps(lines)
  {
    ops := [];
    var i := 0;
    while i < |lines|
      invariant 0 <= i <= |lines|
      invariant |ops| == if i == 0 then 0 else if i < |lines| then 2 * i else 2 * i - 1
      invariant forall j :: 0 <= j < |ops| ==> ops[j] == if j % 2 == 0 then AddLine(lines[j / 2]) else SetLineMargin
    {
      ops := ops + [AddLine(lines[i])];
      if i < |lines| - 1 {
        ops := ops + [SetLineMargin];
      }
      i := i + 1;
    }
    MarginOpsLayout(lines);
    assert |ops| == |MarginOps(lines)|;
  }

  // ---------------------------------------------------------------------
  // The provider

  /** appendTooltip as a function of its inputs: it fails exactly when a
      preview is due and the line width is negative. */
  function Tooltip(config: PluginConfig, accessor: Accessor, bank: LoadedBank): (r: Outcome)
    ensures r.IllegalCapacity? <==>
      !HandledByJade(config, accessor) && bank.BankLoaded? && bank.memoryAtBlock.Some? && config.itemsPerLine < 0
  {
    if HandledByJade(config, accessor) || bank.NoBankLoaded? || bank.memoryAtBlock.None? then Appended([])
    else if config.itemsPerLine < 0 then IllegalCapacity
    else
      var memory := bank.memoryAtBlock.value;
      var max := if accessor.showDetails then config.detailedAmount else config.normalAmount;
      var lines := Chunks(memory.stacks[..ShownCount(max, |memory.stacks|)], config.itemsPerLine);
      Appended(PreviewOps(lines, memory.renderName, accessor.showDetails && config.showText))
  }

  /** appendTooltip: the guards, the line split, the line calls, the name
      replacement and the brand line. */
  method AppendTooltip(config: PluginConfig, accessor: Accessor, bank: LoadedBank) returns (r: Outcome)
    ensures r == Tooltip(config, accessor, bank)
  {
    if config.universalItemStorage && "JadeItemStorage" in accessor.serverData {
      return Appended([]);
    }
    if config.mcFurnace && accessor.isFurnaceBlock
       && "furnace" in accessor.serverData && accessor.serverData["furnace"] == ListTag {
      return Appended([]);
    }
    if bank.NoBankLoaded? || bank.memoryAtBlock.None? {
      return Appended([]);
    }
    var memory := bank.memoryAtBlock.value;
    var stacks := memory.stacks;
    var max := if accessor.showDetails then config.detailedAmount else config.normalAmount;
    var perLine := config.itemsPerLine;
    if perLine < 0 {
      return IllegalCapacity;
    }
    var lines := ChunkLines(stacks, max, perLine);
    var ops := AddLines(lines);
    if memory.renderName.Some? {
      ops := ops + [ReplaceObjectName(memory.renderName.value)];
    }
    if accessor.showDetails && config.showText {
      ops := ops + [AddBrandLine];
    }
    return Appended(ops);
  }

  /** The items placed in the tooltip's lines, in order. */
  function LineItems(ops: seq<TooltipOp>): seq<ItemStack> {
    if ops == [] then []
    else (if ops[0].AddLine? then ops[0].items else []) + LineItems(ops[1..])
  }

  function MarginCount(ops: seq<TooltipOp>): nat {
    if ops == [] then 0 else (if ops[0] == SetLineMargin then 1 else 0) + MarginCount(ops[1..])
  }

  lemma {:induction false} MarginOpsCounts(lines: seq<seq<ItemStack>>)
    ensures LineItems(MarginOps(lines)) == Flatten(lines)
    ensures MarginCount(MarginOps(lines)) == if lines == [] then 0 else |lines| - 1
  {
    if |lines| == 1 {
      var ops := [AddLine(lines[0])];
      assert ops[1..] == [];
      assert Flatten(lines) == lines[0] + Flatten(lines[1..]);
    } else if |lines| > 1 {
      var rest := MarginOps(lines[1..]);
      MarginOpsCounts(lines[1..]);
      var ops := [AddLine(lines[0]), SetLineMargin] + rest;
      assert ops[1..] == [SetLineMargin] + rest && ops[1..][1..] == rest;
    }
  }

  lemma {:induction false} CountsAppend(a: seq<TooltipOp>, b: seq<TooltipOp>)
    ensures LineItems(a + b) == LineItems(a) + LineItems(b)
    ensures MarginCount(a + b) == MarginCount(a) + MarginCount(b)
  {
    if a == [] {
      assert a + b == b;
    } else {
      assert (a + b)[1..] == a[1..] + b;
      CountsAppend(a[1..], b);
    }
  }

  /** The line calls never name the object or add the brand line. */
  lemma MarginOpsOnlyLines(lines: seq<seq<ItemStack>>, op: TooltipOp, tail: seq<TooltipOp>)
    requires !op.AddLine? && op != SetLineMargin
    ensures op in MarginOps(lines) + tail <==> op in tail
  {
    MarginOpsLayout(lines);
    var body := MarginOps(lines);
    if op in body + tail {
      var j :| 0 <= j < |body + tail| && (body + tail)[j] == op;
      if j < |body| { assert body[j] == op; } else { assert tail[j - |body|] == op; }
    }
  }

  /** The preview's parts in the order they are added. */
  function PreviewOps(lines: seq<seq<ItemStack>>, renderName: Option<string>, brand: bool): seq<TooltipOp> {
    MarginOps(lines) + TailOps(renderName, brand)
  }

  /** The calls after the lines: the name replacement and the brand line. */
  function TailOps(renderName: Option<string>, brand: bool): seq<TooltipOp> {
    (if renderName.Some? then [ReplaceObjectName(renderName.value)] else [])
    + (if brand then [AddBrandLine] else [])
  }

  lemma TailOpsContents(renderName: Option<string>, brand: bool)
    ensures LineItems(TailOps(renderName, brand)) == [] && MarginCount(TailOps(renderName, brand)) == 0
    ensures forall n :: ReplaceObjectName(n) in TailOps(renderName, brand) <==> renderName == Some(n)
    ensures AddBrandLine in TailOps(renderName, brand) <==> brand
  {
    var tail := TailOps(renderName, brand);
    if tail != [] {
      assert tail[1..] == [] || tail[1..] == [AddBrandLine];
      assert LineItems([AddBrandLine]) == [] + LineItems([AddBrandLine][1..]);
    }
  }

  lemma PreviewOpsContents(lines: seq<seq<ItemStack>>, renderName: Option<string>, brand: bool)
    ensures LineItems(PreviewOps(lines, renderName, brand)) == Flatten(lines)
    ensures MarginCount(PreviewOps(lines, renderName, brand)) == if lines == [] then 0 else |lines| - 1
    ensures (exists n :: ReplaceObjectName(n) in PreviewOps(lines, renderName, brand)) <==> renderName.Some?
    ensures AddBrandLine in PreviewOps(lines, renderName, brand) <==> brand
  {
    var body, tail := MarginOps(lines), TailOps(renderName, brand);
    MarginOpsCounts(lines);
    CountsAppend(body, tail);
    TailOpsContents(renderName, brand);
    MarginOpsOnlyLines(lines, AddBrandLine, tail);
    if renderName.Some? {
      MarginOpsOnlyLines(lines, ReplaceObjectName(renderName.value), tail);
    } else {
      forall n ensures ReplaceObjectName(n) !in body + tail {
        MarginOpsOnlyLines(lines, ReplaceObjectName(n), tail);
      }
    }
  }

  /** When the preview is shown, the lines hold exactly the first
      min(max, n) stacks in order, there are |lines| - 1 margins, the object
      name is replaced exactly when the memory has a name, and the brand line
      is added exactly when details are shown and the option is on. */
  lemma TooltipContents(config: PluginConfig, accessor: Accessor, bank: LoadedBank)
    requires !HandledByJade(config, accessor) && bank.BankLoaded? && bank.memoryAtBlock.Some?
    requires config.itemsPerLine >= 0
    ensures Tooltip(config, accessor, bank).Appended?
    ensures var memory := bank.memoryAtBlock.value;
      var max := if accessor.showDetails then config.detailedAmount else config.normalAmount;
      var ops := Tooltip(config, accessor, bank).ops;
      var lines := Chunks(memory.stacks[..ShownCount(max, |memory.stacks|)], config.itemsPerLine);
      && LineItems(ops) == memory.stacks[..ShownCount(max, |memory.stacks|)]
      && MarginCount(ops) == (if lines == [] then 0 else |lines| - 1)
      && ((exists n :: ReplaceObjectName(n) in ops) <==> memory.renderName.Some?)
      && (AddBrandLine in ops <==> accessor.showDetails && config.showText)
  {
    var memory := bank.memoryAtBlock.value;
    var max := if accessor.showDetails then config.detailedAmount else config.normalAmount;
    var shown := memory.stacks[..ShownCount(max, |memory.stacks|)];
    var lines := Chunks(shown, config.itemsPerLine);
    var brand := accessor.showDetails && config.showText;
    assert Tooltip(config, accessor, bank) == Appended(PreviewOps(lines, memory.renderName, brand));
    ChunksIsChunking(shown, config.itemsPerLine);
    PreviewOpsContents(lines, memory.renderName, brand);
  }

  /** Nothing at all is added when Jade handles the block, no bank is
      loaded, or the bank has no memory at the block. */
  lemma NothingAddedWithoutMemory(config: PluginConfig, accessor: Accessor, bank: LoadedBank)
    requires HandledByJade(config, accessor) || bank == NoBankLoaded || bank == BankLoaded(None)
    ensures Tooltip(config, accessor, bank) == Appended([])
  {
  }

  /** Scenario: five stacks, a limit of four and lines of three give a line
      of three, a margin, and a line of one. */
  lemma FourOfFiveInLinesOfThree(s: seq<ItemStack>)
    requires |s| == 5
    ensures MarginOps(Chunks(s[..ShownCount(4, |s|)], 3)) == [AddLine(s[..3]), SetLineMargin, AddLine(s[3..4])]
  {
    var shown := s[..4];
    assert shown[..3] == s[..3] && shown[3..] == s[3..4];
    assert Chunks(shown[3..], 3) == [s[3..4]];
    assert Chunks(shown, 3) == [s[..3], s[3..4]];
    assert [s[..3], s[3..4]][1..] == [s[3..4]];
  }
}
