/** MemoryBankView, the management screen's view of a memory bank: edits go
    to a copy of the bank's metadata and key removals are queued, and only
    `save` applies them to the bank. A second, empty view stands in when no
    bank is available. */
module MemoryBankViews {
  import opened Game
  import opened LoadContexts

  /** The visual part of a bank's metadata: the order of the memory keys and
      the icon chosen for each key. */
  datatype VisualSettings = VisualSettings(keyOrder: seq<ResourceLocation>, icons: map<ResourceLocation, ItemStack>)

  /** A bank's metadata; a value, so `deepCopy` is the value itself. */
  datatype Metadata = Metadata(visualSettings: VisualSettings)

  /** VisualSettings.removeIcon, which is not part of this model: taken to
      drop the key's icon and to leave the key order as it is. */
  function RemoveIcon(v: VisualSettings, id: ResourceLocation): (r: VisualSettings)
    ensures r.keyOrder == v.keyOrder
    ensures id !in r.icons
    ensures forall k :: k != id ==> (k in r.icons <==> k in v.icons)
    ensures forall k :: k in r.icons ==> r.icons[k] == v.icons[k]
  {
    VisualSettings(v.keyOrder, v.icons - {id})
  }

  function RemoveIconFrom(m: Metadata, id: ResourceLocation): Metadata {
    Metadata(RemoveIcon(m.visualSettings, id))
  }

  /** The metadata after queued removals: every queued key loses its icon. */
  function RemoveIcons(m: Metadata, ids: seq<ResourceLocation>): Metadata
    decreases |ids|
  {
    if ids == [] then m else RemoveIcons(RemoveIconFrom(m, ids[0]), ids[1..])
  }

  lemma {:induction false} RemoveIconsContents(m: Metadata, ids: seq<ResourceLocation>)
    ensures RemoveIcons(m, ids).visualSettings.keyOrder == m.visualSettings.keyOrder
    ensures forall k :: k in RemoveIcons(m, ids).visualSettings.icons <==> k in m.visualSettings.icons && k !in ids
    ensures forall k :: k in RemoveIcons(m, ids).visualSettings.icons ==>
      RemoveIcons(m, ids).visualSettings.icons[k] == m.visualSettings.icons[k]
    decreases |ids|
  {
    if ids != [] {
      RemoveIconsContents(RemoveIconFrom(m, ids[0]), ids[1..]);
      assert forall k :: k in ids <==> k == ids[0] || k in ids[1..];
    }
  }

  /** The parts of MemoryBank (not part of this model) that the view uses:
      its id, its metadata and its memory keys. */
  class MemoryBank {
    const id: string
    var metadata: Metadata
    var keys: set<ResourceLocation>

    constructor (id: string, metadata: Metadata, keys: set<ResourceLocation>)
      ensures this.id == id && this.metadata == metadata && this.keys == keys
    {
      this.id, this.metadata, this.keys := id, metadata, keys;
    }

    /** MemoryBank.removeKey: the key's memories are dropped. */
    method RemoveKey(key: ResourceLocation)
      modifies this
      ensures keys == old(keys) - {key} && metadata == old(metadata)
    {
      keys := keys - {key};
    }

    method SetMetadata(m: Metadata)
      modifies this
      ensures metadata == m && keys == old(keys)
    {
      metadata := m;
    }
  }

  /** The view `of(bank)`. */
  class BankView {
    const bank: MemoryBank
    /** The deep copy of the bank's metadata that the screen edits. */
    var copy: Metadata
    /** The keys queued for removal, in call order. */
    var toRemove: seq<ResourceLocation>

    /** of(bank): a copy of the current metadata and nothing queued. */
    constructor Of(bank: MemoryBank)
      ensures this.bank == bank && copy == bank.metadata && toRemove == []
      ensures Id() == bank.id && Keys() == bank.metadata.visualSettings.keyOrder
    {
      this.bank := bank;
      copy := bank.metadata;
      toRemove := [];
    }

    /** id() is the bank's id. */
    function Id(): string
      reads this
    {
      bank.id
    }

    /** keys() is the key order of the copy, not of the bank. */
    function Keys(): seq<ResourceLocation>
      reads this
    {
      copy.visualSettings.keyOrder
    }

    /** removeKey: the key is queued and its icon dropped from the copy; the
        bank is untouched. */
    method RemoveKey(id: ResourceLocation)
      modifies this
      ensures toRemove == old(toRemove) + [id]
      ensures copy == RemoveIconFrom(old(copy), id)
      ensures Keys() == old(Keys()) && Id() == old(Id())
      ensures unchanged(bank)
    {
      toRemove := toRemove + [id];
      copy := RemoveIconFrom(copy, id);
    }

    /** An edit made through the reference that metadata() returns: it
        changes the copy only. */
    method EditMetadata(edited: Metadata)
      modifies this
      ensures copy == edited && toRemove == old(toRemove)
      ensures unchanged(bank)
    {
      copy := edited;
    }

    /** save: every queued key is removed from the bank, then the copy
        becomes the bank's metadata; the queue is not cleared. */
    method Save()
      modifies bank
      ensures bank.keys == old(bank.keys) - set k | k in toRemove
      ensures bank.metadata == copy
      ensures toRemove == old(toRemove) && copy == old(copy)
    {
      var i := 0;
      while i < |toRemove|
        invariant 0 <= i <= |toRemove|
        invariant bank.keys == old(bank.keys) - set k | k in toRemove[..i]
      {
        var key := toRemove[i];
        assert toRemove[..i + 1] == toRemove[..i] + [key];
        bank.RemoveKey(key);
        i := i + 1;
      }
      assert toRemove[..|toRemove|] == toRemove;
      bank.SetMetadata(copy);
    }
  }

  /** A session of the management screen: keys are removed while the bank
      keeps its state, and only saving applies the removals and the copy. */
  method RemoveThenSave(bank: MemoryBank, a: ResourceLocation, b: ResourceLocation) returns (view: BankView)
    modifies bank
    ensures view.toRemove == [a, b]
    ensures bank.keys == old(bank.keys) - {a, b}
    ensures bank.metadata == RemoveIcons(old(bank.metadata), [a, b])
    ensures bank.metadata.visualSettings.keyOrder == old(bank.metadata.visualSettings.keyOrder)
  {
    view := new BankView.Of(bank);
    view.RemoveKey(a);
    view.RemoveKey(b);
    assert bank.keys == old(bank.keys) && bank.metadata == old(bank.metadata);
    view.Save();
    assert (set k | k in [a, b]) == {a, b};
    assert RemoveIcons(old(bank.metadata), [a, b]) == RemoveIconFrom(RemoveIconFrom(old(bank.metadata), a), b) by {
      var m := old(bank.metadata);
      assert [a, b][1..] == [b] && [b][1..] == [];
      assert RemoveIcons(m, [a, b]) == RemoveIcons(RemoveIconFrom(m, a), [b]);
      assert RemoveIcons(RemoveIconFrom(m, a), [b]) == RemoveIcons(RemoveIconFrom(RemoveIconFrom(m, a), b), []);
    }
    RemoveIconsContents(old(bank.metadata), [a, b]);
  }

  /** Since the queue is kept, saving again changes nothing. */
  method SaveTwice(view: BankView)
    modifies view.bank
    ensures view.bank.keys == old(view.bank.keys) - set k | k in view.toRemove
    ensures view.bank.metadata == view.copy
  {
    view.Save();
    view.Save();
  }

  /** The view `empty()`: id "error", no keys, blank metadata, and removals
      and saves that do nothing. Metadata.blank() is not part of this model;
      the view holds the value it stands for. */
  class EmptyView {
    const blank: Metadata

    constructor (blank: Metadata)
      ensures this.blank == blank
    {
      this.blank := blank;
    }

    function Id(): (id: string)
      ensures id == "error"
    {
      "error"
    }

    function Keys(): (keys: seq<ResourceLocation>)
      ensures keys == []
    {
      []
    }

    function GetMetadata(): (m: Metadata)
      reads this
      ensures m == blank
    {
      blank
    }

    method RemoveKey(id: ResourceLocation)
    {
    }

    method Save()
    {
    }
  }

  /** Removals and saves on the empty view change nothing that it reports. */
  method EmptyViewIgnoresEdits(blank: Metadata, key: ResourceLocation)
    returns (id: string, keys: seq<ResourceLocation>, metadata: Metadata)
    ensures id == "error" && keys == [] && metadata == blank
  {
    var view := new EmptyView(blank);
    view.RemoveKey(key);
    view.Save();
    id, keys, metadata := view.Id(), view.Keys(), view.GetMetadata();
  }

  /** The empty view's id is never the id of a session's memory bank, so it
      cannot be mistaken for one. */
  lemma EmptyIdIsNoSessionId(view: EmptyView, rec: RealmRecord, mc: MinecraftState, host: Host)
    requires rec.Get(mc, host).Some?
    ensures rec.Get(mc, host).value.id != view.Id()
  {
    var id := rec.Get(mc, host).value.id;
    var kind := KindOf(mc).value;
    var rest :| id == Prefix(kind) + host.sanitizeForPath(rest);
    assert id[0] == Prefix(kind)[0];
  }
}
