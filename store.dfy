/** The module-level instance cache of lib/instances.ts: an in-memory list that
    `saveInstances` replaces whole, mirrored to one browser storage key when a
    window exists, and reloaded from that key by `getInstances` when the cache is
    empty in a browser. */
module InstanceStore {
  import opened Instances

  /** The cache after `getInstances`' reload step: it changes only in a browser,
      only when it is empty, and then only to a list held under the storage key. */
  function Reloaded(cache: seq<Instance>, slot: Slot, inBrowser: bool): (r: seq<Instance>)
    ensures r == cache || (inBrowser && cache == [] && slot == Stored(r))
    ensures inBrowser && cache == [] && slot.Stored? ==> r == slot.list
  {
    if inBrowser && |cache| == 0 && slot.Stored? then slot.list else cache
  }

  /** The storage key after `saveInstances(xs)`: on the server it is never touched;
      in a browser it holds `xs` unless the write threw. */
  function SlotAfterSave(slot: Slot, xs: seq<Instance>, inBrowser: bool, writeFails: bool): (r: Slot)
    ensures !inBrowser || writeFails ==> r == slot
    ensures inBrowser && !writeFails ==> r == Stored(xs)
  {
    if inBrowser && !writeFails then Stored(xs) else slot
  }

  class Store {
    /** `instancesCache` */
    var cache: seq<Instance>
    /** The browser storage entry under "instances_cache_v1". */
    var slot: Slot
    /** `typeof window !== "undefined"` */
    const inBrowser: bool

    constructor (inBrowser: bool, slot: Slot)
      ensures this.inBrowser == inBrowser && this.slot == slot && cache == []
    {
      this.inBrowser := inBrowser;
      this.slot := slot;
      cache := [];
    }

    /** `initializeCache`: in a browser, a parseable stored list replaces the cache;
        an absent or unparseable entry leaves it as it was. */
    method InitializeCache()
      modifies this`cache
      ensures cache == if inBrowser && slot.Stored? then slot.list else old(cache)
    {
      if inBrowser {
        match slot
        case Stored(list) => cache := list;
        case _ =>
      }
    }

    /** `getInstances`: reload only in a browser with an empty cache, then return the cache. */
    method GetInstances() returns (r: seq<Instance>)
      modifies this`cache
      ensures cache == Reloaded(old(cache), slot, inBrowser)
      ensures r == cache
    {
      if inBrowser && |cache| == 0 {
        InitializeCache();
      }
      r := cache;
    }

    /** `saveInstances`: the cache becomes `xs` wholesale (no merge), whether or not
        the storage write succeeds. */
    method SaveInstances(xs: seq<Instance>, writeFails: bool)
      modifies this`cache, this`slot
      ensures cache == xs
      ensures slot == SlotAfterSave(old(slot), xs, inBrowser, writeFails)
    {
      cache := xs;
      if inBrowser && !writeFails {
        slot := Stored(xs);
      }
    }
  }

  /** On the server, and in a browser whose storage write succeeds, a save followed
      by a get returns exactly the saved list. */
  lemma SaveThenGet(slot: Slot, xs: seq<Instance>, inBrowser: bool, writeFails: bool)
    requires !inBrowser || !writeFails
    ensures Reloaded(xs, SlotAfterSave(slot, xs, inBrowser, writeFails), inBrowser) == xs
  {
  }

  /** A failed storage write does not undo the in-memory update, except for one
      case: saving an empty list in a browser whose write failed lets the next get
      reload the older stored list. */
  lemma FailedWriteKeepsCache(slot: Slot, xs: seq<Instance>, inBrowser: bool)
    ensures xs != [] ==> Reloaded(xs, SlotAfterSave(slot, xs, inBrowser, true), inBrowser) == xs
    ensures inBrowser && slot.Stored? ==>
      Reloaded([], SlotAfterSave(slot, [], inBrowser, true), inBrowser) == slot.list
  {
  }
}
