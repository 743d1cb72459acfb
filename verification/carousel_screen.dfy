/**
 * The carousel of src/Screens/CarouselScreen.cpp: a ring of items, each a
 * splash screen shown while the item is selected and an optional child
 * screen that menu switches to.  Up and down move round the ring, back
 * returns to the first item.
 *
 * The static `index` is retained across deep sleep; it is a field of the one
 * `CarouselScreen` object.  The `parent` members of all screens are one map
 * from a screen to its parent, held by `Screens`.
 */
module Carousel {

  import opened Watchy

  /** `CarouselItem`: the splash screen and the child screen, either possibly null. */
  datatype CarouselItem = CarouselItem(splash: Option<ScreenId>, child: Option<ScreenId>)

  /** The largest value of the `int8_t` size and index. */
  const INT8_MAX := 0x7f

  // ---------------------------------------------------------------------
  // The ring (src/Screens/CarouselScreen.cpp:32-54)

  /** `index` after `up`: one back, from the first round to the last. */
  function UpIndex(i: int, size: int): (r: int)
    requires 0 <= i < size
    ensures 0 <= r < size
  {
    if i - 1 < 0 then size - 1 else i - 1
  }

  /** `index` after `down`: one on, from the last round to the first. */
  function DownIndex(i: int, size: int): (r: int)
    requires 0 <= i < size
    ensures 0 <= r < size
  {
    if i + 1 >= size then 0 else i + 1
  }

  /** Up and down undo each other. */
  lemma UpDownInverse(i: int, size: int)
    requires 0 <= i < size
    ensures UpIndex(DownIndex(i, size), size) == i
    ensures DownIndex(UpIndex(i, size), size) == i
  {
  }

  /** Up and down are subtraction and addition of one modulo the size. */
  lemma RingIsModular(i: int, size: int)
    requires 0 <= i < size
    ensures DownIndex(i, size) == (i + 1) % size
    ensures UpIndex(i, size) == (i - 1) % size
  {
    if i + 1 == size {
      assert (i + 1) % size == 0;
    } else {
      assert (i + 1) % size == i + 1;
    }
    if i == 0 {
      assert (i - 1) % size == size - 1;
    } else {
      assert (i - 1) % size == i - 1;
    }
  }

  /** The screen `menu` switches to from item `i`, if any. */
  function MenuTarget(items: seq<CarouselItem>, i: int): Option<ScreenId>
    requires 0 <= i < |items|
  {
    items[i].child
  }

  // ---------------------------------------------------------------------
  // Parent wiring (src/Screens/CarouselScreen.cpp:9-18)

  /** The screens an item names, in the order the constructor adopts them. */
  function Named(item: CarouselItem): seq<ScreenId>
  {
    (if item.splash.Some? then [item.splash.value] else []) + (if item.child.Some? then [item.child.value] else [])
  }

  /** The parent map after the carousel `id` has adopted every screen its items name. */
  function Adopted(parent: map<ScreenId, ScreenId>, items: seq<CarouselItem>, id: ScreenId): map<ScreenId, ScreenId>
    decreases |items|
  {
    if items == [] then parent
    else Adopted(AdoptAll(parent, Named(items[0]), id), items[1..], id)
  }

  function AdoptAll(parent: map<ScreenId, ScreenId>, screens: seq<ScreenId>, id: ScreenId): map<ScreenId, ScreenId>
    decreases |screens|
  {
    if screens == [] then parent else AdoptAll(parent[screens[0] := id], screens[1..], id)
  }

  /** Whether some item names screen `x`. */
  predicate NamedBy(items: seq<CarouselItem>, x: ScreenId)
  {
    exists k :: 0 <= k < |items| && x in Named(items[k])
  }

  lemma {:induction false} AdoptAllSets(parent: map<ScreenId, ScreenId>, screens: seq<ScreenId>, id: ScreenId, x: ScreenId)
    ensures x in screens ==> x in AdoptAll(parent, screens, id) && AdoptAll(parent, screens, id)[x] == id
    ensures x !in screens ==> ((x in AdoptAll(parent, screens, id) <==> x in parent) &&
                               (x in parent ==> AdoptAll(parent, screens, id)[x] == parent[x]))
    decreases |screens|
  {
    if screens != [] {
      AdoptAllSets(parent[screens[0] := id], screens[1..], id, x);
    }
  }

  /**
   * After the constructor, every screen named by an item has the carousel
   * as its parent, and every other screen keeps the parent it had.
   */
  lemma {:induction false} AdoptedParents(parent: map<ScreenId, ScreenId>, items: seq<CarouselItem>, id: ScreenId, x: ScreenId)
    ensures NamedBy(items, x) ==> x in Adopted(parent, items, id) && Adopted(parent, items, id)[x] == id
    ensures !NamedBy(items, x) ==> ((x in Adopted(parent, items, id) <==> x in parent) &&
                                    (x in parent ==> Adopted(parent, items, id)[x] == parent[x]))
    decreases |items|
  {
    if items != [] {
      var p1 := AdoptAll(parent, Named(items[0]), id);
      AdoptAllSets(parent, Named(items[0]), id, x);
      AdoptedParents(p1, items[1..], id, x);
      if NamedBy(items[1..], x) {
        var k :| 0 <= k < |items[1..]| && x in Named(items[1..][k]);
        assert x in Named(items[k + 1]);
      }
    }
  }

  /** Adopting the screens of one item: its splash, then its child. */
  lemma AdoptItem(parent: map<ScreenId, ScreenId>, item: CarouselItem, id: ScreenId)
    ensures var p1 := if item.splash.Some? then parent[item.splash.value := id] else parent;
            AdoptAll(parent, Named(item), id) == if item.child.Some? then p1[item.child.value := id] else p1
  {
    var p1 := if item.splash.Some? then parent[item.splash.value := id] else parent;
    if item.splash.Some? {
      assert AdoptAll(parent, [item.splash.value], id) == p1;
    }
    if item.child.Some? {
      assert AdoptAll(p1, [item.child.value], id) == p1[item.child.value := id];
    }
    var a := if item.splash.Some? then [item.splash.value] else [];
    var c := if item.child.Some? then [item.child.value] else [];
    AdoptAllAppend(parent, a, c, id);
  }

  lemma AdoptAllAppend(parent: map<ScreenId, ScreenId>, a: seq<ScreenId>, c: seq<ScreenId>, id: ScreenId)
    ensures AdoptAll(parent, a + c, id) == AdoptAll(AdoptAll(parent, a, id), c, id)
    decreases |a|
  {
    if a == [] {
      assert a + c == c;
    } else {
      assert (a + c)[0] == a[0] && (a + c)[1..] == a[1..] + c;
      AdoptAllAppend(parent[a[0] := id], a[1..], c, id);
    }
  }

  lemma AdoptedSnoc(parent: map<ScreenId, ScreenId>, items: seq<CarouselItem>, item: CarouselItem, id: ScreenId)
    ensures Adopted(parent, items + [item], id) == AdoptAll(Adopted(parent, items, id), Named(item), id)
    decreases |items|
  {
    if items == [] {
      assert items + [item] == [item];
    } else {
      assert (items + [item])[1..] == items[1..] + [item];
      AdoptedSnoc(AdoptAll(parent, Named(items[0]), id), items[1..], item, id);
    }
  }

  /** The `parent` members of all screens. */
  class Screens {
    var parent: map<ScreenId, ScreenId>

    constructor (parent: map<ScreenId, ScreenId>)
      ensures this.parent == parent
    {
      this.parent := parent;
    }

    /** `s->parent = p`. */
    method SetParent(s: ScreenId, p: ScreenId)
      modifies this
      ensures parent == old(parent)[s := p]
    {
      parent := parent[s := p];
    }
  }

  // ---------------------------------------------------------------------
  // The screen

  class CarouselScreen {
    /** The identity of this screen. */
    const id: ScreenId
    /** `items`, of `size` entries. */
    const items: seq<CarouselItem>
    /** The static `index`, retained across deep sleep. */
    var index: int

    predicate Valid()
      reads this
    {
      1 <= |items| <= INT8_MAX && 0 <= index < |items|
    }

    /**
     * The constructor (src/Screens/CarouselScreen.cpp:9-18): every non-null
     * splash and child gets this carousel as its parent.  `retained` is the
     * static `index` as the last boot left it, 0 at the first.
     */
    constructor (id: ScreenId, items: seq<CarouselItem>, screens: Screens, retained: int)
      requires 1 <= |items| <= INT8_MAX && 0 <= retained < |items|
      modifies screens
      ensures Valid() && this.id == id && this.items == items && index == retained
      ensures screens.parent == Adopted(old(screens.parent), items, id)
    {
      this.id := id;
      this.items := items;
      index := retained;
      new;
      var i := 0;
      while i < |items|
        invariant 0 <= i <= |items|
        invariant screens.parent == Adopted(old(screens.parent), items[..i], id)
        invariant index == retained
      {
        var item := items[i];
        AdoptedSnoc(old(screens.parent), items[..i], item, id);
        assert items[..i + 1] == items[..i] + [item];
        if item.splash.Some? {
          screens.SetParent(item.splash.value, id);
        }
        if item.child.Some? {
          screens.SetParent(item.child.value, id);
        }
        AdoptItem(Adopted(old(screens.parent), items[..i], id), item, id);
        i := i + 1;
      }
      assert items[..i] == items;
    }

    /** Every item has a splash screen: `show` draws the selected one and does not check for null. */
    predicate Splashes()
      reads this
    {
      forall k :: 0 <= k < |items| ==> items[k].splash.Some?
    }

    /** `show` (src/Screens/CarouselScreen.cpp:20-23): show the selected item's splash. */
    method Show(sys: System)
      requires Valid() && Splashes()
      modifies sys
      ensures sys.log == old(sys.log) + [WatchFaceShown(true, items[index].splash.value)]
      ensures sys.screen == old(sys.screen) && sys.err == old(sys.err) && sys.wifiCount == old(sys.wifiCount)
      ensures sys.tasks == old(sys.tasks) && sys.callbacks == old(sys.callbacks)
    {
      sys.ShowScreen(true, items[index].splash.value);
    }

    /** `menu` (src/Screens/CarouselScreen.cpp:25-30): switch to the selected item's child, if it has one. */
    method Menu(sys: System)
      requires Valid()
      modifies sys
      ensures MenuTarget(items, index).Some? ==>
                sys.screen == MenuTarget(items, index) &&
                sys.log == old(sys.log) + [WatchFaceShown(true, MenuTarget(items, index).value)]
      ensures MenuTarget(items, index).None? ==> sys.screen == old(sys.screen) && sys.log == old(sys.log)
      ensures sys.err == old(sys.err) && sys.wifiCount == old(sys.wifiCount)
      ensures sys.tasks == old(sys.tasks) && sys.callbacks == old(sys.callbacks)
    {
      if items[index].child.Some? {
        sys.SetScreen(items[index].child);
      }
    }

    /** `back` (src/Screens/CarouselScreen.cpp:32-36): back to the first item. */
    method Back(sys: System)
      requires Valid() && Splashes()
      modifies this, sys
      ensures Valid() && index == 0
      ensures sys.log == old(sys.log) + [WatchFaceShown(true, items[0].splash.value)]
      ensures sys.screen == old(sys.screen) && sys.err == old(sys.err) && sys.wifiCount == old(sys.wifiCount)
      ensures sys.tasks == old(sys.tasks) && sys.callbacks == old(sys.callbacks)
    {
      index := 0;
      Show(sys);
    }

    /** `up` (src/Screens/CarouselScreen.cpp:38-45). */
    method Up(sys: System)
      requires Valid() && Splashes()
      modifies this, sys
      ensures Valid() && index == UpIndex(old(index), |items|)
      ensures sys.log == old(sys.log) + [WatchFaceShown(true, items[index].splash.value)]
      ensures sys.screen == old(sys.screen) && sys.err == old(sys.err) && sys.wifiCount == old(sys.wifiCount)
      ensures sys.tasks == old(sys.tasks) && sys.callbacks == old(sys.callbacks)
    {
      index := index - 1;
      if index < 0 {
        index := |items| - 1;
      }
      Show(sys);
    }

    /** `down` (src/Screens/CarouselScreen.cpp:47-54). */
    method Down(sys: System)
      requires Valid() && Splashes()
      modifies this, sys
      ensures Valid() && index == DownIndex(old(index), |items|)
      ensures sys.log == old(sys.log) + [WatchFaceShown(true, items[index].splash.value)]
      ensures sys.screen == old(sys.screen) && sys.err == old(sys.err) && sys.wifiCount == old(sys.wifiCount)
      ensures sys.tasks == old(sys.tasks) && sys.callbacks == old(sys.callbacks)
    {
      index := index + 1;
      if index >= |items| {
        index := 0;
      }
      Show(sys);
    }
  }
}
