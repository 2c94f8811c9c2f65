/** Keyboard menus with automatically assigned letter hotkeys (ui/menu.py). */
module Menus {
  import opened Wrappers
  import opened Geometry
  import opened Popups
  import opened InputHandling

  /** BearLibTerminal key codes: the letters a..z are consecutive from KeyA. */
  const KeyA: int := 4
  const KeyZ: int := 29
  const KeyEscape: int := 41

  /** ALL_MENU_KEYS: the letter keys in a..z order. */
  function MenuKeys(): (r: seq<int>)
    ensures |r| == 26 && forall i | 0 <= i < 26 :: r[i] == KeyA + i
  {
    seq(26, i => KeyA + i)
  }

  /** A menu entry; its action is modelled by the result it returns. */
  datatype MenuItem = MenuItem(text: string, action: ActionResult, enabled: bool, hotkeyOverride: Option<int>)

  predicate Increasing(s: seq<int>) {
    forall i, j | 0 <= i < j < |s| :: s[i] < s[j]
  }

  /** The keys of `keys` that are not in `reserved`, in their order. */
  function Unreserved(keys: seq<int>, reserved: set<int>): (r: seq<int>)
    ensures forall k :: k in r <==> k in keys && k !in reserved
    ensures Increasing(keys) ==> Increasing(r)
  {
    if |keys| == 0 then []
    else if keys[0] in reserved then Unreserved(keys[1..], reserved)
    else
      var rest := Unreserved(keys[1..], reserved);
      var r := [keys[0]] + rest;
      assert Increasing(keys) ==> Increasing(r) by {
        if Increasing(keys) {
          assert Increasing(keys[1..]);
          forall i, j | 0 <= i < j < |r| ensures r[i] < r[j] {
            assert r[j] == rest[j - 1] && rest[j - 1] in keys[1..];
            if i > 0 {
              assert r[i] == rest[i - 1];
            }
          }
        }
      }
      r
  }

  /** The override keys the items ask for. */
  function OverrideKeys(items: seq<MenuItem>): set<int> {
    set i | 0 <= i < |items| && items[i].hotkeyOverride.Some? :: items[i].hotkeyOverride.value
  }

  /** available_keys as written: the letters not reserved. */
  function AvailableKeysAsWritten(reserved: set<int>): (r: seq<int>)
    ensures Increasing(r)
    ensures forall k :: k in r <==> k in MenuKeys() && k !in reserved
  {
    Unreserved(MenuKeys(), reserved)
  }

  /**
   * The letters handed out automatically: neither reserved nor claimed as
   * an override by some item, so an automatic key never clashes with one.
   */
  function AvailableKeys(items: seq<MenuItem>, reserved: set<int>): (r: seq<int>)
    ensures Increasing(r)
    ensures forall k :: k in r <==> k in MenuKeys() && k !in reserved && k !in OverrideKeys(items)
    ensures forall k | k in r :: KeyA <= k <= KeyZ
  {
    Unreserved(MenuKeys(), reserved + OverrideKeys(items))
  }

  /** The two maps of a menu and the auto-assignment counter. */
  datatype Keybinds = Keybinds(keyToIndex: map<int, int>, indexToKey: map<int, int>, nextAuto: nat)

  /** _rebuild_keybinds after its first n items, handing out `available` in order. */
  function Bind(items: seq<MenuItem>, reserved: set<int>, available: seq<int>, n: nat): Keybinds
    requires n <= |items|
  {
    if n == 0 then Keybinds(map[], map[], 0)
    else
      var b := Bind(items, reserved, available, n - 1);
      var i := n - 1;
      match items[i].hotkeyOverride
      case Some(k) =>
        if k !in reserved then Keybinds(b.keyToIndex[k := i], b.indexToKey[i := k], b.nextAuto) else b
      case None =>
        if b.nextAuto < |available| then
          var k := available[b.nextAuto];
          Keybinds(b.keyToIndex[k := i], b.indexToKey[i := k], b.nextAuto + 1)
        else b
  }

  /** How many of the first n items have no override. */
  function AutoCount(items: seq<MenuItem>, n: nat): nat
    requires n <= |items|
  {
    if n == 0 then 0 else AutoCount(items, n - 1) + (if items[n - 1].hotkeyOverride.None? then 1 else 0)
  }

  /**
   * The key item i is given, on its own: its override unless reserved,
   * otherwise the next available key while keys remain.
   */
  function KeyOf(items: seq<MenuItem>, reserved: set<int>, available: seq<int>, i: nat): Option<int>
    requires i < |items|
  {
    match items[i].hotkeyOverride
    case Some(k) => if k !in reserved then Some(k) else None
    case None => if AutoCount(items, i) < |available| then Some(available[AutoCount(items, i)]) else None
  }

  /**
   * The loop's maps agree with KeyOf item by item: index i is bound exactly
   * when KeyOf gives it a key, to that key; key k leads to the last item
   * given k; the counter is the number of automatic items, capped by the
   * number of keys.
   */
  lemma {:induction false} BindShape(items: seq<MenuItem>, reserved: set<int>, available: seq<int>, n: nat)
    requires n <= |items|
    ensures var b := Bind(items, reserved, available, n);
      && b.nextAuto == Min(AutoCount(items, n), |available|)
      && (forall i :: i in b.indexToKey <==> 0 <= i < n && KeyOf(items, reserved, available, i).Some?)
      && (forall i | i in b.indexToKey :: Some(b.indexToKey[i]) == KeyOf(items, reserved, available, i))
      && (forall k | k in b.keyToIndex ::
            0 <= b.keyToIndex[k] < n && KeyOf(items, reserved, available, b.keyToIndex[k]) == Some(k)
            && forall j | b.keyToIndex[k] < j < n :: KeyOf(items, reserved, available, j) != Some(k))
      && (forall i | 0 <= i < n && KeyOf(items, reserved, available, i).Some? ::
            KeyOf(items, reserved, available, i).value in b.keyToIndex)
  {
    if n > 0 {
      BindShape(items, reserved, available, n - 1);
    }
  }

  /** Every later automatic item has counted every earlier one. */
  lemma {:induction false} AutoCountGrows(items: seq<MenuItem>, i: nat, j: nat)
    requires i < j <= |items| && items[i].hotkeyOverride.None?
    ensures AutoCount(items, i) < AutoCount(items, j)
  {
    if j > i + 1 {
      AutoCountGrows(items, i, j - 1);
    }
  }

  /**
   * No key in `reserved` (Escape included) is ever bound, and every bound
   * key shows on the item it selects.
   */
  lemma BindRespectsReserved(items: seq<MenuItem>, reserved: set<int>, available: seq<int>)
    requires forall k | k in available :: k !in reserved
    ensures var b := Bind(items, reserved, available, |items|);
      (forall k | k in b.keyToIndex :: k !in reserved)
      && (forall k | k in b.keyToIndex :: b.keyToIndex[k] in b.indexToKey && b.indexToKey[b.keyToIndex[k]] == k)
  {
    BindShape(items, reserved, available, |items|);
  }

  /**
   * Items without an override take the available keys in order: the k-th
   * such item gets available[k] while keys remain and stays unbound after.
   * An unreserved override is used as given, a reserved one leaves the
   * item unbound.
   */
  lemma BindAssignsInOrder(items: seq<MenuItem>, reserved: set<int>, available: seq<int>, i: nat)
    requires i < |items|
    ensures var b := Bind(items, reserved, available, |items|);
      && (items[i].hotkeyOverride.None? && AutoCount(items, i) < |available| ==>
            i in b.indexToKey && b.indexToKey[i] == available[AutoCount(items, i)])
      && (items[i].hotkeyOverride.None? && AutoCount(items, i) >= |available| ==> i !in b.indexToKey)
      && (items[i].hotkeyOverride.Some? && items[i].hotkeyOverride.value !in reserved ==>
            i in b.indexToKey && b.indexToKey[i] == items[i].hotkeyOverride.value)
      && (items[i].hotkeyOverride.Some? && items[i].hotkeyOverride.value in reserved ==> i !in b.indexToKey)
  {
    BindShape(items, reserved, available, |items|);
  }

  /** No two items get the same key when automatic keys avoid every override and overrides are distinct. */
  lemma KeysDistinct(items: seq<MenuItem>, reserved: set<int>, i: nat, j: nat)
    requires i < j < |items|
    requires forall p, q | 0 <= p < q < |items| && items[p].hotkeyOverride.Some? ::
               items[p].hotkeyOverride != items[q].hotkeyOverride
    ensures var available := AvailableKeys(items, reserved);
      KeyOf(items, reserved, available, i).None? || KeyOf(items, reserved, available, i) != KeyOf(items, reserved, available, j)
  {
    var available := AvailableKeys(items, reserved);
    var ki, kj := KeyOf(items, reserved, available, i), KeyOf(items, reserved, available, j);
    if ki.Some? && kj.Some? {
      if items[i].hotkeyOverride.None? && items[j].hotkeyOverride.None? {
        AutoCountGrows(items, i, j);
        assert available[AutoCount(items, i)] < available[AutoCount(items, j)];
      } else if items[i].hotkeyOverride.None? {
        assert items[j].hotkeyOverride.value in OverrideKeys(items);
        assert available[AutoCount(items, i)] in available;
      } else if items[j].hotkeyOverride.None? {
        assert items[i].hotkeyOverride.value in OverrideKeys(items);
        assert available[AutoCount(items, j)] in available;
      }
    }
  }

  /**
   * With distinct overrides, the key an item displays selects that item:
   * the two maps are inverse to each other.
   */
  lemma HotkeySelectsItem(items: seq<MenuItem>, reserved: set<int>, i: int)
    requires forall p, q | 0 <= p < q < |items| && items[p].hotkeyOverride.Some? ::
               items[p].hotkeyOverride != items[q].hotkeyOverride
    requires i in Bind(items, reserved, AvailableKeys(items, reserved), |items|).indexToKey
    ensures var b := Bind(items, reserved, AvailableKeys(items, reserved), |items|);
      b.indexToKey[i] in b.keyToIndex && b.keyToIndex[b.indexToKey[i]] == i
  {
    var available := AvailableKeys(items, reserved);
    var b := Bind(items, reserved, available, |items|);
    BindShape(items, reserved, available, |items|);
    var k := b.indexToKey[i];
    var j := b.keyToIndex[k];
    if i < j {
      KeysDistinct(items, reserved, i, j);
    }
  }

  /**
   * Automatic keys as written can collide with an override: an item with
   * override 'a' followed by an item without one both show 'a', and 'a'
   * selects the second.
   */
  lemma OverrideCollisionAsWritten()
    ensures var items := [MenuItem("first", NoOp(), true, Some(KeyA)), MenuItem("second", NoOp(), true, None)];
      var b := Bind(items, {KeyEscape}, AvailableKeysAsWritten({KeyEscape}), 2);
      0 in b.indexToKey && 1 in b.indexToKey && KeyA in b.keyToIndex
      && b.indexToKey[0] == KeyA && b.indexToKey[1] == KeyA && b.keyToIndex[KeyA] == 1
  {
    var items := [MenuItem("first", NoOp(), true, Some(KeyA)), MenuItem("second", NoOp(), true, None)];
    var reserved := {KeyEscape};
    var available := AvailableKeysAsWritten(reserved);
    assert MenuKeys()[0] == KeyA && KeyA !in reserved;
    assert available == [KeyA] + Unreserved(MenuKeys()[1..], reserved);
    var b0 := Bind(items, reserved, available, 0);
    assert b0 == Keybinds(map[], map[], 0);
    assert items[0].hotkeyOverride == Some(KeyA) && items[1].hotkeyOverride.None?;
    var b1 := Bind(items, reserved, available, 1);
    assert b1 == Keybinds(b0.keyToIndex[KeyA := 0], b0.indexToKey[0 := KeyA], 0);
    assert Bind(items, reserved, available, 2) == Keybinds(b1.keyToIndex[KeyA := 1], b1.indexToKey[1 := KeyA], 1);
  }

  /** get_hotkey_char's letter: ord('a') + (key - TK_A), or "?" where no character has that code. */
  function KeyChar(key: int): (r: string)
    ensures KeyA <= key <= KeyZ ==> r == ["abcdefghijklmnopqrstuvwxyz"[key - KeyA]]
  {
    var code := 'a' as int + (key - KeyA);
    if 0 <= code < 0xD800 || 0xE000 <= code < 0x11_0000 then [code as char] else "?"
  }

  class Menu {
    var title: Option<string>
    var items: seq<MenuItem>
    var reservedKeys: set<int>
    var keyToIndex: map<int, int>
    var indexToKey: map<int, int>

    /** The bindings _rebuild_keybinds makes for the current items and reserved keys. */
    function Binds(): Keybinds
      reads this
    {
      Bind(items, reservedKeys, AvailableKeys(items, reservedKeys), |items|)
    }

    /** Escape is reserved and the maps are the ones the current items call for. */
    ghost predicate Valid()
      reads this
    {
      && KeyEscape in reservedKeys
      && keyToIndex == Binds().keyToIndex && indexToKey == Binds().indexToKey
      && forall k | k in keyToIndex :: 0 <= keyToIndex[k] < |items|
    }

    constructor(title: Option<string>, items: seq<MenuItem>, reservedKeys: set<int>)
      ensures Valid()
      ensures this.title == title && this.items == items && this.reservedKeys == reservedKeys + {KeyEscape}
    {
      this.title := title;
      this.items := items;
      this.reservedKeys := reservedKeys + {KeyEscape};
      keyToIndex, indexToKey := map[], map[];
      new;
      RebuildKeybinds();
    }

    method AddItem(text: string, action: ActionResult, enabled: bool := true, hotkey: Option<int> := None)
      requires Valid()
      modifies this
      ensures Valid()
      ensures items == old(items) + [MenuItem(text, action, enabled, hotkey)]
      ensures title == old(title) && reservedKeys == old(reservedKeys)
    {
      items := items + [MenuItem(text, action, enabled, hotkey)];
      RebuildKeybinds();
    }

    method SetReservedKeys(keys: set<int>)
      requires Valid()
      modifies this
      ensures Valid()
      ensures reservedKeys == keys + {KeyEscape}
      ensures title == old(title) && items == old(items)
    {
      reservedKeys := keys + {KeyEscape};
      RebuildKeybinds();
    }

    method RebuildKeybinds()
      modifies this`keyToIndex, this`indexToKey
      ensures keyToIndex == Binds().keyToIndex && indexToKey == Binds().indexToKey
      ensures forall k | k in keyToIndex :: 0 <= keyToIndex[k] < |items|
    {
      keyToIndex := map[];
      indexToKey := map[];
      var available := AvailableKeys(items, reservedKeys);
      var autoKeyIdx := 0;
      for i := 0 to |items|
        invariant Bind(items, reservedKeys, available, i) == Keybinds(keyToIndex, indexToKey, autoKeyIdx)
      {
        var item := items[i];
        if item.hotkeyOverride.Some? {
          if item.hotkeyOverride.value !in reservedKeys {
            keyToIndex := keyToIndex[item.hotkeyOverride.value := i];
            indexToKey := indexToKey[i := item.hotkeyOverride.value];
          }
        } else if autoKeyIdx < |available| {
          var key := available[autoKeyIdx];
          keyToIndex := keyToIndex[key := i];
          indexToKey := indexToKey[i := key];
          autoKeyIdx := autoKeyIdx + 1;
        }
      }
      BindShape(items, reservedKeys, available, |items|);
    }

    /** get_hotkey_char: the bound key's letter, "?" for an unbound item. */
    function GetHotkeyChar(index: int): (r: string)
      reads this
      ensures index !in indexToKey ==> r == "?"
      ensures index in indexToKey && KeyA <= indexToKey[index] <= KeyZ ==>
                r == ["abcdefghijklmnopqrstuvwxyz"[indexToKey[index] - KeyA]]
    {
      if index in indexToKey then KeyChar(indexToKey[index]) else "?"
    }

    /** handle_key: the selected item's action result when the key is bound and the item enabled. */
    function HandleKey(key: int): (r: Option<ActionResult>)
      requires Valid()
      reads this
      ensures r.Some? <==> key in keyToIndex && items[keyToIndex[key]].enabled
      ensures r.Some? ==> r.value == items[keyToIndex[key]].action
    {
      if key in keyToIndex && items[keyToIndex[key]].enabled then Some(items[keyToIndex[key]].action) else None
    }

    /** Automatic items show the letters that are neither reserved nor overrides, in a..z order. */
    lemma AutoItemsShowLetters(i: nat)
      requires Valid() && i < |items| && items[i].hotkeyOverride.None?
      ensures var available := AvailableKeys(items, reservedKeys);
        && (AutoCount(items, i) < |available| ==>
              KeyA <= available[AutoCount(items, i)] <= KeyZ
              && GetHotkeyChar(i) == ["abcdefghijklmnopqrstuvwxyz"[available[AutoCount(items, i)] - KeyA]])
        && (AutoCount(items, i) >= |available| ==> GetHotkeyChar(i) == "?")
    {
      var available := AvailableKeys(items, reservedKeys);
      BindAssignsInOrder(items, reservedKeys, available, i);
      if AutoCount(items, i) < |available| {
        assert available[AutoCount(items, i)] in MenuKeys();
      }
    }
  }

  /** create_menu_popup: a popup of the given width; by default tall enough for border, title and items. */
  function CreateMenuPopup(menuTitle: Option<string>, itemCount: nat, width: int := 30,
                           height: Option<int> := None, title: Option<string> := None): (r: Popup)
    ensures r.width == width
    ensures height.Some? ==> r.height == height.value
    ensures height.None? ==> r.height == 2 + (if menuTitle.Some? && menuTitle.value != "" then 2 else 0) + itemCount + 1
    ensures r.title == (if title.Some? then title else menuTitle)
  {
    var titleLines := if menuTitle.Some? && menuTitle.value != "" then 2 else 0;
    Popup(width, if height.Some? then height.value else 2 + titleLines + itemCount + 1, if title.Some? then title else menuTitle)
  }

  /** The default height leaves the popup's interior a row for every item below the title. */
  lemma DefaultPopupHoldsItems(menuTitle: Option<string>, itemCount: nat, width: int, sw: int, sh: int)
    ensures var inner := CreateMenuPopup(menuTitle, itemCount, width).GetRect(sw, sh).Inner();
      inner.height >= itemCount + (if menuTitle.Some? && menuTitle.value != "" then 2 else 0)
  {
  }
}
