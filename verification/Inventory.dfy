/** Picking up, dropping, equipping, unequipping and using items. */
module Inventory {
  import opened Wrappers
  import opened Scenarios
  import opened GameStates

  const MAX_CARRY_WEIGHT: real := 50.0

  // ---------- Lists of items ----------

  function Ids(inv: seq<Item>): seq<string> {
    seq(|inv|, i requires 0 <= i < |inv| => inv[i].id)
  }

  /** The index of the first inventory item with this id, or -1. */
  function IndexOf(inv: seq<Item>, id: string): (r: int)
    ensures -1 <= r < |inv|
    ensures r >= 0 ==> inv[r].id == id && forall j :: 0 <= j < r ==> inv[j].id != id
    ensures r < 0 ==> forall j :: 0 <= j < |inv| ==> inv[j].id != id
  {
    var r := PlaceOf(Ids(inv), id);
    assert forall j :: 0 <= j < |inv| ==> Ids(inv)[j] == inv[j].id;
    assert r >= 0 ==> forall j :: 0 <= j < r ==> Ids(inv)[..r][j] == inv[j].id;
    r
  }

  /** `i` is the place of the first item of that id. */
  predicate FirstItem(inv: seq<Item>, i: int, id: string) {
    0 <= i < |inv| && inv[i].id == id && forall j :: 0 <= j < i ==> inv[j].id != id
  }

  function Without<T>(s: seq<T>, i: nat): seq<T>
    requires i < |s|
  {
    s[..i] + s[i + 1..]
  }

  /** `s` without the first occurrence of `x`. */
  function RemoveFirst(s: seq<string>, x: string): seq<string> {
    if s == [] then [] else if s[0] == x then s[1..] else [s[0]] + RemoveFirst(s[1..], x)
  }

  function EquippedIds(e: Equipment): seq<string> {
    (if e.weapon != "" then [e.weapon] else []) + (if e.armor != "" then [e.armor] else [])
    + (if e.ring != "" then [e.ring] else []) + (if e.amulet != "" then [e.amulet] else [])
  }

  function InventoryWeight(inv: seq<Item>): real {
    if inv == [] then 0.0 else InventoryWeight(inv[..|inv| - 1]) + inv[|inv| - 1].def.weight
  }

  /** Equipped ids the scenario does not define weigh nothing. */
  function IdsWeight(spec: Spec, ids: seq<string>): real {
    if ids == [] then 0.0
    else IdsWeight(spec, ids[..|ids| - 1])
         + if ids[|ids| - 1] in spec.items then spec.items[ids[|ids| - 1]].weight else 0.0
  }

  function CarryWeight(spec: Spec, h: Character): real {
    InventoryWeight(h.inventory) + IdsWeight(spec, EquippedIds(h.equipped))
  }

  method TotalCarryWeight(spec: Spec, h: Character) returns (w: real)
    ensures w == CarryWeight(spec, h)
  {
    w := 0.0;
    for i := 0 to |h.inventory|
      invariant w == InventoryWeight(h.inventory[..i])
    {
      hide InventoryWeight;
      InventoryWeightStep(h.inventory, i);
      w := w + h.inventory[i].def.weight;
    }
    assert h.inventory[..|h.inventory|] == h.inventory;
    var ids := EquippedIds(h.equipped);
    ghost var pack := w;
    for i := 0 to |ids|
      invariant w == pack + IdsWeight(spec, ids[..i])
    {
      hide IdsWeight, EquippedIds;
      IdsWeightStep(spec, ids, i);
      if ids[i] in spec.items {
        w := w + spec.items[ids[i]].weight;
      }
    }
    assert ids[..|ids|] == ids;
  }

  lemma InventoryWeightStep(inv: seq<Item>, i: nat)
    requires i < |inv|
    ensures InventoryWeight(inv[..i + 1]) == InventoryWeight(inv[..i]) + inv[i].def.weight
  {
    assert inv[..i + 1][..i] == inv[..i];
  }

  lemma IdsWeightStep(spec: Spec, ids: seq<string>, i: nat)
    requires i < |ids|
    ensures IdsWeight(spec, ids[..i + 1])
         == IdsWeight(spec, ids[..i]) + if ids[i] in spec.items then spec.items[ids[i]].weight else 0.0
  {
    assert ids[..i + 1][..i] == ids[..i];
  }

  method FindItem(inv: seq<Item>, id: string) returns (idx: int)
    ensures idx == IndexOf(inv, id)
  {
    for i := 0 to |inv|
      invariant forall j :: 0 <= j < i ==> inv[j].id != id
    {
      if inv[i].id == id {
        return i;
      }
    }
    return -1;
  }

  lemma RemoveFirstStep(items: seq<string>, i: nat, x: string)
    requires i < |items|
    ensures RemoveFirst(items[i..], x) == if items[i] == x then items[i + 1..] else [items[i]] + RemoveFirst(items[i + 1..], x)
  {
    assert items[i..][1..] == items[i + 1..];
  }

  method RemoveItem(items: seq<string>, id: string) returns (rest: seq<string>, found: bool)
    ensures rest == RemoveFirst(items, id)
    ensures found <==> id in items
  {
    ghost var r := RemoveFirst(items, id);
    assert items[0..] == items;
    for i := 0 to |items|
      invariant id !in items[..i]
      invariant r == items[..i] + RemoveFirst(items[i..], id)
    {
      hide RemoveFirst;
      RemoveFirstStep(items, i, id);
      if items[i] == id {
        return items[..i] + items[i + 1..], true;
      }
      assert items[..i] + ([items[i]] + RemoveFirst(items[i + 1..], id)) == items[..i + 1] + RemoveFirst(items[i + 1..], id);
    }
    assert items[|items|..] == [] && items[..|items|] == items;
    return items, false;
  }

  // ---------- Pick up and drop ----------

  function PickedUp(spec: Spec, w: World, id: string): (World, Result<Item, EngineError>) {
    var rs := RoomStateOf(spec, w, w.currentRoom);
    var seen := Ensured(spec, w, w.currentRoom);
    if id !in rs.items then (seen, Err(ItemNotInRoom(id)))
    else if id !in spec.items then (seen, Err(ItemNotDefined(id)))
    else if CarryWeight(spec, w.hero) + spec.items[id].weight > MAX_CARRY_WEIGHT then (seen, Err(TooHeavy(id)))
    else
      var item := Item(id, spec.items[id]);
      (w.(roomState := w.roomState[w.currentRoom := rs.(items := RemoveFirst(rs.items, id))],
          hero := w.hero.(inventory := w.hero.inventory + [item])),
       Ok(item))
  }

  method PickUp(spec: Spec, state: GameState, id: string) returns (r: Result<Item, EngineError>)
    modifies state`hero, state`roomState
    ensures (state.Snap(), r) == PickedUp(spec, old(state.Snap()), id)
  {
    var rs := EnsureRoomState(spec, state, state.currentRoom);
    var present := ContainsItem(rs.items, id);
    if !present {
      return Err(ItemNotInRoom(id));
    }
    if id !in spec.items {
      return Err(ItemNotDefined(id));
    }
    var current := TotalCarryWeight(spec, state.hero);
    if current + spec.items[id].weight > MAX_CARRY_WEIGHT {
      return Err(TooHeavy(id));
    }
    var rest, found := RemoveItem(rs.items, id);
    rs := rs.(items := rest);
    state.roomState := state.roomState[state.currentRoom := rs];
    assert state.roomState == old(state.roomState)[state.currentRoom := rs];
    var item := Item(id, spec.items[id]);
    state.hero := state.hero.(inventory := state.hero.inventory + [item]);
    return Ok(item);
  }

  method ContainsItem(items: seq<string>, id: string) returns (present: bool)
    ensures present <==> id in items
  {
    for i := 0 to |items|
      invariant id !in items[..i]
    {
      if items[i] == id {
        return true;
      }
    }
    return false;
  }

  function Dropped(spec: Spec, w: World, id: string): (World, Result<Item, EngineError>) {
    var i := IndexOf(w.hero.inventory, id);
    if i < 0 then (w, Err(ItemNotInInventory(id)))
    else
      var rs := RoomStateOf(spec, w, w.currentRoom);
      (w.(hero := w.hero.(inventory := Without(w.hero.inventory, i)),
          roomState := w.roomState[w.currentRoom := rs.(items := rs.items + [id])]),
       Ok(w.hero.inventory[i]))
  }

  method Drop(spec: Spec, state: GameState, id: string) returns (r: Result<Item, EngineError>)
    modifies state`hero, state`roomState
    ensures (state.Snap(), r) == Dropped(spec, old(state.Snap()), id)
  {
    var i := FindItem(state.hero.inventory, id);
    if i == -1 {
      return Err(ItemNotInInventory(id));
    }
    var item := state.hero.inventory[i];
    state.hero := state.hero.(inventory := Without(state.hero.inventory, i));
    var rs := EnsureRoomState(spec, state, state.currentRoom);
    rs := rs.(items := rs.items + [id]);
    state.roomState := state.roomState[state.currentRoom := rs];
    assert state.roomState == old(state.roomState)[state.currentRoom := rs];
    return Ok(item);
  }

  // ---------- Equipment ----------

  function SlotForType(kind: string): Option<Slot> {
    if kind == "weapon" then Some(WeaponSlot)
    else if kind == "armor" then Some(ArmorSlot)
    else if kind == "ring" then Some(RingSlot)
    else if kind == "amulet" then Some(AmuletSlot)
    else None
  }

  function GetSlot(e: Equipment, s: Slot): string {
    match s
    case WeaponSlot => e.weapon
    case ArmorSlot => e.armor
    case RingSlot => e.ring
    case AmuletSlot => e.amulet
  }

  function SetSlot(e: Equipment, s: Slot, id: string): Equipment {
    match s
    case WeaponSlot => e.(weapon := id)
    case ArmorSlot => e.(armor := id)
    case RingSlot => e.(ring := id)
    case AmuletSlot => e.(amulet := id)
  }

  function EquippedWith(w: World, id: string): (World, Result<Slot, EngineError>) {
    var i := IndexOf(w.hero.inventory, id);
    if i < 0 then (w, Err(ItemNotInInventory(id)))
    else
      var slot := SlotForType(w.hero.inventory[i].def.kind);
      if slot.None? then (w, Err(NotEquippable(id)))
      else if GetSlot(w.hero.equipped, slot.value) != "" then (w, Err(SlotOccupied(GetSlot(w.hero.equipped, slot.value))))
      else
        (w.(hero := w.hero.(inventory := Without(w.hero.inventory, i), equipped := SetSlot(w.hero.equipped, slot.value, id))),
         Ok(slot.value))
  }

  method Equip(state: GameState, id: string) returns (r: Result<Slot, EngineError>)
    modifies state`hero
    ensures (state.Snap(), r) == EquippedWith(old(state.Snap()), id)
  {
    var i := FindItem(state.hero.inventory, id);
    if i == -1 {
      return Err(ItemNotInInventory(id));
    }
    var slot := SlotForType(state.hero.inventory[i].def.kind);
    if slot.None? {
      return Err(NotEquippable(id));
    }
    var existing := GetSlot(state.hero.equipped, slot.value);
    if existing != "" {
      return Err(SlotOccupied(existing));
    }
    state.hero := state.hero.(inventory := Without(state.hero.inventory, i));
    state.hero := state.hero.(equipped := SetSlot(state.hero.equipped, slot.value, id));
    return Ok(slot.value);
  }

  /** None stands for a slot name the game does not know. */
  function UnequippedFrom(spec: Spec, w: World, slot: Option<Slot>): (World, Result<Item, EngineError>) {
    if slot.None? || GetSlot(w.hero.equipped, slot.value) == "" then (w, Err(SlotEmpty))
    else
      var id := GetSlot(w.hero.equipped, slot.value);
      if id !in spec.items then (w, Err(ItemNotDefined(id)))
      else
        var item := Item(id, spec.items[id]);
        (w.(hero := w.hero.(equipped := SetSlot(w.hero.equipped, slot.value, ""), inventory := w.hero.inventory + [item])),
         Ok(item))
  }

  method Unequip(spec: Spec, state: GameState, slot: Option<Slot>) returns (r: Result<Item, EngineError>)
    modifies state`hero
    ensures (state.Snap(), r) == UnequippedFrom(spec, old(state.Snap()), slot)
  {
    if slot.None? {
      return Err(SlotEmpty);
    }
    var id := GetSlot(state.hero.equipped, slot.value);
    if id == "" {
      return Err(SlotEmpty);
    }
    if id !in spec.items {
      return Err(ItemNotDefined(id));
    }
    var item := Item(id, spec.items[id]);
    state.hero := state.hero.(equipped := SetSlot(state.hero.equipped, slot.value, ""));
    state.hero := state.hero.(inventory := state.hero.inventory + [item]);
    return Ok(item);
  }

  // ---------- Consumables ----------

  /** `roll` is None when the item's power is no dice notation. */
  function Consumed(w: World, id: string, roll: Option<int>): (World, Result<Item, EngineError>) {
    var i := IndexOf(w.hero.inventory, id);
    if i < 0 then (w, Err(ItemNotInInventory(id)))
    else
      var item := w.hero.inventory[i];
      if item.def.kind != "consumable" then (w, Err(NotConsumable(id)))
      else if item.def.effect != "heal" || item.def.power == "" || roll.None? then (w, Err(BadConsumable(id)))
      else
        var hp := w.hero.hp + AtLeastOne(roll.value);
        (w.(hero := w.hero.(hp := if hp > w.hero.maxHP then w.hero.maxHP else hp,
                            inventory := Without(w.hero.inventory, i))),
         Ok(item))
  }

  method UseItem(state: GameState, id: string, roll: Option<int>) returns (r: Result<Item, EngineError>)
    modifies state`hero
    ensures (state.Snap(), r) == Consumed(old(state.Snap()), id, roll)
  {
    var i := FindItem(state.hero.inventory, id);
    if i == -1 {
      return Err(ItemNotInInventory(id));
    }
    var item := state.hero.inventory[i];
    if item.def.kind != "consumable" {
      return Err(NotConsumable(id));
    }
    if item.def.effect != "heal" {
      return Err(BadConsumable(id));
    }
    if item.def.power == "" {
      return Err(BadConsumable(id));
    }
    if roll.None? {
      return Err(BadConsumable(id));
    }
    state.hero := state.hero.(hp := state.hero.hp + AtLeastOne(roll.value));
    if state.hero.hp > state.hero.maxHP {
      state.hero := state.hero.(hp := state.hero.maxHP);
    }
    state.hero := state.hero.(inventory := Without(state.hero.inventory, i));
    return Ok(item);
  }
}
