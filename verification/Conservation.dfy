/** Items are neither created nor lost: what the rooms, the backpack and the body hold together
    stays the same until something is used up. */
module Conservation {
  import opened Wrappers
  import opened Scenarios
  import opened GameStates
  import opened Combat
  import opened Inventory

  // ---------- Counting items ----------

  /** All item ids lying in rooms. */
  ghost function RoomItems(rooms: map<string, RoomState>): multiset<string> {
    if rooms == map[] then multiset{}
    else var r :| r in rooms; multiset(rooms[r].items) + RoomItems(rooms - {r})
  }

  lemma {:induction false} RoomItemsAt(rooms: map<string, RoomState>, r: string)
    requires r in rooms
    ensures RoomItems(rooms) == multiset(rooms[r].items) + RoomItems(rooms - {r})
    decreases |rooms|
  {
    var q :| q in rooms && RoomItems(rooms) == multiset(rooms[q].items) + RoomItems(rooms - {q});
    if q != r {
      RoomItemsAt(rooms - {q}, r);
      RoomItemsAt(rooms - {r}, q);
      assert rooms - {q} - {r} == rooms - {r} - {q};
    }
  }

  /** The items of all rooms but `r`. */
  ghost function Elsewhere(rooms: map<string, RoomState>, r: string): multiset<string> {
    RoomItems(rooms - {r})
  }

  lemma RoomItemsSplit(rooms: map<string, RoomState>, r: string, rs: RoomState)
    ensures RoomItems(rooms[r := rs]) == multiset(rs.items) + Elsewhere(rooms, r)
    ensures r in rooms ==> RoomItems(rooms) == multiset(rooms[r].items) + Elsewhere(rooms, r)
    ensures r !in rooms ==> RoomItems(rooms) == Elsewhere(rooms, r)
  {
    RoomItemsAt(rooms[r := rs], r);
    assert rooms[r := rs] - {r} == rooms - {r};
    if r in rooms {
      RoomItemsAt(rooms, r);
    } else {
      assert rooms - {r} == rooms;
    }
  }

  /** Everything there is: on the floor, in the backpack and on the body. */
  ghost function AllItems(w: World): multiset<string> {
    RoomItems(w.roomState) + multiset(Ids(w.hero.inventory)) + multiset(EquippedIds(w.hero.equipped))
  }

  /** Seeding the current room's state adds nothing: all of the scenario's rooms have one. */
  ghost predicate RoomsSeeded(spec: Spec, w: World) {
    forall r :: r in spec.rooms ==> r in w.roomState
  }

  /** Everything carried is the scenario's own. */
  ghost predicate PackKnown(spec: Spec, h: Character) {
    && (forall i :: 0 <= i < |h.inventory| ==>
          h.inventory[i].id in spec.items && h.inventory[i].def == spec.items[h.inventory[i].id])
    && (forall i :: 0 <= i < |EquippedIds(h.equipped)| ==> EquippedIds(h.equipped)[i] in spec.items)
  }

  /** Carried items are the scenario's own and weigh at most fifty. */
  ghost predicate PackOK(spec: Spec, h: Character) {
    PackKnown(spec, h) && CarryWeight(spec, h) <= MAX_CARRY_WEIGHT
  }

  /** No item has negative weight; scenario validation does not demand it. */
  predicate ItemsSound(spec: Spec) {
    forall id :: id in spec.items ==> spec.items[id].weight >= 0.0
  }

  lemma IdsWithout(inv: seq<Item>, i: nat)
    requires i < |inv|
    ensures multiset(Ids(inv)) == multiset(Ids(Without(inv, i))) + multiset{inv[i].id}
  {
    assert Ids(inv) == Ids(inv[..i]) + [inv[i].id] + Ids(inv[i + 1..]);
    assert Ids(Without(inv, i)) == Ids(inv[..i]) + Ids(inv[i + 1..]);
  }

  lemma {:induction false} WeightConcat(a: seq<Item>, b: seq<Item>)
    ensures InventoryWeight(a + b) == InventoryWeight(a) + InventoryWeight(b)
  {
    if b == [] {
      assert a + b == a;
    } else {
      WeightConcat(a, b[..|b| - 1]);
      assert (a + b)[..|a + b| - 1] == a + b[..|b| - 1];
    }
  }

  lemma WeightWithout(inv: seq<Item>, i: nat)
    requires i < |inv|
    ensures InventoryWeight(inv) == InventoryWeight(Without(inv, i)) + inv[i].def.weight
  {
    hide InventoryWeight;
    assert inv == (inv[..i] + [inv[i]]) + inv[i + 1..];
    WeightConcat(inv[..i] + [inv[i]], inv[i + 1..]);
    WeightSnoc(inv[..i], inv[i]);
    WeightConcat(inv[..i], inv[i + 1..]);
  }

  lemma WeightSnoc(inv: seq<Item>, item: Item)
    ensures InventoryWeight(inv + [item]) == InventoryWeight(inv) + item.def.weight
    ensures multiset(Ids(inv + [item])) == multiset(Ids(inv)) + multiset{item.id}
  {
    assert (inv + [item])[..|inv|] == inv;
    assert Ids(inv + [item]) == Ids(inv) + [item.id];
  }

  lemma {:induction false} RemovedOnce(s: seq<string>, x: string)
    requires x in s
    ensures multiset(s) == multiset(RemoveFirst(s, x)) + multiset{x}
  {
    assert s == [s[0]] + s[1..];
    if s[0] != x {
      RemovedOnce(s[1..], x);
    }
  }

  function Worn(id: string): multiset<string> { if id != "" then multiset{id} else multiset{} }

  lemma EquippedParts(e: Equipment)
    ensures multiset(EquippedIds(e)) == Worn(e.weapon) + Worn(e.armor) + Worn(e.ring) + Worn(e.amulet)
  {}

  function SlotWeight(spec: Spec, id: string): real {
    if id != "" && id in spec.items then spec.items[id].weight else 0.0
  }

  lemma NothingWeighsNothing(spec: Spec)
    ensures SlotWeight(spec, "") == 0.0
  {}

  /** Filling an empty slot adds exactly its item to what is worn. A nameless item leaves the
      slot empty, so that it adds nothing. */
  lemma SlotFilled(spec: Spec, e: Equipment, s: Slot, id: string)
    requires GetSlot(e, s) == ""
    ensures multiset(EquippedIds(SetSlot(e, s, id))) == multiset(EquippedIds(e)) + Worn(id)
    ensures IdsWeight(spec, EquippedIds(SetSlot(e, s, id))) == IdsWeight(spec, EquippedIds(e)) + SlotWeight(spec, id)
    ensures SetSlot(SetSlot(e, s, id), s, "") == e
  {
    hide EquippedIds, IdsWeight;
    SlotFilledIds(e, s, id);
    SlotFilledWeight(spec, e, s, id);
  }

  lemma FillOneOfFour(a: multiset<string>, b: multiset<string>, c: multiset<string>, x: multiset<string>)
    ensures var no := multiset{};
            && x + a + b + c == no + a + b + c + x && a + x + b + c == a + no + b + c + x
            && a + b + x + c == a + b + no + c + x && a + b + c + x == a + b + c + no + x
  {
  }

  lemma SlotFilledIds(e: Equipment, s: Slot, id: string)
    requires GetSlot(e, s) == ""
    ensures multiset(EquippedIds(SetSlot(e, s, id))) == multiset(EquippedIds(e)) + Worn(id)
  {
    hide EquippedIds, Worn;
    EquippedParts(e);
    EquippedParts(SetSlot(e, s, id));
    NothingWorn();
    match s
    case WeaponSlot => FillOneOfFour(Worn(e.armor), Worn(e.ring), Worn(e.amulet), Worn(id));
    case ArmorSlot => FillOneOfFour(Worn(e.weapon), Worn(e.ring), Worn(e.amulet), Worn(id));
    case RingSlot => FillOneOfFour(Worn(e.weapon), Worn(e.armor), Worn(e.amulet), Worn(id));
    case AmuletSlot => FillOneOfFour(Worn(e.weapon), Worn(e.armor), Worn(e.ring), Worn(id));
  }

  lemma NothingWorn()
    ensures Worn("") == multiset{}
  {}

  lemma SlotFilledWeight(spec: Spec, e: Equipment, s: Slot, id: string)
    requires GetSlot(e, s) == ""
    ensures IdsWeight(spec, EquippedIds(SetSlot(e, s, id))) == IdsWeight(spec, EquippedIds(e)) + SlotWeight(spec, id)
  {
    hide EquippedIds, IdsWeight, SlotWeight;
    EquippedWeight(spec, e);
    EquippedWeight(spec, SetSlot(e, s, id));
    NothingWeighsNothing(spec);
    match s
    case WeaponSlot =>
    case ArmorSlot =>
    case RingSlot =>
    case AmuletSlot =>
  }

  lemma EquippedWeight(spec: Spec, e: Equipment)
    ensures IdsWeight(spec, EquippedIds(e))
         == SlotWeight(spec, e.weapon) + SlotWeight(spec, e.armor) + SlotWeight(spec, e.ring) + SlotWeight(spec, e.amulet)
  {
    IdsWeightIf(spec, [], e.weapon);
    var a := if e.weapon != "" then [e.weapon] else [];
    assert [] + a == a;
    IdsWeightIf(spec, a, e.armor);
    var b := a + if e.armor != "" then [e.armor] else [];
    IdsWeightIf(spec, b, e.ring);
    var c := b + if e.ring != "" then [e.ring] else [];
    IdsWeightIf(spec, c, e.amulet);
  }

  lemma IdsWeightIf(spec: Spec, ids: seq<string>, id: string)
    ensures IdsWeight(spec, ids + if id != "" then [id] else []) == IdsWeight(spec, ids) + SlotWeight(spec, id)
  {
    if id == "" {
      assert ids + [] == ids;
    } else {
      assert (ids + [id])[..|ids|] == ids;
    }
  }

  // ---------- Each operation conserves items ----------

  lemma EnsuredConserves(spec: Spec, w: World, room: string)
    requires RoomsSeeded(spec, w)
    ensures AllItems(Ensured(spec, w, room)) == AllItems(w) && RoomsSeeded(spec, Ensured(spec, w, room))
  {
    RoomItemsSplit(w.roomState, room, RoomStateOf(spec, w, room));
  }

  lemma VictoryConserves(spec: Spec, w: World)
    requires RoomsSeeded(spec, w)
    ensures AllItems(Victory(spec, w)) == AllItems(w) && RoomsSeeded(spec, Victory(spec, w))
  {
    RoomItemsSplit(w.roomState, w.currentRoom, RoomStateOf(spec, w, w.currentRoom).(cleared := true));
  }

  lemma PickedUpConserves(spec: Spec, w: World, id: string)
    requires RoomsSeeded(spec, w)
    ensures AllItems(PickedUp(spec, w, id).0) == AllItems(w) && RoomsSeeded(spec, PickedUp(spec, w, id).0)
  {
    hide RoomItems, CarryWeight, EquippedIds, RemoveFirst;
    EnsuredConserves(spec, w, w.currentRoom);
    if PickedUp(spec, w, id).1.Ok? {
      var rs := RoomStateOf(spec, w, w.currentRoom);
      RoomItemsSplit(w.roomState, w.currentRoom, rs);
      RoomItemsSplit(w.roomState, w.currentRoom, rs.(items := RemoveFirst(rs.items, id)));
      RemovedOnce(rs.items, id);
      WeightSnoc(w.hero.inventory, Item(id, spec.items[id]));
    }
  }

  /** The weight check keeps the limit. */
  lemma PickedUpPack(spec: Spec, w: World, id: string)
    requires PackOK(spec, w.hero)
    ensures PackOK(spec, PickedUp(spec, w, id).0.hero)
  {
    hide InventoryWeight, IdsWeight, EquippedIds;
    if PickedUp(spec, w, id).1.Ok? {
      WeightSnoc(w.hero.inventory, Item(id, spec.items[id]));
    }
  }

  lemma DroppedConserves(spec: Spec, w: World, id: string)
    requires RoomsSeeded(spec, w)
    ensures AllItems(Dropped(spec, w, id).0) == AllItems(w) && RoomsSeeded(spec, Dropped(spec, w, id).0)
  {
    hide RoomItems, EquippedIds, Ids, Without;
    var i := IndexOf(w.hero.inventory, id);
    if i >= 0 {
      var rs := RoomStateOf(spec, w, w.currentRoom);
      EnsuredConserves(spec, w, w.currentRoom);
      RoomItemsSplit(w.roomState, w.currentRoom, rs);
      RoomItemsSplit(w.roomState, w.currentRoom, rs.(items := rs.items + [id]));
      IdsWithout(w.hero.inventory, i);
    }
  }

  lemma DroppedPack(spec: Spec, w: World, id: string)
    requires PackOK(spec, w.hero) && ItemsSound(spec)
    ensures PackOK(spec, Dropped(spec, w, id).0.hero)
  {
    var i := IndexOf(w.hero.inventory, id);
    if i >= 0 {
      LighterPack(spec, w.hero, i);
    }
  }

  lemma LighterPack(spec: Spec, h: Character, i: nat)
    requires PackOK(spec, h) && ItemsSound(spec) && i < |h.inventory|
    ensures PackOK(spec, h.(inventory := Without(h.inventory, i)))
  {
    hide InventoryWeight, IdsWeight, EquippedIds;
    WeightWithout(h.inventory, i);
  }

  /** Equipping loses an item exactly when it succeeds on a nameless one: the slot stays empty. */
  lemma EquippedConserves(spec: Spec, w: World, id: string)
    ensures var (w', r) := EquippedWith(w, id);
            && AllItems(w) == AllItems(w') + (if r.Ok? && id == "" then multiset{""} else multiset{})
            && (AllItems(w') == AllItems(w) <==> id != "" || r.Err?)
            && w'.roomState == w.roomState
  {
    hide RoomItems, EquippedIds, Ids, Without, InventoryWeight, IdsWeight, SetSlot, GetSlot, SlotWeight;
    var i := IndexOf(w.hero.inventory, id);
    if EquippedWith(w, id).1.Ok? {
      var slot := SlotForType(w.hero.inventory[i].def.kind).value;
      IdsWithout(w.hero.inventory, i);
      SlotFilled(spec, w.hero.equipped, slot, id);
      OneLess(AllItems(w), AllItems(EquippedWith(w, id).0));
    }
  }

  lemma OneLess(a: multiset<string>, b: multiset<string>)
    ensures a == b + multiset{""} ==> a != b
  {
    assert (b + multiset{""})[""] == b[""] + 1;
  }

  lemma EquippedPack(spec: Spec, w: World, id: string)
    requires PackOK(spec, w.hero) && ItemsSound(spec)
    ensures PackOK(spec, EquippedWith(w, id).0.hero)
  {
    hide EquippedIds, Ids, InventoryWeight, IdsWeight, SetSlot, GetSlot;
    var i := IndexOf(w.hero.inventory, id);
    if EquippedWith(w, id).1.Ok? {
      var slot := SlotForType(w.hero.inventory[i].def.kind).value;
      WeightWithout(w.hero.inventory, i);
      SlotFilled(spec, w.hero.equipped, slot, id);
      WornKnown(spec, w.hero.equipped, SetSlot(w.hero.equipped, slot, id), id);
    }
  }

  lemma WornKnown(spec: Spec, e: Equipment, f: Equipment, id: string)
    requires multiset(EquippedIds(f)) <= multiset(EquippedIds(e)) + multiset{id}
    requires forall i :: 0 <= i < |EquippedIds(e)| ==> EquippedIds(e)[i] in spec.items
    requires id in spec.items
    ensures forall i :: 0 <= i < |EquippedIds(f)| ==> EquippedIds(f)[i] in spec.items
  {
    hide EquippedIds;
    forall i | 0 <= i < |EquippedIds(f)| ensures EquippedIds(f)[i] in spec.items {
      assert EquippedIds(f)[i] in multiset(EquippedIds(f));
    }
  }

  /** Taking an item off is the reverse of filling its slot. */
  lemma SlotEmptied(e: Equipment, s: Slot)
    requires GetSlot(e, s) != ""
    ensures GetSlot(SetSlot(e, s, ""), s) == "" && SetSlot(SetSlot(e, s, ""), s, GetSlot(e, s)) == e
  {
  }

  lemma UnequippedConserves(spec: Spec, w: World, slot: Option<Slot>)
    ensures AllItems(UnequippedFrom(spec, w, slot).0) == AllItems(w)
    ensures UnequippedFrom(spec, w, slot).0.roomState == w.roomState
    ensures PackOK(spec, w.hero) ==> PackOK(spec, UnequippedFrom(spec, w, slot).0.hero)
  {
    hide RoomItems, EquippedIds, Ids, InventoryWeight, IdsWeight, SetSlot, GetSlot;
    if UnequippedFrom(spec, w, slot).1.Ok? {
      var id := GetSlot(w.hero.equipped, slot.value);
      var bare := SetSlot(w.hero.equipped, slot.value, "");
      SlotEmptied(w.hero.equipped, slot.value);
      SlotFilled(spec, bare, slot.value, id);
      WeightSnoc(w.hero.inventory, Item(id, spec.items[id]));
      if PackOK(spec, w.hero) {
        WornKnown(spec, w.hero.equipped, bare, id);
      }
    }
  }

  lemma ConsumedConserves(spec: Spec, w: World, id: string, power: Option<int>)
    ensures var (w', r) := Consumed(w, id, power);
            && AllItems(w) == AllItems(w') + (if r.Ok? then multiset{id} else multiset{})
            && w'.roomState == w.roomState
            && (PackOK(spec, w.hero) && ItemsSound(spec) ==> PackOK(spec, w'.hero))
  {
    hide RoomItems, EquippedIds, Ids, InventoryWeight, IdsWeight, Without;
    var i := IndexOf(w.hero.inventory, id);
    if i >= 0 {
      IdsWithout(w.hero.inventory, i);
      if PackOK(spec, w.hero) && ItemsSound(spec) {
        LighterPack(spec, w.hero, i);
      }
    }
  }
}
