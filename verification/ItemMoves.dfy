/** Items going to and fro: when each call succeeds, where exactly the item goes, and what undoes it. */
module ItemMoves {
  import opened Wrappers
  import opened Scenarios
  import opened GameStates
  import opened Inventory
  import opened Conservation

  /** What lies in a room: its state if it has one, and otherwise what the scenario puts there. */
  function Lying(spec: Spec, w: World, room: string): seq<string> {
    if room in w.roomState then w.roomState[room].items
    else if room in spec.rooms then spec.rooms[room].items
    else []
  }

  /** An item is picked up exactly if it lies here, is defined and fits under the limit; it then comes
      last in the backpack and one of its kind fewer lies here. */
  lemma TakingMoves(spec: Spec, w: World, id: string)
    ensures var (w', r) := PickedUp(spec, w, id);
            && (r.Ok? <==> id in Lying(spec, w, w.currentRoom) && id in spec.items
                           && CarryWeight(spec, w.hero) + spec.items[id].weight <= 50.0)
            && (r.Err? ==> w'.hero == w.hero && multiset(Lying(spec, w', w.currentRoom)) == multiset(Lying(spec, w, w.currentRoom)))
            && (r.Ok? ==>
                  && r.value == Item(id, spec.items[id])
                  && w'.hero == w.hero.(inventory := w.hero.inventory + [r.value])
                  && multiset(Lying(spec, w', w.currentRoom)) + multiset{id} == multiset(Lying(spec, w, w.currentRoom)))
  {
    hide CarryWeight;
    if PickedUp(spec, w, id).1.Ok? {
      RemovedOnce(Lying(spec, w, w.currentRoom), id);
    }
  }

  /** An item is dropped exactly if one of that id is carried: the first such one leaves the backpack and
      lies here. */
  lemma DroppingMoves(spec: Spec, w: World, id: string)
    ensures var (w', r) := Dropped(spec, w, id);
            && (r.Ok? <==> exists i :: FirstItem(w.hero.inventory, i, id))
            && (r.Err? ==> w' == w)
            && (forall i :: r.Ok? && FirstItem(w.hero.inventory, i, id) ==>
                  && r.value == w.hero.inventory[i]
                  && w'.hero == w.hero.(inventory := w.hero.inventory[..i] + w.hero.inventory[i + 1..])
                  && Lying(spec, w', w.currentRoom) == Lying(spec, w, w.currentRoom) + [id])
  {
    var i := IndexOf(w.hero.inventory, id);
    assert i >= 0 ==> FirstItem(w.hero.inventory, i, id);
  }

  // ---------- Equipment ----------

  predicate Wearable(kind: string) { kind in {"weapon", "armor", "ring", "amulet"} }

  /** What is worn in the slot of that kind. */
  function WornAs(e: Equipment, kind: string): string {
    if kind == "weapon" then e.weapon else if kind == "armor" then e.armor
    else if kind == "ring" then e.ring else if kind == "amulet" then e.amulet else ""
  }

  /** An item is put on exactly if the first one of that id is a weapon, armour, ring or amulet and
      nothing is worn as such; it then is, and what is worn otherwise stays. */
  lemma WearingFits(w: World, id: string)
    ensures var (w', r) := EquippedWith(w, id);
            && (r.Ok? <==> exists i :: FirstItem(w.hero.inventory, i, id) && Wearable(w.hero.inventory[i].def.kind)
                             && WornAs(w.hero.equipped, w.hero.inventory[i].def.kind) == "")
            && (r.Err? ==> w' == w)
            && (forall i :: r.Ok? && FirstItem(w.hero.inventory, i, id) ==>
                  && w' == w.(hero := w.hero.(inventory := w.hero.inventory[..i] + w.hero.inventory[i + 1..], equipped := w'.hero.equipped))
                  && forall kind :: Wearable(kind) ==>
                       WornAs(w'.hero.equipped, kind) == if kind == w.hero.inventory[i].def.kind then id else WornAs(w.hero.equipped, kind))
  {
    var i := IndexOf(w.hero.inventory, id);
    assert i >= 0 ==> FirstItem(w.hero.inventory, i, id);
  }

  /** Taking off what was put on gives it back, as the scenario defines it, and leaves the slots as they
      were. */
  lemma WearingIsUndone(spec: Spec, w: World, id: string, i: nat)
    requires EquippedWith(w, id).1.Ok? && FirstItem(w.hero.inventory, i, id) && id != "" && id in spec.items
    ensures var (w', r) := UnequippedFrom(spec, EquippedWith(w, id).0, Some(EquippedWith(w, id).1.value));
            && r == Ok(Item(id, spec.items[id]))
            && w' == w.(hero := w.hero.(inventory := w.hero.inventory[..i] + w.hero.inventory[i + 1..] + [r.value]))
  {
    assert i == IndexOf(w.hero.inventory, id);
  }
}
