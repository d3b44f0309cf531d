/**
 * The values the player inventory of `PlayerInventory.cs` stores, and the
 * pure rules its insertion loops follow: a search for the first empty slot,
 * and the stacking of an item's amount into stacks of the same name.
 */
module InventoryItems {
  import opened Options

  /**
   * A stack of a usable item. The source's Item class is not part of this
   * model; its name, its current amount and a capacity are all the rules here
   * need.
   */
  datatype Item = Item(name: string, amount: int, maxAmount: int)

  /** Values standing for the source's object references (List.Contains compares references). */
  datatype Weapon = Weapon(id: int)
  datatype Ability = Ability(id: int, name: string)
  datatype Memento = Memento(id: int)

  /**
   * Item.AddAmount: the stack takes as much of `incoming` as fits below its
   * capacity and reports the leftover, which is never negative; nothing is
   * created or lost, and a positive leftover means the stack is full.
   */
  function AddAmount(stack: Item, incoming: int): (r: (Item, int))
    ensures r.0.name == stack.name && r.0.maxAmount == stack.maxAmount
    ensures r.1 >= 0 && r.0.amount + r.1 == stack.amount + incoming
    ensures r.1 > 0 ==> r.0.amount >= r.0.maxAmount
  {
    var room := if stack.maxAmount > stack.amount then stack.maxAmount - stack.amount else 0;
    if incoming <= room then (stack.(amount := stack.amount + incoming), 0)
    else (stack.(amount := stack.amount + room), incoming - room)
  }

  /** Item.RemoveAmount: lowers the amount by k and changes nothing else. */
  function RemoveAmount(item: Item, k: int): (r: Item)
    ensures r.name == item.name && r.maxAmount == item.maxAmount && r.amount == item.amount - k
  {
    item.(amount := item.amount - k)
  }

  /** The index of the first empty slot, if there is one. */
  function FirstFree<T>(s: seq<Option<T>>): (r: Option<nat>)
    ensures r.Some? ==> r.value < |s| && s[r.value].None? && forall k | 0 <= k < r.value :: s[k].Some?
    ensures r.None? ==> forall k | 0 <= k < |s| :: s[k].Some?
  {
    if s == [] then None
    else if s[0].None? then Some(0)
    else
      match FirstFree(s[1..])
      case None => None
      case Some(j) => Some(j + 1)
  }

  // ---------------------------------------------------------------------------
  // Stacking (the first loop of AddItem)
  // ---------------------------------------------------------------------------

  /**
   * Where the stacking loop ends: the slots, the incoming item with the amount
   * still to place, and whether a stack took the last of it.
   */
  datatype Stacking = Stacking(slots: seq<Option<Item>>, rest: Item, done: bool)

  /** A slot holds a stack of this name. */
  predicate SameName(o: Option<Item>, name: string) {
    o.Some? && o.value.name == name
  }

  /**
   * The stacking loop from index i on: every stack of the incoming item's
   * name takes what it can; the loop carries on while a positive leftover
   * remains and stops as soon as it does not.
   */
  function StackFrom(slots: seq<Option<Item>>, i: nat, incoming: Item): (r: Stacking)
    requires i <= |slots|
    ensures |r.slots| == |slots|
    decreases |slots| - i
  {
    if i == |slots| then Stacking(slots, incoming, false)
    else if SameName(slots[i], incoming.name) then
      var (s, left) := AddAmount(slots[i].value, incoming.amount);
      if left > 0 then StackFrom(slots[i := Some(s)], i + 1, incoming.(amount := left))
      else Stacking(slots[i := Some(s)], incoming.(amount := left), true)
    else StackFrom(slots, i + 1, incoming)
  }

  /** The units of items of one name held in the slots; none without a stack of that name. */
  function Units(slots: seq<Option<Item>>, name: string): (r: int)
    ensures (forall k | 0 <= k < |slots| :: !SameName(slots[k], name)) ==> r == 0
    decreases |slots|
  {
    if slots == [] then 0
    else
      assert forall k | 0 <= k < |slots[1..]| :: slots[1..][k] == slots[k + 1];
      (if SameName(slots[0], name) then slots[0].value.amount else 0) + Units(slots[1..], name)
  }

  function Held(o: Option<Item>, name: string): int {
    if SameName(o, name) then o.value.amount else 0
  }

  /** Replacing one slot changes the units of a name by the difference of the two slots' holdings. */
  lemma {:induction false} UnitsUpdate(slots: seq<Option<Item>>, i: nat, o: Option<Item>, name: string)
    requires i < |slots|
    ensures Units(slots[i := o], name) == Units(slots, name) - Held(slots[i], name) + Held(o, name)
    decreases |slots|
  {
    var t := slots[i := o];
    if i > 0 {
      var tail := slots[1..][i - 1 := o];
      assert |t[1..]| == |tail| && forall k | 0 <= k < |tail| :: t[1..][k] == tail[k];
      assert t[1..] == tail;
      UnitsUpdate(slots[1..], i - 1, o, name);
    } else {
      assert |t[1..]| == |slots[1..]| && forall k | 0 <= k < |t[1..]| :: t[1..][k] == slots[1..][k];
      assert t[1..] == slots[1..];
    }
  }

  /**
   * Stacking moves units and creates none: what the slots gain of the item's
   * name is what the incoming amount lost; the incoming item keeps its name,
   * it has nothing left when the loop stopped early, and otherwise either a
   * positive leftover or its untouched amount.
   */
  lemma {:induction false} StackConserves(slots: seq<Option<Item>>, i: nat, incoming: Item)
    requires i <= |slots|
    ensures var r := StackFrom(slots, i, incoming);
            && r.rest.name == incoming.name && r.rest.maxAmount == incoming.maxAmount
            && Units(r.slots, incoming.name) + r.rest.amount == Units(slots, incoming.name) + incoming.amount
            && (r.done ==> r.rest.amount == 0)
            && (!r.done ==> r.rest.amount == incoming.amount || r.rest.amount > 0)
    decreases |slots| - i
  {
    if i < |slots| && SameName(slots[i], incoming.name) {
      var (s, left) := AddAmount(slots[i].value, incoming.amount);
      UnitsUpdate(slots, i, Some(s), incoming.name);
      if left > 0 {
        StackConserves(slots[i := Some(s)], i + 1, incoming.(amount := left));
      }
    } else if i < |slots| {
      StackConserves(slots, i + 1, incoming);
    }
  }

  /**
   * Stacking touches only stacks of the incoming name at or beyond i: every
   * other slot is unchanged, no slot is emptied or filled, and no stack is
   * renamed.
   */
  lemma {:induction false} StackShape(slots: seq<Option<Item>>, i: nat, incoming: Item)
    requires i <= |slots|
    ensures var r := StackFrom(slots, i, incoming);
            forall k | 0 <= k < |slots| ::
              && (r.slots[k].Some? <==> slots[k].Some?)
              && (slots[k].Some? ==> r.slots[k].value.name == slots[k].value.name)
              && (k < i || !SameName(slots[k], incoming.name) ==> r.slots[k] == slots[k])
    decreases |slots| - i
  {
    if i < |slots| && SameName(slots[i], incoming.name) {
      var (s, left) := AddAmount(slots[i].value, incoming.amount);
      if left > 0 {
        StackShape(slots[i := Some(s)], i + 1, incoming.(amount := left));
      }
    } else if i < |slots| {
      StackShape(slots, i + 1, incoming);
    }
  }

  // ---------------------------------------------------------------------------
  // AddItem as a whole
  // ---------------------------------------------------------------------------

  /**
   * AddItem on the slot contents: stack first; if something is left, put the
   * item with what is left into the first empty slot. The flag is the
   * source's return value; a false result keeps the partial stacking.
   */
  function AddItemSlots(slots: seq<Option<Item>>, item: Item): (r: (seq<Option<Item>>, bool))
    ensures |r.0| == |slots|
  {
    var st := StackFrom(slots, 0, item);
    if st.done then (st.slots, true)
    else
      match FirstFree(st.slots)
      case None => (st.slots, false)
      case Some(j) => (st.slots[j := Some(st.rest)], true)
  }

  /**
   * AddItem reports success exactly when a stack took the last of the amount
   * or a slot was empty; on success every unit of the item is held, and on
   * failure every slot is occupied and the units that did not fit are lost.
   */
  lemma AddItemOutcome(slots: seq<Option<Item>>, item: Item)
    ensures var (after, added) := AddItemSlots(slots, item);
            var st := StackFrom(slots, 0, item);
            && (added <==> st.done || FirstFree(slots).Some?)
            && (added ==> Units(after, item.name) == Units(slots, item.name) + item.amount)
            && (!added ==> (forall k | 0 <= k < |slots| :: slots[k].Some?)
                           && after == st.slots
                           && Units(after, item.name) == Units(slots, item.name) + item.amount - st.rest.amount)
  {
    var st := StackFrom(slots, 0, item);
    StackConserves(slots, 0, item);
    StackShape(slots, 0, item);
    FreeSlotsAgree(slots, st.slots);
    if !st.done {
      var f := FirstFree(st.slots);
      if f.Some? {
        UnitsUpdate(st.slots, f.value, Some(st.rest), item.name);
      }
    }
  }

  /** Two slot sequences with the same occupancy have the same first empty slot. */
  lemma {:induction false} FreeSlotsAgree<T, U>(s: seq<Option<T>>, t: seq<Option<U>>)
    requires |s| == |t| && forall k | 0 <= k < |s| :: (s[k].Some? <==> t[k].Some?)
    ensures FirstFree(s) == FirstFree(t)
    decreases |s|
  {
    if s != [] && s[0].Some? {
      FreeSlotsAgree(s[1..], t[1..]);
    }
  }

  /**
   * AddItem changes only stacks of the item's name and the slot it fills;
   * every other slot keeps its content.
   */
  lemma AddItemFrame(slots: seq<Option<Item>>, item: Item, k: nat)
    requires k < |slots| && !SameName(slots[k], item.name)
    requires FirstFree(slots).Some? ==> k != FirstFree(slots).value
    ensures AddItemSlots(slots, item).0[k] == slots[k]
  {
    var st := StackFrom(slots, 0, item);
    StackShape(slots, 0, item);
    FreeSlotsAgree(slots, st.slots);
  }
}
