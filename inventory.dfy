/**
 * The player inventory of `PlayerInventory.cs`: two fixed-size slot arrays
 * (items and weapons), two duplicate-free lists (mementos and abilities),
 * the equipped index of each kind and the emotional-energy counter.
 */
module Inventory {
  import opened Options
  import opened InventoryItems

  /** C#'s 32-bit `int`. */
  newtype Int32 = x: int | -0x8000_0000 <= x < 0x8000_0000

  /**
   * C#'s unchecked int arithmetic: the exact result brought back into the
   * 32-bit range by two's-complement wrap-around.
   */
  function Wrap(x: int): (r: Int32)
    ensures -0x8000_0000 <= x < 0x8000_0000 ==> r as int == x
    ensures (r as int - x) % 0x1_0000_0000 == 0
  {
    ((x + 0x8000_0000) % 0x1_0000_0000 - 0x8000_0000) as Int32
  }

  /**
   * The wrap-around reaches SubtractEmotionialEnergy: an empty counter passes
   * the "enough energy" test for int.MinValue, and the subtraction leaves it
   * at int.MinValue.
   */
  lemma SubtractMinValueWraps()
    ensures var counter: Int32 := 0;
            var amount: Int32 := -0x8000_0000;
            counter >= amount && Wrap(counter as int - amount as int) == -0x8000_0000
  {
  }

  predicate NoDuplicates<T(==)>(s: seq<T>) {
    forall i, j | 0 <= i < j < |s| :: s[i] != s[j]
  }

  /** Appending a value the list does not hold keeps it duplicate-free. */
  lemma AppendFresh<T>(s: seq<T>, x: T)
    requires NoDuplicates(s) && x !in s
    ensures NoDuplicates(s + [x])
  {
    forall i, j | 0 <= i < j < |s + [x]|
      ensures (s + [x])[i] != (s + [x])[j]
    {
      if j == |s| {
        assert (s + [x])[i] == s[i];
      }
    }
  }

  class PlayerInventory {
    var emotionalEnergy: Int32
    const weaponsInventory: array<Option<Weapon>>
    const itemsInventory: array<Option<Item>>
    var mementosInventory: seq<Memento>
    var abilitiesInventory: seq<Ability>
    var currentWeaponIndex: int
    var currentItemIndex: int
    var currentAbilityIndex: int
    var currentMementoIndex: int

    /**
     * What the operations keep: a non-negative equipped index names an
     * occupied slot or an existing list entry, an item and an ability are
     * never equipped together, and the lists hold no duplicates.
     */
    ghost predicate Valid()
      reads this, weaponsInventory, itemsInventory
    {
      && (currentWeaponIndex >= 0 ==> currentWeaponIndex < weaponsInventory.Length && weaponsInventory[currentWeaponIndex].Some?)
      && (currentItemIndex >= 0 ==> currentItemIndex < itemsInventory.Length && itemsInventory[currentItemIndex].Some?)
      && currentAbilityIndex < |abilitiesInventory|
      && currentMementoIndex < |mementosInventory|
      && (currentItemIndex < 0 || currentAbilityIndex < 0)
      && NoDuplicates(mementosInventory)
      && NoDuplicates(abilitiesInventory)
    }

    /** Awake on a fresh inventory: empty slots and lists, nothing equipped. */
    constructor (itemInventorySize: nat, weaponInventorySize: nat)
      ensures Valid()
      ensures itemsInventory.Length == itemInventorySize && weaponsInventory.Length == weaponInventorySize
      ensures fresh(itemsInventory) && fresh(weaponsInventory)
      ensures forall k | 0 <= k < itemInventorySize :: itemsInventory[k].None?
      ensures forall k | 0 <= k < weaponInventorySize :: weaponsInventory[k].None?
      ensures mementosInventory == [] && abilitiesInventory == []
      ensures currentWeaponIndex == -1 && currentItemIndex == -1
      ensures currentAbilityIndex == -1 && currentMementoIndex == -1
      ensures emotionalEnergy == 0
    {
      emotionalEnergy := 0;
      currentWeaponIndex := -1;
      currentItemIndex := -1;
      currentAbilityIndex := -1;
      currentMementoIndex := -1;
      itemsInventory := new Option<Item>[itemInventorySize](_ => None);
      weaponsInventory := new Option<Weapon>[weaponInventorySize](_ => None);
      abilitiesInventory := [];
      mementosInventory := [];
    }

    // -------------------------------------------------------------------------
    // Lookups
    // -------------------------------------------------------------------------

    /** The weapon in a slot; nothing for an index outside the array or an empty slot. */
    function GetWeapon(index: int): (r: Option<Weapon>)
      reads this, weaponsInventory
      ensures r.Some? <==> 0 <= index < weaponsInventory.Length && weaponsInventory[index].Some?
      ensures r.Some? ==> r == weaponsInventory[index]
    {
      if 0 <= index < weaponsInventory.Length then weaponsInventory[index] else None
    }

    /** The item in a slot; nothing for an index outside the array or an empty slot. */
    function GetItem(index: int): (r: Option<Item>)
      reads this, itemsInventory
      ensures r.Some? <==> 0 <= index < itemsInventory.Length && itemsInventory[index].Some?
      ensures r.Some? ==> r == itemsInventory[index]
    {
      if 0 <= index < itemsInventory.Length then itemsInventory[index] else None
    }

    /** The ability at a list position; nothing for a position outside the list. */
    function GetAbility(index: int): (r: Option<Ability>)
      reads this
      ensures r.Some? <==> 0 <= index < |abilitiesInventory|
      ensures r.Some? ==> r.value == abilitiesInventory[index]
    {
      if 0 <= index < |abilitiesInventory| then Some(abilitiesInventory[index]) else None
    }

    /** The memento at a list position; nothing for a position outside the list. */
    function GetMemento(index: int): (r: Option<Memento>)
      reads this
      ensures r.Some? <==> 0 <= index < |mementosInventory|
      ensures r.Some? ==> r.value == mementosInventory[index]
    {
      if 0 <= index < |mementosInventory| then Some(mementosInventory[index]) else None
    }

    /** The equipped weapon: present exactly when the equipped index is non-negative. */
    function CurrentWeapon(): (r: Option<Weapon>)
      requires Valid()
      reads this, weaponsInventory, itemsInventory
      ensures r.Some? <==> currentWeaponIndex >= 0
    {
      GetWeapon(currentWeaponIndex)
    }

    /**
     * The equipped item: present exactly when the equipped index is
     * non-negative, and never together with an equipped ability.
     */
    function CurrentItem(): (r: Option<Item>)
      requires Valid()
      reads this, weaponsInventory, itemsInventory
      ensures r.Some? <==> currentItemIndex >= 0
      ensures r.Some? ==> GetAbility(currentAbilityIndex).None?
    {
      GetItem(currentItemIndex)
    }

    /** The equipped ability: present exactly when the equipped index is non-negative. */
    function CurrentAbility(): (r: Option<Ability>)
      requires Valid()
      reads this, weaponsInventory, itemsInventory
      ensures r.Some? <==> currentAbilityIndex >= 0
    {
      GetAbility(currentAbilityIndex)
    }

    /** The equipped memento: present exactly when the equipped index is non-negative. */
    function CurrentMemento(): (r: Option<Memento>)
      requires Valid()
      reads this, weaponsInventory, itemsInventory
      ensures r.Some? <==> currentMementoIndex >= 0
    {
      GetMemento(currentMementoIndex)
    }

    /** The first ability of the given name, or -1 when the list has none. */
    method HasAbility(abilityName: string) returns (index: int)
      ensures -1 <= index < |abilitiesInventory|
      ensures index >= 0 ==> abilitiesInventory[index].name == abilityName
      ensures index >= 0 ==> forall k | 0 <= k < index :: abilitiesInventory[k].name != abilityName
      ensures index < 0 ==> forall k | 0 <= k < |abilitiesInventory| :: abilitiesInventory[k].name != abilityName
    {
      for i := 0 to |abilitiesInventory|
        invariant forall k | 0 <= k < i :: abilitiesInventory[k].name != abilityName
      {
        if abilitiesInventory[i].name == abilityName {
          return i;
        }
      }
      return -1;
    }

    // -------------------------------------------------------------------------
    // Equipping
    // -------------------------------------------------------------------------

    /** Equips the weapon slot if it is occupied; a negative index unequips. */
    method EquipWeapon(index: int)
      requires Valid()
      modifies this`currentWeaponIndex
      ensures Valid()
      ensures currentWeaponIndex == if GetWeapon(index).Some? || index < 0 then index else old(currentWeaponIndex)
    {
      var weapon := GetWeapon(index);
      if weapon.Some? || index < 0 {
        currentWeaponIndex := index;
      }
    }

    /** Equips the item slot if it is occupied, unequipping the ability; a negative index unequips both. */
    method EquipItem(index: int)
      requires Valid()
      modifies this`currentItemIndex, this`currentAbilityIndex
      ensures Valid()
      ensures GetItem(index).Some? || index < 0 ==> currentItemIndex == index && currentAbilityIndex == -1
      ensures !(GetItem(index).Some? || index < 0) ==>
                currentItemIndex == old(currentItemIndex) && currentAbilityIndex == old(currentAbilityIndex)
    {
      var item := GetItem(index);
      if item.Some? || index < 0 {
        currentItemIndex := index;
        currentAbilityIndex := -1;
      }
    }

    /** Equips the ability at a list position, unequipping the item; a negative index unequips both. */
    method EquipPlayerAbility(index: int)
      requires Valid()
      modifies this`currentItemIndex, this`currentAbilityIndex
      ensures Valid()
      ensures index < |abilitiesInventory| ==> currentAbilityIndex == index && currentItemIndex == -1
      ensures index >= |abilitiesInventory| ==>
                currentItemIndex == old(currentItemIndex) && currentAbilityIndex == old(currentAbilityIndex)
    {
      var ability := if index >= 0 && index < |abilitiesInventory| then Some(abilitiesInventory[index]) else None;
      if ability.Some? || index < 0 {
        currentAbilityIndex := index;
        currentItemIndex := -1;
      }
    }

    /** Equips the memento at a list position; a position past the end changes nothing. */
    method EquipMemento(index: int)
      requires Valid() && index >= 0
      modifies this`currentMementoIndex
      ensures Valid()
      ensures currentMementoIndex == if index < |mementosInventory| then index else old(currentMementoIndex)
    {
      var mementos := if index < |mementosInventory| then Some(mementosInventory[index]) else None;
      if mementos.Some? {
        currentMementoIndex := index;
      }
    }

    // -------------------------------------------------------------------------
    // Adding
    // -------------------------------------------------------------------------

    /**
     * Stacks the item's amount into stacks of its name, then puts what is
     * left into the first empty slot; the slots and the result are those of
     * AddItemSlots, whose lemmas say what is stored and what is lost.
     */
    method AddItem(item: Item) returns (added: bool)
      requires Valid()
      modifies itemsInventory
      ensures Valid()
      ensures (itemsInventory[..], added) == AddItemSlots(old(itemsInventory[..]), item)
    {
      ghost var st := StackFrom(itemsInventory[..], 0, item);
      StackShape(itemsInventory[..], 0, item);
      var incoming := item;
      for i := 0 to itemsInventory.Length
        invariant StackFrom(itemsInventory[..], i, incoming) == st
        invariant forall k | 0 <= k < itemsInventory.Length :: itemsInventory[k].Some? == old(itemsInventory[k]).Some?
      {
        if itemsInventory[i].Some? && itemsInventory[i].value.name == incoming.name {
          ghost var before := itemsInventory[..];
          var (stack, newAmount) := AddAmount(itemsInventory[i].value, incoming.amount);
          itemsInventory[i] := Some(stack);
          assert forall k | 0 <= k < itemsInventory.Length :: itemsInventory[..][k] == before[i := Some(stack)][k];
          assert itemsInventory[..] == before[i := Some(stack)];
          if newAmount > 0 {
            incoming := incoming.(amount := newAmount);
            continue;
          }
          return true;
        }
      }
      assert itemsInventory[..] == st.slots && incoming == st.rest && !st.done;
      for i := 0 to itemsInventory.Length
        invariant itemsInventory[..] == st.slots
        invariant forall k | 0 <= k < i :: st.slots[k].Some?
      {
        if itemsInventory[i].None? {
          assert FirstFree(st.slots) == Some(i);
          itemsInventory[i] := Some(incoming);
          assert forall k | 0 <= k < itemsInventory.Length :: itemsInventory[..][k] == st.slots[i := Some(st.rest)][k];
          assert itemsInventory[..] == st.slots[i := Some(st.rest)];
          return true;
        }
      }
      assert FirstFree(st.slots) == None;
      return false;
    }

    /**
     * Stores a weapon in the first empty slot. It fails, changing nothing,
     * when there is no weapon or no empty slot.
     */
    method AddWeapon(weapon: Option<Weapon>) returns (added: bool)
      requires Valid()
      modifies weaponsInventory
      ensures Valid()
      ensures added <==> weapon.Some? && FirstFree(old(weaponsInventory[..])).Some?
      ensures added ==> weaponsInventory[..] == old(weaponsInventory[..])[FirstFree(old(weaponsInventory[..])).value := weapon]
      ensures !added ==> weaponsInventory[..] == old(weaponsInventory[..])
    {
      for i := 0 to weaponsInventory.Length
        invariant weapon.Some? ==> forall k | 0 <= k < i :: weaponsInventory[k].Some?
      {
        if weapon.Some? && weaponsInventory[i].None? {
          assert FirstFree(weaponsInventory[..]) == Some(i);
          weaponsInventory[i] := weapon;
          return true;
        }
      }
      assert weapon.Some? ==> FirstFree(weaponsInventory[..]) == None;
      return false;
    }

    /** Appends a memento the list does not hold yet; the result says whether the list grew. */
    method AddMemento(memento: Option<Memento>) returns (added: bool)
      requires Valid()
      modifies this`mementosInventory
      ensures Valid()
      ensures added <==> memento.Some? && memento.value !in old(mementosInventory)
      ensures mementosInventory == if added then old(mementosInventory) + [memento.value] else old(mementosInventory)
    {
      if memento.Some? && memento.value !in mementosInventory {
        AppendFresh(mementosInventory, memento.value);
        mementosInventory := mementosInventory + [memento.value];
        return true;
      } else {
        return false;
      }
    }

    /**
     * Appends an ability the list does not hold yet and returns its position,
     * or returns -1 and changes nothing.
     */
    method AddPlayerAbility(ability: Option<Ability>) returns (index: int)
      requires Valid()
      modifies this`abilitiesInventory
      ensures Valid()
      ensures index >= 0 <==> ability.Some? && ability.value !in old(abilitiesInventory)
      ensures index >= 0 ==> abilitiesInventory == old(abilitiesInventory) + [ability.value]
                             && index == |old(abilitiesInventory)| && GetAbility(index) == ability
      ensures index < 0 ==> index == -1 && abilitiesInventory == old(abilitiesInventory)
    {
      if ability.Some? && ability.value !in abilitiesInventory {
        AppendFresh(abilitiesInventory, ability.value);
        abilitiesInventory := abilitiesInventory + [ability.value];
        return |abilitiesInventory| - 1;
      } else {
        return -1;
      }
    }

    // -------------------------------------------------------------------------
    // Removing and using
    // -------------------------------------------------------------------------

    /** Empties an occupied weapon slot, unequipping it first if it is the equipped one. */
    method RemoveWeapon(index: int)
      requires Valid()
      modifies weaponsInventory, this`currentWeaponIndex
      ensures Valid()
      ensures old(GetWeapon(index)).Some? ==> weaponsInventory[..] == old(weaponsInventory[..])[index := None]
      ensures old(GetWeapon(index)).None? ==> weaponsInventory[..] == old(weaponsInventory[..])
      ensures currentWeaponIndex == if old(GetWeapon(index)).Some? && index == old(currentWeaponIndex) then -1
                                    else old(currentWeaponIndex)
    {
      var weapon := GetWeapon(index);
      if weapon.Some? {
        if index == currentWeaponIndex {
          EquipWeapon(-1);
        }
        weaponsInventory[index] := None;
      }
    }

    /**
     * Empties an occupied item slot; if it is the equipped one, unequips it
     * and the ability with it.
     */
    method RemoveItem(index: int)
      requires Valid()
      modifies itemsInventory, this`currentItemIndex, this`currentAbilityIndex
      ensures Valid()
      ensures old(GetItem(index)).Some? ==> itemsInventory[..] == old(itemsInventory[..])[index := None]
      ensures old(GetItem(index)).None? ==> itemsInventory[..] == old(itemsInventory[..])
      ensures old(GetItem(index)).Some? && index == old(currentItemIndex) ==>
                currentItemIndex == -1 && currentAbilityIndex == -1
      ensures !(old(GetItem(index)).Some? && index == old(currentItemIndex)) ==>
                currentItemIndex == old(currentItemIndex) && currentAbilityIndex == old(currentAbilityIndex)
    {
      var item := GetItem(index);
      if item.Some? {
        if index == currentItemIndex {
          EquipItem(-1);
        }
        itemsInventory[index] := None;
      }
    }

    /**
     * Uses one unit of the item in a slot. A stack with nothing left is
     * removed, and unequipped if it was the equipped one; an index outside
     * the array or an empty slot changes nothing.
     */
    method UseItem(index: int)
      requires Valid()
      modifies itemsInventory, this`currentItemIndex
      ensures Valid()
      ensures old(GetItem(index)).None? ==> itemsInventory[..] == old(itemsInventory[..]) && currentItemIndex == old(currentItemIndex)
      ensures old(GetItem(index)).Some? ==>
                var used := RemoveAmount(old(GetItem(index)).value, 1);
                && (used.amount > 0 ==>
                      itemsInventory[..] == old(itemsInventory[..])[index := Some(used)] && currentItemIndex == old(currentItemIndex))
                && (used.amount <= 0 ==>
                      && itemsInventory[..] == old(itemsInventory[..])[index := None]
                      && currentItemIndex == (if index == old(currentItemIndex) then -1 else old(currentItemIndex)))
    {
      var item := GetItem(index);
      if item.Some? {
        var used := RemoveAmount(item.value, 1);
        itemsInventory[index] := Some(used);
        if used.amount <= 0 {
          itemsInventory[index] := None;
          if index == currentItemIndex {
            currentItemIndex := -1;
          }
        }
      }
    }

    // -------------------------------------------------------------------------
    // Emotional energy
    // -------------------------------------------------------------------------

    /** Adds to the counter with C#'s 32-bit wrap-around; without overflow it is plain addition. */
    method AddEmotionalEnergy(amount: Int32)
      requires Valid()
      modifies this`emotionalEnergy
      ensures Valid()
      ensures emotionalEnergy == Wrap(old(emotionalEnergy) as int + amount as int)
      ensures -0x8000_0000 <= old(emotionalEnergy) as int + amount as int < 0x8000_0000 ==>
                emotionalEnergy as int == old(emotionalEnergy) as int + amount as int
    {
      emotionalEnergy := Wrap(emotionalEnergy as int + amount as int);
    }

    /**
     * Spends energy only when the counter is at least the amount; otherwise
     * it is unchanged. On success the counter drops by the amount with C#'s
     * 32-bit wrap-around, and it stays non-negative exactly when the exact
     * difference fits in an int (always, for a non-negative amount).
     */
    method SubtractEmotionialEnergy(amount: Int32) returns (ok: bool)
      requires Valid()
      modifies this`emotionalEnergy
      ensures Valid()
      ensures ok <==> old(emotionalEnergy) >= amount
      ensures ok ==> emotionalEnergy == Wrap(old(emotionalEnergy) as int - amount as int)
      ensures ok ==> (emotionalEnergy >= 0 <==> old(emotionalEnergy) as int - amount as int < 0x8000_0000)
      ensures ok && amount >= 0 ==> emotionalEnergy as int == old(emotionalEnergy) as int - amount as int
      ensures !ok ==> emotionalEnergy == old(emotionalEnergy)
    {
      if emotionalEnergy < amount {
        return false;
      }
      emotionalEnergy := Wrap(emotionalEnergy as int - amount as int);
      return true;
    }
  }
}
