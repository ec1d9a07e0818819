/**
 * handlers/inventory_management.py: three categorised item lists of a
 * character. Adding appends a new name and refuses a duplicate; removing
 * deletes the first occurrence and refuses a name that is not there. Only
 * the chosen list changes.
 */
module InventoryManagement {
  import opened Wrappers
  import opened Text
  import opened CharacterRecord
  import opened Storage
  import opened Lists

  /** The three item categories, by the key the record uses. */
  datatype Category = Weapons | Armor | Items

  /** `process_inventory_category`: the button label mapped to its key, or None for any other text. */
  function CategoryOf(text: string): (r: Option<Category>)
    ensures r == Some(Weapons) <==> Strip(text) == "Оружие"
    ensures r == Some(Armor) <==> Strip(text) == "Броня"
    ensures r == Some(Items) <==> Strip(text) == "Предметы"
    ensures r.None? <==> (Strip(text) !in {"Оружие", "Броня", "Предметы"})
  {
    var button := Strip(text);
    if button == "Оружие" then Some(Weapons)
    else if button == "Броня" then Some(Armor)
    else if button == "Предметы" then Some(Items)
    else None
  }

  /** The list `equipment[category]["items"]`. */
  function ItemsIn(e: Equipment, k: Category): seq<string> {
    match k
    case Weapons => e.weapons
    case Armor => e.armor
    case Items => e.items
  }

  /** The equipment with one category's list replaced; the other lists and the purse are kept. */
  function WithItems(e: Equipment, k: Category, items: seq<string>): (r: Equipment)
    ensures ItemsIn(r, k) == items
    ensures forall other :: other != k ==> ItemsIn(r, other) == ItemsIn(e, other)
    ensures r.money == e.money
  {
    match k
    case Weapons => e.(weapons := items)
    case Armor => e.(armor := items)
    case Items => e.(items := items)
  }

  datatype ItemError = EmptyName | AlreadyPresent | NotFound

  /** `process_inventory_item_name`, lines 193-213: the trimmed name is appended unless empty or present. */
  function Added(items: seq<string>, text: string): (r: Result<seq<string>, ItemError>)
    ensures r == Failure(EmptyName) <==> Strip(text) == []
    ensures r == Failure(AlreadyPresent) <==> Strip(text) != [] && Strip(text) in items
    ensures r.Success? ==> |r.value| == |items| + 1 && r.value[..|items|] == items && r.value[|items|] == Strip(text)
  {
    var name := Strip(text);
    if name == [] then Failure(EmptyName)
    else if name in items then Failure(AlreadyPresent)
    else Success(items + [name])
  }

  /** `process_inventory_item_remove`, lines 231-247: the first occurrence of the trimmed name is deleted. */
  function Removed(items: seq<string>, text: string): (r: Result<seq<string>, ItemError>)
    ensures r.Failure? <==> Strip(text) !in items
    ensures r.Failure? ==> r.error == NotFound
    ensures r.Success? ==> r.value == RemoveFirst(items, Strip(text))
  {
    var name := Strip(text);
    if name !in items then Failure(NotFound) else Success(RemoveFirst(items, name))
  }

  /** Adding keeps a list free of duplicates. */
  lemma AddedKeepsNoDup(items: seq<string>, text: string)
    requires NoDup(items) && Added(items, text).Success?
    ensures NoDup(Added(items, text).value)
  {
    assert Added(items, text).value == items + [Strip(text)];
    AppendNoDup(items, Strip(text));
  }

  /** Removing keeps a list free of duplicates, and the name is then gone from it. */
  lemma RemovedKeepsNoDup(items: seq<string>, text: string)
    requires NoDup(items) && Removed(items, text).Success?
    ensures NoDup(Removed(items, text).value)
    ensures Strip(text) !in Removed(items, text).value
  {
    RemoveFirstNoDup(items, Strip(text));
  }

  /** Removing a name just added gives the list back. */
  lemma RemoveUndoesAdd(items: seq<string>, text: string)
    requires Added(items, text).Success?
    ensures Removed(Added(items, text).value, text) == Success(items)
  {
    assert Added(items, text).value == items + [Strip(text)];
    RemoveAfterAppend(items, Strip(text));
  }

  /** Adding a name twice in a row: the second add is refused, so the list is unchanged by it. */
  lemma AddTwiceRefused(items: seq<string>, text: string)
    requires Added(items, text).Success?
    ensures Added(Added(items, text).value, text) == Failure(AlreadyPresent)
  {
    var r := Added(items, text).value;
    assert r[|items|] == Strip(text);
  }

  /** The result of one add or remove turn. */
  datatype ItemOutcome =
    | Reprompt                      // empty name: the dialog asks again
    | Refused(error: ItemError)     // duplicate on add, absent on remove: the dialog ends
    | Saved(items: seq<string>)     // the changed list was saved
    | Aborted                       // no such record, or it has no equipment (the handler raises)

  /** The stored record for `name` and its equipment, when both exist. */
  function Outfit(files: map<Key, Record>, user: UserId, name: string): Option<(Record, Equipment)> {
    var r := Find(files, user, name);
    if r.Some? && r.value.equipment.Some? then Some((r.value, r.value.equipment.value)) else None
  }

  /** The store after saving a record whose category `k` now holds `items`. */
  function WithList(files: map<Key, Record>, user: UserId, r: Record, e: Equipment, k: Category, items: seq<string>): map<Key, Record> {
    Stored(files, user, r.(equipment := Some(WithItems(e, k, items))))
  }

  /** `process_inventory_item_name` for the character and category chosen earlier. */
  method ProcessItemName(store: CharacterStorage, user: UserId, name: string, k: Category, text: string)
    returns (o: ItemOutcome)
    requires store.Valid()
    modifies store
    ensures store.Valid()
    ensures Strip(text) == [] ==> o == Reprompt
    ensures o.Saved? <==> Outfit(old(store.files), user, name).Some? && Added(ItemsIn(Outfit(old(store.files), user, name).value.1, k), text).Success?
    ensures o.Saved? ==>
      var (r, e) := Outfit(old(store.files), user, name).value;
      && o.items == Added(ItemsIn(e, k), text).value
      && store.files == WithList(old(store.files), user, r, e, k, o.items)
    ensures !o.Saved? ==> store.files == old(store.files)
  {
    var item := Strip(text);
    if item == [] {
      return Reprompt;
    }
    var loaded := store.LoadCharacter(user, name);
    if loaded.None? || loaded.value.equipment.None? {
      return Aborted;
    }
    var record := loaded.value;
    var e := record.equipment.value;
    var result := Added(ItemsIn(e, k), text);
    if result.Failure? {
      return Refused(AlreadyPresent);
    }
    var items := result.value;
    record := record.(equipment := Some(WithItems(e, k, items)));
    var _ := store.SaveCharacter(user, record);
    o := Saved(items);
  }

  /** `process_inventory_item_remove` for the character and category chosen earlier. */
  method ProcessItemRemove(store: CharacterStorage, user: UserId, name: string, k: Category, text: string)
    returns (o: ItemOutcome)
    requires store.Valid()
    modifies store
    ensures store.Valid()
    ensures o.Saved? <==> Outfit(old(store.files), user, name).Some? && Removed(ItemsIn(Outfit(old(store.files), user, name).value.1, k), text).Success?
    ensures o.Saved? ==>
      var (r, e) := Outfit(old(store.files), user, name).value;
      && o.items == Removed(ItemsIn(e, k), text).value
      && store.files == WithList(old(store.files), user, r, e, k, o.items)
    ensures !o.Saved? ==> store.files == old(store.files)
  {
    var loaded := store.LoadCharacter(user, name);
    if loaded.None? || loaded.value.equipment.None? {
      return Aborted;
    }
    var record := loaded.value;
    var e := record.equipment.value;
    var result := Removed(ItemsIn(e, k), text);
    if result.Failure? {
      return Refused(NotFound);
    }
    var items := result.value;
    record := record.(equipment := Some(WithItems(e, k, items)));
    var _ := store.SaveCharacter(user, record);
    o := Saved(items);
  }
}
