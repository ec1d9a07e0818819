/**
 * handlers/active_character.py: one character of a user can be marked
 * active. Promotion clears the flag on every other character of the user
 * and sets it on the chosen one; the lookup reports the first flagged
 * character in listing order.
 */
module ActiveCharacter {
  import opened Wrappers
  import opened Text
  import opened CharacterRecord
  import opened Storage

  /** `char.get("is_active", False)`: a missing flag reads as False. */
  predicate IsActive(r: Record) {
    r.isActive == Some(true)
  }

  /** The store with the flag set to False on the records under `keys`. */
  ghost function Cleared(files: map<Key, Record>, keys: set<Key>): map<Key, Record> {
    map k | k in files :: if k in keys then files[k].(isActive := Some(false)) else files[k]
  }

  /** The store after promoting the record under `chosen`: every other record of its owner is cleared. */
  function Promoted(files: map<Key, Record>, chosen: Key): (r: map<Key, Record>)
    ensures r.Keys == files.Keys
  {
    map k | k in files ::
      if k == chosen then files[k].(isActive := Some(true))
      else if k.0 == chosen.0 then files[k].(isActive := Some(false))
      else files[k]
  }

  /** After a promotion exactly one record of the user is active: the chosen one. */
  lemma PromotedExactlyOne(files: map<Key, Record>, chosen: Key)
    requires chosen in files
    ensures chosen in Promoted(files, chosen) && IsActive(Promoted(files, chosen)[chosen])
    ensures forall k :: k in Promoted(files, chosen) && k.0 == chosen.0 && k != chosen ==> !IsActive(Promoted(files, chosen)[k])
  {
  }

  /** Promotion changes only the flag, and only on records of the chosen record's owner. */
  lemma PromotedOnlyFlags(files: map<Key, Record>, chosen: Key)
    ensures forall k :: k in files ==> Promoted(files, chosen)[k].(isActive := files[k].isActive) == files[k]
    ensures forall k :: k in files && k.0 != chosen.0 ==> Promoted(files, chosen)[k] == files[k]
  {
  }

  /** Promoting the same character twice is promoting it once. */
  lemma PromotedIdempotent(files: map<Key, Record>, chosen: Key)
    ensures Promoted(Promoted(files, chosen), chosen) == Promoted(files, chosen)
  {
  }

  /** Promotion keeps every file under its owner and name. */
  lemma PromotedWellKeyed(files: map<Key, Record>, chosen: Key)
    requires WellKeyed(files)
    ensures WellKeyed(Promoted(files, chosen))
  {
  }

  /** Lines 50-53 for one sibling: loading it from a partly cleared store, clearing and saving it clears one more key. */
  lemma ClearOne(before: map<Key, Record>, keys: set<Key>, k: Key)
    requires WellKeyed(before) && k in before
    ensures var files := Cleared(before, keys);
      Stored(files, k.0, files[k].(isActive := Some(false))) == Cleared(before, keys + {k})
  {
    var files := Cleared(before, keys);
    assert KeyOf(k.0, files[k].(isActive := Some(false)).name) == k;
  }

  /** Line 59: once every sibling is cleared, saving the flagged chosen record completes the promotion. */
  lemma FlagAfterClear(before: map<Key, Record>, siblings: set<Key>, chosen: Key)
    requires WellKeyed(before) && chosen in before
    requires forall k :: k in siblings ==> k in before && k.0 == chosen.0
    requires forall k :: k in before && k.0 == chosen.0 && k != chosen ==> k in siblings
    ensures Stored(Cleared(before, siblings), chosen.0, before[chosen].(isActive := Some(true))) == Promoted(before, chosen)
  {
    assert KeyOf(chosen.0, before[chosen].name) == chosen;
  }

  /** `cs` lists every record of `user` once, `order[i]` naming the file of `cs[i]`. */
  ghost predicate Listing(files: map<Key, Record>, user: UserId, cs: seq<Record>, order: seq<Key>) {
    && |order| == |cs|
    && (forall i, j :: 0 <= i < j < |order| ==> order[i] != order[j])
    && (forall k :: k in order <==> k in files && k.0 == user)
    && (forall i :: 0 <= i < |cs| ==> order[i] in files && cs[i] == files[order[i]])
  }

  /** The files of the listed records whose name differs from `chosenName`. */
  ghost function Siblings(cs: seq<Record>, order: seq<Key>, chosenName: string, n: nat): set<Key>
    requires n <= |cs| == |order|
  {
    set j | 0 <= j < n && cs[j].name != chosenName :: order[j]
  }

  /** Every other file of the user holds a record whose name differs from the chosen name. */
  lemma SiblingsCover(files: map<Key, Record>, user: UserId, cs: seq<Record>, order: seq<Key>, chosenName: string)
    requires WellKeyed(files) && Listing(files, user, cs, order)
    ensures forall k :: k in Siblings(cs, order, chosenName, |cs|) ==> k in files && k.0 == user
    ensures forall k :: k in files && k.0 == user && k != KeyOf(user, chosenName) ==> k in Siblings(cs, order, chosenName, |cs|)
  {
    forall k | k in files && k.0 == user && k != KeyOf(user, chosenName)
      ensures k in Siblings(cs, order, chosenName, |cs|)
    {
      var j :| 0 <= j < |order| && order[j] == k;
      assert SafeName(cs[j].name) == k.1;
    }
  }

  /** Lines 48-53: every listed character whose name differs from the chosen one is loaded, cleared and saved. */
  method ClearSiblings(store: CharacterStorage, user: UserId, chosenName: string, cs: seq<Record>, ghost order: seq<Key>)
    requires store.Valid() && Listing(store.files, user, cs, order)
    modifies store
    ensures store.Valid()
    ensures store.files == Cleared(old(store.files), Siblings(cs, order, chosenName, |cs|))
  {
    ghost var before := store.files;
    for i := 0 to |cs|
      invariant store.Valid()
      invariant store.files == Cleared(before, Siblings(cs, order, chosenName, i))
    {
      ghost var cleared := Siblings(cs, order, chosenName, i);
      if cs[i].name != chosenName {
        assert KeyOf(user, cs[i].name) == order[i];
        var other := store.LoadCharacter(user, cs[i].name);
        ClearOne(before, cleared, order[i]);
        var _ := store.SaveCharacter(user, other.value.(isActive := Some(false)));
        assert Siblings(cs, order, chosenName, i + 1) == cleared + {order[i]};
      } else {
        assert Siblings(cs, order, chosenName, i + 1) == cleared;
      }
    }
  }

  /**
   * `process_active_character`: the chosen name must load; then the other
   * characters of the user are cleared, and finally the chosen one is
   * flagged and saved.
   */
  method ProcessActiveCharacter(store: CharacterStorage, user: UserId, text: string) returns (ok: bool)
    requires store.Valid()
    modifies store
    ensures store.Valid()
    ensures ok <==> Find(old(store.files), user, Strip(text)).Some?
    ensures ok ==> store.files == Promoted(old(store.files), KeyOf(user, Strip(text)))
    ensures !ok ==> store.files == old(store.files)
  {
    var chosenName := Strip(text);
    var character := store.LoadCharacter(user, chosenName);
    if character.None? {
      return false;
    }
    ghost var before := store.files;
    var cs, order := store.GetUserCharacters(user);
    SiblingsCover(before, user, cs, order, chosenName);
    ClearSiblings(store, user, chosenName, cs, order);
    FlagAfterClear(before, Siblings(cs, order, chosenName, |cs|), KeyOf(user, chosenName));
    var _ := store.SaveCharacter(user, character.value.(isActive := Some(true)));
    ok := true;
  }

  /**
   * `cmd_get_active`, lines 81-85: the first character in the listing whose
   * flag is set, or None when no flag is set.
   */
  method FirstActive(cs: seq<Record>) returns (r: Option<Record>)
    ensures r.Some? ==> exists i :: 0 <= i < |cs| && cs[i] == r.value && IsActive(cs[i]) && forall j :: 0 <= j < i ==> !IsActive(cs[j])
    ensures r.None? <==> forall i :: 0 <= i < |cs| ==> !IsActive(cs[i])
  {
    r := None;
    for i := 0 to |cs|
      invariant r.None? ==> forall j :: 0 <= j < i ==> !IsActive(cs[j])
    {
      if IsActive(cs[i]) {
        assert cs[i] == cs[i] && IsActive(cs[i]);
        return Some(cs[i]);
      }
    }
  }

  datatype ActiveLookup = NoCharacters | NoActive | Active(record: Record)

  /** `cmd_get_active`: the user's listing, then the first flagged character in it. */
  method GetActive(store: CharacterStorage, user: UserId) returns (o: ActiveLookup)
    requires store.Valid()
    ensures o == NoCharacters <==> forall k :: k in store.files ==> k.0 != user
    ensures o.Active? ==> IsActive(o.record) && exists k :: k in store.files && k.0 == user && store.files[k] == o.record
    ensures o == NoActive ==> forall k :: k in store.files && k.0 == user ==> !IsActive(store.files[k])
  {
    var cs, order := store.GetUserCharacters(user);
    if cs == [] {
      return NoCharacters;
    }
    assert order[0] in store.files && order[0].0 == user;
    var found := FirstActive(cs);
    if found.None? {
      return NoActive;
    }
    ghost var i :| 0 <= i < |cs| && cs[i] == found.value;
    assert order[i] in store.files && order[i].0 == user;
    return Active(found.value);
  }

  /** After a promotion the lookup can only report the chosen character. */
  lemma LookupAfterPromotion(files: map<Key, Record>, chosen: Key, k: Key)
    requires chosen in files && k in Promoted(files, chosen) && k.0 == chosen.0
    requires IsActive(Promoted(files, chosen)[k])
    ensures k == chosen
  {
  }
}
