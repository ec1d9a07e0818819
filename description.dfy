/**
 * handlers/description_management.py: a free-text description per
 * character. A new description is trimmed and must not be empty; it
 * replaces the old one and touches nothing else. A record without one
 * reads as the empty description.
 */
module DescriptionManagement {
  import opened Wrappers
  import opened Text
  import opened CharacterRecord
  import opened Storage

  /** `character.get('description', '')`. */
  function DescriptionOf(r: Record): (d: string)
    ensures r.description.None? ==> d == ""
    ensures r.description.Some? ==> d == r.description.value
  {
    r.description.GetOr("")
  }

  /** Lines 67-70: the trimmed text, or None when nothing is left after trimming. */
  function NewDescription(text: string): (d: Option<string>)
    ensures d.None? <==> forall i :: 0 <= i < |text| ==> IsSpace(text[i])
    ensures d.Some? ==> d.value == Strip(text) && d.value != [] && Trimmed(d.value)
  {
    var description := Strip(text);
    if description == [] then None else Some(description)
  }

  /** Line 77: the record with its description replaced. */
  function Described(r: Record, d: string): (r': Record)
    ensures DescriptionOf(r') == d
  {
    r.(description := Some(d))
  }

  /** Only the description changes. */
  lemma DescribedChangesNothingElse(r: Record, d: string)
    ensures Described(r, d).(description := r.description) == r
  {
  }

  /** Setting the same description twice is setting it once. */
  lemma DescribedIdempotent(r: Record, d: string)
    ensures Described(Described(r, d), d) == Described(r, d)
  {
  }

  /** A description typed with surrounding blanks is stored trimmed, and typing it again stores the same text. */
  lemma NewDescriptionStable(text: string)
    requires NewDescription(text).Some?
    ensures NewDescription(NewDescription(text).value) == NewDescription(text)
  {
    StripIdempotent(text);
  }

  datatype DescriptionOutcome =
    | Reprompt               // empty description: the dialog asks again
    | Saved(record: Record)  // the record was saved with the new description
    | Aborted                // the character chosen earlier no longer loads (the handler raises)

  /** `process_description_text` for the character chosen earlier. */
  method ProcessDescriptionText(store: CharacterStorage, user: UserId, name: string, text: string)
    returns (o: DescriptionOutcome)
    requires store.Valid()
    modifies store
    ensures store.Valid()
    ensures NewDescription(text).None? ==> o == Reprompt
    ensures o.Saved? <==> NewDescription(text).Some? && Find(old(store.files), user, name).Some?
    ensures o.Saved? ==>
      && o.record == Described(Find(old(store.files), user, name).value, NewDescription(text).value)
      && store.files == Stored(old(store.files), user, o.record)
    ensures !o.Saved? ==> store.files == old(store.files)
  {
    var description := Strip(text);
    if description == [] {
      return Reprompt;
    }
    var loaded := store.LoadCharacter(user, name);
    if loaded.None? {
      return Aborted;
    }
    var record := loaded.value.(description := Some(description));
    var _ := store.SaveCharacter(user, record);
    o := Saved(record);
  }

  datatype DescriptionView = NoSuchCharacter | NoDescription | Shown(text: string)

  /** `process_view_description_character`: the stored description, if it is non-empty. */
  method ViewDescription(store: CharacterStorage, user: UserId, text: string) returns (v: DescriptionView)
    requires store.Valid()
    ensures v == NoSuchCharacter <==> Find(store.files, user, Strip(text)).None?
    ensures v == NoDescription <==> Find(store.files, user, Strip(text)).Some? && DescriptionOf(Find(store.files, user, Strip(text)).value) == ""
    ensures v.Shown? ==> v.text == DescriptionOf(Find(store.files, user, Strip(text)).value) && v.text != ""
  {
    var loaded := store.LoadCharacter(user, Strip(text));
    if loaded.None? {
      return NoSuchCharacter;
    }
    var description := DescriptionOf(loaded.value);
    if description == "" {
      return NoDescription;
    }
    return Shown(description);
  }

  /** Once a description is saved, viewing the character shows exactly that text. */
  lemma ViewAfterSet(files: map<Key, Record>, user: UserId, name: string, text: string)
    requires Find(files, user, name).Some? && NewDescription(text).Some?
    ensures var r := Described(Find(files, user, name).value, NewDescription(text).value);
      DescriptionOf(Find(Stored(files, user, r), user, r.name).value) == Strip(text)
  {
    var r := Described(Find(files, user, name).value, NewDescription(text).value);
    LoadAfterSave(files, user, r);
  }
}
