/**
 * handlers/character_management.py: the ability-modifier rule and the
 * two-step delete dialog (pick a character, then confirm with "да").
 */
module CharacterManagement {
  import opened Wrappers
  import opened Text
  import opened CharacterRecord
  import opened Storage

  /**
   * `calculate_modifier`: `(score - 10) // 2`. Python's `//` rounds toward
   * negative infinity; Dafny's `/` by a positive divisor does the same.
   */
  function Modifier(score: int): (m: int)
    ensures 2 * m <= score - 10 < 2 * m + 2
  {
    (score - 10) / 2
  }

  /** Odd scores below 10 round down, not toward zero. */
  lemma ModifierExamples()
    ensures Modifier(3) == -4 && Modifier(8) == -1 && Modifier(9) == -1
    ensures Modifier(10) == 0 && Modifier(11) == 0 && Modifier(15) == 2
  {
  }

  /** Two more points of score give one more point of modifier. */
  lemma ModifierStep(score: int)
    ensures Modifier(score + 2) == Modifier(score) + 1
  {
  }

  lemma ModifierMonotone(s: int, t: int)
    requires s <= t
    ensures Modifier(s) <= Modifier(t)
  {
  }

  /** Scores allowed at creation (3..18) give modifiers -4..+4. */
  lemma ModifierCreationRange(score: int)
    requires 3 <= score <= 18
    ensures -4 <= Modifier(score) <= 4
  {
  }

  /** The delete dialog proceeds only on "да" after `strip().lower()`. */
  predicate ConfirmsDelete(answer: string) {
    Lower(Strip(answer)) == "да"
  }

  /** Exactly the four capitalisations of "да", with any surrounding whitespace, confirm. */
  lemma ConfirmsDeleteSpellings(answer: string)
    ensures ConfirmsDelete(answer) <==> Strip(answer) in {"да", "Да", "дА", "ДА"}
  {
    var t := Strip(answer);
    if |t| == 2 {
      assert LowerChar(t[0]) == 'д' <==> t[0] == 'д' || t[0] == 'Д';
      assert LowerChar(t[1]) == 'а' <==> t[1] == 'а' || t[1] == 'А';
      assert Lower(t) == [LowerChar(t[0]), LowerChar(t[1])];
      assert t == [t[0], t[1]];
      assert "да" == ['д', 'а'] && "Да" == ['Д', 'а'] && "дА" == ['д', 'А'] && "ДА" == ['Д', 'А'];
    } else {
      assert |Lower(t)| != |"да"|;
    }
  }

  /**
   * `process_delete_confirmation`: the chosen name is remembered for the
   * answer step only if it loads; otherwise the dialog ends. The store is
   * only read.
   */
  method ProcessDeleteConfirmation(store: CharacterStorage, user: UserId, text: string) returns (pending: Option<string>)
    requires store.Valid()
    ensures pending.Some? <==> Find(store.files, user, Strip(text)).Some?
    ensures pending.Some? ==> pending.value == Strip(text)
  {
    var name := Strip(text);
    var character := store.LoadCharacter(user, name);
    if character.None? {
      return None;
    }
    return Some(name);
  }

  datatype DeleteOutcome =
    | Deleted       // "delete_success"
    | DeleteFailed  // the file had gone: the generic error reply
    | Cancelled     // "delete_cancelled"

  /**
   * `process_delete_answer`: deletes the remembered character only on a
   * confirming answer; any other answer, or a file that is already gone,
   * leaves the store as it was.
   */
  method ProcessDeleteAnswer(store: CharacterStorage, user: UserId, pending: string, answer: string)
    returns (o: DeleteOutcome)
    requires store.Valid()
    modifies store
    ensures store.Valid()
    ensures o == Deleted <==> ConfirmsDelete(answer) && KeyOf(user, pending) in old(store.files)
    ensures o == Cancelled <==> !ConfirmsDelete(answer)
    ensures o == Deleted ==> store.files == old(store.files) - {KeyOf(user, pending)}
    ensures o != Deleted ==> store.files == old(store.files)
  {
    if Lower(Strip(answer)) == "да" {
      var ok := store.DeleteCharacter(user, pending);
      o := if ok then Deleted else DeleteFailed;
    } else {
      o := Cancelled;
    }
  }
}
