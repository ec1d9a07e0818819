# character_manage_bot — a verified model of its record logic

This project models the rules of a Telegram bot that keeps D&D 5e character sheets. The rules live in its dialog handlers:

- the ability-modifier rule and the default character sheet;
- the five-step creation dialog (name, race, class, level, six ability scores);
- the purse of four coin denominations;
- three categorised item lists;
- spell slots, cantrips and leveled spells;
- the "active character" flag;
- a free-text description;
- the delete dialog;
- the store of one JSON file per character.

Each handler turn is a method on a `CharacterStorage` object. That object holds the store as a map from (user id, sanitised file name) to the record in that file. The handler's inputs are the message text and the values collected by earlier dialog steps.

The nested dictionary the handlers load and save is the `Record` datatype. A key the dictionary may lack is an `Option`: `user_id`, `is_active`, `description`, and the `equipment` and `magic` blocks that the creation dialog does not write. The pure rules are functions with contracts, and the lemmas beside them state what the bot promises:

- round trips: typed numbers are read back; a credit followed by a debit restores the purse;
- all-or-nothing updates;
- "nothing else changes";
- idempotence;
- a sorted and stable spell list.

The Python built-ins the handlers depend on are written out in the `Text`, `Lists` and `StableSort` modules:

- `strip`, `split`, `int`, `str` and `lower`;
- `list.remove`;
- `sorted` with a key.

## Model

| member | source | states |
|---|---|---|
| Text.Strip | handlers/character_creation.py:22 | `strip()` never lengthens its input and leaves no whitespace at either end |
| Text.StripEmpty | handlers/description_management.py:67-68 | the stripped text is empty exactly when every character is whitespace |
| Text.StripTrimmed | handlers/character_creation.py:22 | a string with no whitespace at its ends is its own `strip()` |
| Text.StripIdempotent | handlers/description_management.py:67 | stripping twice is stripping once |
| Text.Split | handlers/character_creation.py:104 | `split()` yields only non-empty tokens without whitespace |
| Text.SplitJoin | handlers/money_management.py:127 | splitting tokens written with single spaces gives the same tokens back |
| Text.SplitStripJoin | handlers/money_management.py:127 | `strip().split()` of space-separated tokens gives the tokens back |
| Text.ShowInt | handlers/spell_management.py:82 | `str(n)` is a non-empty whitespace-free token |
| Text.ParseShowInt | handlers/character_creation.py:88 | `int(str(i)) == i` for every integer, negative ones included |
| Text.ShowIntInjective | handlers/spell_management.py:82 | different integers give different `str` keys |
| Text.ParseAll | handlers/character_creation.py:104 | the list comprehension of `int` succeeds with one value per token, each the token's value, or fails because some token is not an integer |
| Text.ShowAll | handlers/money_management.py:113 | each integer is rendered by `str`, position by position |
| Text.ParseAllShowAll | handlers/character_creation.py:104 | converting the rendered integers gives the integers back |
| Text.ReadBackInts | handlers/character_creation.py:104 | integers typed with spaces are read back exactly by `strip().split()` and `int` |
| Text.Lower | handlers/character_management.py:152 | `lower()` keeps the length and folds each character |
| Lists.IndexOf | handlers/inventory_management.py:247 | the position found holds the element and no earlier position does |
| Lists.RemoveFirst | handlers/inventory_management.py:247 | `list.remove` shortens the list by one, deletes the first occurrence and keeps everything else in order, so the multiset loses exactly one copy |
| Lists.NoDupWithout | handlers/inventory_management.py:247 | dropping one position of a duplicate-free list leaves it duplicate-free and without the dropped element |
| Lists.RemoveFirstNoDup | handlers/inventory_management.py:239-247 | in a duplicate-free list, removal takes out the only copy |
| Lists.AppendNoDup | handlers/inventory_management.py:205-213 | appending an absent element keeps a list duplicate-free |
| Lists.RemoveAfterAppend | handlers/inventory_management.py:213-247 | removing the element just appended gives the list back |
| StableSort.Insert | handlers/spell_management.py:222-223 | insertion adds exactly the one element |
| StableSort.InsertSorted | handlers/spell_management.py:222-223 | inserting into a sorted list keeps it sorted |
| StableSort.SortedWithout | handlers/spell_management.py:336 | dropping an entry keeps a sorted list sorted |
| StableSort.SortByOrdersAndPermutes | handlers/spell_management.py:222-223 | `sorted(key=...)` yields an ascending list that is a permutation of its input |
| StableSort.WithKeyAppend | handlers/spell_management.py:215 | filtering by key distributes over concatenation |
| StableSort.WithKeyInsert | handlers/spell_management.py:222-223 | an insertion puts the new element at the front of its own key's entries and leaves other keys alone |
| StableSort.SortStable | handlers/spell_management.py:222-223 | the sort is stable: the entries of each key keep their relative order |
| StableSort.SortedUnchanged | handlers/spell_management.py:222-223 | sorting an already sorted list leaves it unchanged |
| StableSort.NewLastOfItsKey | handlers/spell_management.py:215-223 | an appended element that is then sorted in follows every earlier entry with its key |
| StableSort.OthersKeepOrder | handlers/spell_management.py:215-223 | appending and sorting leaves the entries of every other key in their order |
| Config.ListedIsMembership | config.py:32-41 | looking a race or class up entry by entry is membership in the list |
| Storage.SafeName | storage/character_storage.py:21 | the sanitised name has the same length, keeps every alphanumeric character and turns every other character into "_" |
| Storage.SafeNameIdempotent | storage/character_storage.py:21 | sanitising twice is sanitising once |
| Storage.SafeNameCollides | storage/character_storage.py:17-22 | "a b" and "a_b" are different names with the same file |
| Storage.Find | storage/character_storage.py:39-47 | a load finds a record exactly when the file for (user, safe name) exists |
| Storage.Stored | storage/character_storage.py:24-34 | a save adds or overwrites exactly the file of the record's name and keeps the store well keyed |
| Storage.LoadAfterSave | storage/character_storage.py:24-47 | the next load of the saved name returns the record with `user_id` set to its owner |
| Storage.SaveLeavesOthers | storage/character_storage.py:32-33 | a save changes no other file |
| Storage.CollidingNamesShareRecord | storage/character_storage.py:17-33 | after saving "a_b", loading "a b" returns that record |
| Storage.LoadAfterDelete | storage/character_storage.py:68-75 | after a delete the name no longer loads and every other file loads as before |
| Storage.CharacterStorage.constructor | storage/character_storage.py:7-9 | a new store is empty |
| Storage.CharacterStorage.SaveCharacter | storage/character_storage.py:24-34 | the store becomes `Stored(old, user, data)` |
| Storage.CharacterStorage.LoadCharacter | storage/character_storage.py:39-50 | returns `Find`, and a loaded record belongs to the user and sanitises to the same file name |
| Storage.CharacterStorage.GetUserCharacters | storage/character_storage.py:52-63 | lists every record of the user exactly once, and no other, in an unspecified order |
| Storage.CharacterStorage.DeleteCharacter | storage/character_storage.py:68-75 | answers whether the file existed and removes exactly that file |
| CharacterManagement.Modifier | handlers/character_management.py:12-14 | the modifier is the floor of (score − 10) / 2 |
| CharacterManagement.ModifierExamples | handlers/character_management.py:14 | modifier(3) = −4, modifier(8) = modifier(9) = −1, modifier(10) = modifier(11) = 0, modifier(15) = 2 |
| CharacterManagement.ModifierStep | handlers/character_management.py:14 | two more score points give exactly one more modifier point |
| CharacterManagement.ModifierMonotone | handlers/character_management.py:14 | the modifier never decreases as the score grows |
| CharacterManagement.ModifierCreationRange | handlers/character_management.py:14 | scores 3..18 give modifiers −4..4 |
| CharacterManagement.ConfirmsDeleteSpellings | handlers/character_management.py:152-156 | an answer confirms exactly when its stripped text is "да" in one of its four capitalisations |
| CharacterManagement.ProcessDeleteConfirmation | handlers/character_management.py:120-148 | the name is remembered exactly when it loads; the store is only read |
| CharacterManagement.ProcessDeleteAnswer | handlers/character_management.py:151-175 | deletes exactly the remembered file, and only on a confirming answer when the file exists; a non-confirming answer cancels; a missing file fails; in both of those cases the store is unchanged |
| CharacterStats.SixAbilities | character_stats.py:7-55 | the sheet has exactly six abilities, under the six English keys |
| CharacterStats.DefaultModifiersAgree | character_stats.py:12-13 | every default ability is 10 with modifier 0, which is the modifier rule's value for 10 |
| CharacterStats.ConstitutionHasNoSkills | character_stats.py:27 | constitution lists no skills |
| CharacterStats.SkillOwnedOnce | character_stats.py:11-51 | no skill is listed under two abilities |
| CharacterStats.OwnsItsSkills | character_stats.py:11-51 | every skill an ability lists is in the skill table and owned by that ability |
| CharacterStats.OwnerIsListOwner | character_stats.py:11-51 | a listed skill's owner is the ability that lists it |
| CharacterStats.TableSkillOwned | character_stats.py:110-129 | every skill of the table is listed by some ability |
| CharacterStats.SkillIndexOf | character_stats.py:110-129 | each skill of the table has its own position |
| CharacterStats.EighteenSkills | character_stats.py:110-129 | the table holds 18 different skills |
| CharacterStats.DefaultBaseStats | character_stats.py:59-89 | proficiency bonus is 2; armor class value 10 equals base 10 plus bonus 0; speed is 30 with no other movement; hit points are 0/0/0, so current ≤ maximum |
| CharacterStats.DefaultMagicAndEquipment | character_stats.py:108-109 | slots exist for levels "1".."9" only, all 0; the proficiency, expertise, cantrip, spell and item lists are empty; the purse is 0 |
| CharacterCreation.Next | handlers/character_creation.py:18-99 | each accepted input moves exactly one step forward; the last one ends the dialog |
| CharacterCreation.CheckName | handlers/character_creation.py:21-33 | a name is accepted exactly when its stripped length is 2..30 and it does not already load; a bad length is reported first |
| CharacterCreation.CheckRace | handlers/character_creation.py:49-55 | accepted exactly when the stripped text is one of the races |
| CharacterCreation.CheckClass | handlers/character_creation.py:71-77 | accepted exactly when the stripped text is one of the classes |
| CharacterCreation.ParseLevel | handlers/character_creation.py:86-94 | accepted exactly when the stripped text is an integer 1..20 |
| CharacterCreation.LevelReadBack | handlers/character_creation.py:86-96 | every level 1..20 typed as a number is accepted as itself |
| CharacterCreation.LevelOutOfRange | handlers/character_creation.py:89-91 | levels 0 and 21 are refused |
| CharacterCreation.ScoresFrom | handlers/character_creation.py:105-121 | six values each in 3..18 become the scores, in the order they were typed |
| CharacterCreation.ParseScores | handlers/character_creation.py:103-110 | accepted exactly when the text holds six integers each in 3..18 |
| CharacterCreation.ScoresReadBack | handlers/character_creation.py:104-121 | scores typed with spaces are assigned positionally to strength, dexterity, constitution, intelligence, wisdom, charisma |
| CharacterCreation.WrongScoreCount | handlers/character_creation.py:105-107 | any count other than six is refused |
| CharacterCreation.CreationDialog.constructor | handlers/character_creation.py:16-18 | a new dialog is idle |
| CharacterCreation.CreationDialog.Start | handlers/character_creation.py:16-18 | the command enters the name step |
| CharacterCreation.CreationDialog.ProcessName | handlers/character_creation.py:21-46 | the name step accepts as `CheckName` decides against the store; on acceptance it records the name and advances; on refusal the dialog is unchanged |
| CharacterCreation.CreationDialog.ProcessRace | handlers/character_creation.py:49-68 | records a valid race and advances; otherwise nothing changes |
| CharacterCreation.CreationDialog.ProcessClass | handlers/character_creation.py:71-83 | records a valid class and advances; otherwise nothing changes |
| CharacterCreation.CreationDialog.ProcessLevel | handlers/character_creation.py:86-99 | records a valid level and advances; otherwise nothing changes |
| CharacterCreation.CreationDialog.Advance | handlers/character_creation.py:33-99 | sets the collected values, moves to the next step and keeps every recorded value valid |
| CharacterCreation.CreationDialog.ProcessAbilities | handlers/character_creation.py:102-129 | on valid scores, saves exactly the collected name, race, class and level with those scores and ends the dialog; on invalid scores nothing changes |
| CharacterCreation.CreationDialog.Finish | handlers/character_creation.py:123-129 | the saved record passes every step's check; the store gains it and the dialog ends |
| MoneyManagement.ChooseOperation | handlers/money_management.py:66-105 | the three button labels map to their operations; any other text is refused |
| MoneyManagement.AmountFrom | handlers/money_management.py:132-134 | four values become platinum, gold, silver and copper in typed order, exactly when none is negative |
| MoneyManagement.AmountOf | handlers/money_management.py:127-137 | a count other than four is refused first; otherwise every token must be an integer and none negative |
| MoneyManagement.AmountReadBack | handlers/money_management.py:127-137 | an amount typed as four numbers is read back exactly |
| MoneyManagement.AmountWrongCount | handlers/money_management.py:128-130 | three or five numbers are refused as a wrong count |
| MoneyManagement.AmountNegative | handlers/money_management.py:133-136 | a negative value is refused |
| MoneyManagement.Credit | handlers/money_management.py:145-149 | each denomination gains its own amount |
| MoneyManagement.Debit | handlers/money_management.py:151-163 | the debit succeeds exactly when every denomination covers its part; then each is old − requested and none is negative |
| MoneyManagement.CreditKeepsNonNegative | handlers/money_management.py:145-149 | a credit keeps a non-negative purse non-negative, and the purse then covers the amount |
| MoneyManagement.DebitAfterCredit | handlers/money_management.py:145-163 | spending what was just added restores the purse |
| MoneyManagement.CreditAfterDebit | handlers/money_management.py:145-163 | adding back what was just spent restores the purse |
| MoneyManagement.NoConversion | handlers/money_management.py:146-163 | each denomination moves only by its own amount |
| MoneyManagement.NoChangeMaking | handlers/money_management.py:151-158 | spending gold the purse lacks fails even when there is platinum to spare |
| MoneyManagement.AddCoins | handlers/money_management.py:146-149 | the four in-place additions give the credited purse |
| MoneyManagement.SpendCoins | handlers/money_management.py:160-163 | the four in-place subtractions give the debited purse |
| MoneyManagement.ProcessMoneyAmount | handlers/money_management.py:124-166 | a bad amount asks again; the record is saved with the new purse exactly when it loads with a purse and the operation succeeds; otherwise the store is unchanged |
| InventoryManagement.CategoryOf | handlers/inventory_management.py:131-146 | Оружие, Броня and Предметы map to weapons, armor and items; any other label is refused |
| InventoryManagement.WithItems | handlers/inventory_management.py:213-247 | only the chosen category's list changes; the other lists and the purse are kept |
| InventoryManagement.Added | handlers/inventory_management.py:193-213 | an empty name and a present name are refused; otherwise the name is appended at the end and earlier items keep their order |
| InventoryManagement.Removed | handlers/inventory_management.py:239-247 | an absent name is refused; otherwise its first occurrence is removed |
| InventoryManagement.AddedKeepsNoDup | handlers/inventory_management.py:205-213 | adding keeps a list duplicate-free |
| InventoryManagement.RemovedKeepsNoDup | handlers/inventory_management.py:239-247 | removing keeps a list duplicate-free and the name is then gone |
| InventoryManagement.RemoveUndoesAdd | handlers/inventory_management.py:213-247 | removing the item just added gives the list back |
| InventoryManagement.AddTwiceRefused | handlers/inventory_management.py:205-211 | adding the same item again is refused as a duplicate |
| InventoryManagement.ProcessItemName | handlers/inventory_management.py:192-227 | an empty name asks again; the record is saved with the item appended to the chosen list exactly when it loads with equipment and the add is accepted; otherwise the store is unchanged |
| InventoryManagement.ProcessItemRemove | handlers/inventory_management.py:230-261 | the record is saved with the item removed from the chosen list exactly when it loads with equipment and the item is there; otherwise the store is unchanged |
| SpellManagement.SlotValues | handlers/spell_management.py:65-74 | slot input is accepted exactly when every token is an integer, there are at most nine and none is negative; more than nine is its own error |
| SpellManagement.SlotsReadBack | handlers/spell_management.py:65-74 | up to nine non-negative counts typed with spaces are read back exactly |
| SpellManagement.TenSlotsRefused | handlers/spell_management.py:66-68 | ten or more counts are refused |
| SpellManagement.LevelKeysStep | handlers/spell_management.py:81-82 | each loop pass writes a level key not written before |
| SpellManagement.OverwritesStep | handlers/spell_management.py:81-82 | one more loop pass extends the overwrite by one level |
| SpellManagement.WriteSlots | handlers/spell_management.py:81-82 | value i lands under key `str(i)` for i = 1..n, and every other key keeps its count |
| SpellManagement.ShortInputKeepsHigherLevels | handlers/spell_management.py:81-82 | levels above the number of values typed keep their counts |
| SpellManagement.ParseSpellLevel | handlers/spell_management.py:180-187 | a spell level is accepted exactly when it is an integer 1..9 |
| SpellManagement.SpellLevelReadBack | handlers/spell_management.py:181-190 | every level 1..9 typed as a number is accepted as itself |
| SpellManagement.DigitRun | handlers/spell_management.py:218 | the greedy `\d+` takes the longest run of digits |
| SpellManagement.LevelFromLeftmost | handlers/spell_management.py:217-219 | `re.search` reports the leftmost match |
| SpellManagement.LevelFromNone | handlers/spell_management.py:217-219 | without a match the key is 0 |
| SpellManagement.UntaggedLevelZero | handlers/spell_management.py:219 | an entry without "(" sorts under level 0 |
| SpellManagement.DigitRunOf | handlers/spell_management.py:218 | the digit run of digits followed by a non-digit is exactly those digits |
| SpellManagement.TagOf | handlers/spell_management.py:218-219 | "(" then digits then " уровень)" is a match whose level is those digits |
| SpellManagement.TagAfterName | handlers/spell_management.py:213-218 | the composite entry has a match right after the name, carrying the chosen level |
| SpellManagement.NoTagBefore | handlers/spell_management.py:213-218 | a name without "(" has no match before the tag |
| SpellManagement.CompositeLevel | handlers/spell_management.py:213-219 | "name (L уровень)" sorts under level L when the name has no "(" of its own |
| SpellManagement.TaggedNameKeepsItsLevel | handlers/spell_management.py:213-219 | a name that already holds a tag sorts under its own level, not under the one chosen |
| SpellManagement.AddedCantrip | handlers/spell_management.py:208-209 | a known cantrip leaves the list unchanged; a new one is appended at the end |
| SpellManagement.AddedSpell | handlers/spell_management.py:213-223 | a known composite entry leaves the list unchanged, not even re-sorted; otherwise the result is a permutation of the old list plus the entry |
| SpellManagement.RemovedSpell | handlers/spell_management.py:331-336 | an absent name changes nothing; a present one loses its first occurrence |
| SpellManagement.AddedCantripIdempotent | handlers/spell_management.py:208-209 | adding a cantrip twice is adding it once |
| SpellManagement.AddedCantripNoDup | handlers/spell_management.py:208-209 | the cantrip list stays duplicate-free |
| SpellManagement.AddedSpellIdempotent | handlers/spell_management.py:214-223 | adding a leveled spell twice is adding it once |
| SpellManagement.AddedSpellSorted | handlers/spell_management.py:222-223 | after an add the list is ascending by extracted level |
| SpellManagement.AddedSpellStable | handlers/spell_management.py:215-223 | the new entry follows every earlier entry of its level |
| SpellManagement.AddedSpellKeepsOtherLevels | handlers/spell_management.py:215-223 | entries of every other level keep their relative order |
| SpellManagement.RemovedSpellIdempotent | handlers/spell_management.py:331-336 | in a duplicate-free list, removing twice is removing once |
| SpellManagement.RemovedSpellSorted | handlers/spell_management.py:335-336 | removal keeps a level-ordered list in level order |
| SpellManagement.ProcessSlotsValues | handlers/spell_management.py:62-85 | bad slot input asks again and changes nothing; otherwise the slots are saved as in `SaveSlots` |
| SpellManagement.SaveSlots | handlers/spell_management.py:76-85 | the record is saved with only its slots changed, overwritten per `WriteSlots`, exactly when it loads with "magic"; otherwise the store is unchanged |
| SpellManagement.AddSpell | handlers/spell_management.py:205-223 | the in-place append and re-sort give `SpellAddedTo`: only the list of the chosen kind changes |
| SpellManagement.RemoveSpell | handlers/spell_management.py:331-336 | the in-place removal gives `SpellRemovedFrom`: only the list of the chosen kind changes |
| SpellManagement.ProcessSpellName | handlers/spell_management.py:199-226 | the record is saved with the stripped name added to the chosen list exactly when it loads with "magic"; otherwise the store is unchanged |
| SpellManagement.ProcessRemoveSpellName | handlers/spell_management.py:324-339 | the record is saved with the stripped name removed from the chosen list exactly when it loads with "magic"; otherwise the store is unchanged |
| ActiveCharacter.Promoted | handlers/active_character.py:47-59 | promotion keeps every file |
| ActiveCharacter.PromotedExactlyOne | handlers/active_character.py:47-59 | afterwards the chosen record is the only active one of its owner |
| ActiveCharacter.PromotedOnlyFlags | handlers/active_character.py:52-56 | only `is_active` changes, and only on the owner's records |
| ActiveCharacter.PromotedIdempotent | handlers/active_character.py:47-56 | promoting twice is promoting once |
| ActiveCharacter.PromotedWellKeyed | handlers/active_character.py:47-59 | promotion keeps every record under its owner and name |
| ActiveCharacter.ClearOne | handlers/active_character.py:50-53 | loading, clearing and saving one sibling clears one more key |
| ActiveCharacter.FlagAfterClear | handlers/active_character.py:56-59 | once every sibling is cleared, saving the flagged chosen record completes the promotion |
| ActiveCharacter.SiblingsCover | handlers/active_character.py:47-49 | the listed records with another name are exactly the user's other files |
| ActiveCharacter.ClearSiblings | handlers/active_character.py:47-53 | the loop clears the flag on every listed record with another name and changes nothing else |
| ActiveCharacter.ProcessActiveCharacter | handlers/active_character.py:34-70 | the store is promoted exactly when the chosen name loads; otherwise it is unchanged |
| ActiveCharacter.FirstActive | handlers/active_character.py:80-85 | returns the first flagged record of the listing, or nothing when none is flagged |
| ActiveCharacter.GetActive | handlers/active_character.py:73-95 | reports no characters exactly when the user has none; otherwise a flagged record of the user, or none when no record of the user is flagged |
| ActiveCharacter.LookupAfterPromotion | handlers/active_character.py:47-85 | after a promotion the only flagged record of the user is the chosen one |
| DescriptionManagement.DescriptionOf | handlers/description_management.py:127-128 | a missing description reads as the empty string |
| DescriptionManagement.NewDescription | handlers/description_management.py:67-70 | a text of whitespace only is refused; otherwise the stripped, non-empty text is taken |
| DescriptionManagement.Described | handlers/description_management.py:77 | the record's description becomes the new text |
| DescriptionManagement.DescribedChangesNothingElse | handlers/description_management.py:77 | no other field changes |
| DescriptionManagement.DescribedIdempotent | handlers/description_management.py:77 | setting the same description twice is setting it once |
| DescriptionManagement.NewDescriptionStable | handlers/description_management.py:67 | a stored description, typed again, is stored unchanged |
| DescriptionManagement.ProcessDescriptionText | handlers/description_management.py:66-91 | an empty description asks again; the record is saved with the new description exactly when the text is non-empty and the character loads; otherwise the store is unchanged |
| DescriptionManagement.ViewDescription | handlers/description_management.py:115-139 | reports a name that does not load, a missing or empty description, or exactly the stored text |
| DescriptionManagement.ViewAfterSet | handlers/description_management.py:66-128 | once a description is saved, reading it back gives the stripped text |

## Left out

- Telegram and aiogram plumbing is not modelled: keyboards, reply texts, `state.update_data`, `state.clear` and handler registration. Each handler is a method whose inputs are the values earlier dialog steps stored. The creation dialog's collected data is the one place where that data is modelled as state.
- Presentation is not modelled: the balance display (handlers/money_management.py:72-97, 166-189), the inventory and spell listings, the view and list commands, and the keyboards of the `cmd_*` commands and of the name-selection steps that precede each dialog.
- File and JSON I/O is not modelled: directory creation, `open`, `json.dump`/`json.load`, and the exception paths that make save return False or load return None. Saves always succeed, and a file holds exactly the record last saved to it.
- Storage.CharacterStorage.GetUserCharacters: the glob order of the listing is not fixed. The method picks an arbitrary order, and the promotion and lookup proofs hold for every order.
- Storage.IsAlnum: Python's Unicode `isalnum` is modelled for ASCII letters and digits and the Cyrillic block only. Other scripts count as non-alphanumeric.
- Text.ParseInt: Python's `int()` also accepts underscores between digits and non-ASCII decimal digits. The model accepts an optional sign followed by ASCII digits only.
- SpellManagement.DigitRun: the regex `\d` also matches non-ASCII decimal digits. The model matches ASCII digits only.
- Text.LowerChar: `lower()` is modelled for ASCII and Russian Cyrillic capitals only, the letters the confirmation answer can contain.
- Skill-bonus, saving-throw and proficiency/expertise computations are not modelled: the code shown has no handler for them. `calculate_modifier` is modelled on its own, since no shown handler calls it.
- Created records have no `equipment` or `magic` block (handlers/character_creation.py:113-124). The money, inventory and spell handlers then raise. The model returns `Aborted` and leaves the store unchanged.
- `process_remove_spell_name` reads a spell kind that the removal flow never stores. The kind is a parameter of the spell methods.
- ActiveCharacter.ProcessActiveCharacter: every save is assumed to succeed. The partial promotion left by a failing save between the sibling saves and the final one is not modelled.
- The money operation step is modelled only as the label mapping in `ChooseOperation`. The balance shown for "Показать баланс" and the load at handlers/money_management.py:70 are not modelled.
- The category step is modelled only as the label mapping in `CategoryOf`. The empty-list check and item keyboard of its remove branch (handlers/inventory_management.py:152-189) are not modelled.
- Concurrency is not modelled: each handler turn runs to completion before the next.
- The message strings and FSM state classes of config.py are not modelled. The race and class lists are constants.
