/**
 * The character record: the nested dictionary that the handlers load,
 * change and save. A key the dictionary may lack is an `Option`.
 */
module CharacterRecord {
  import opened Wrappers

  /** A Telegram user id: the owner of a record. */
  type UserId = int

  /** The six scores the creation dialog stores under "abilities", by English key. */
  datatype AbilityScores = AbilityScores(
    strength: int, dexterity: int, constitution: int,
    intelligence: int, wisdom: int, charisma: int)

  /** "equipment" / "money": the four coin denominations. */
  datatype Money = Money(platinum: int, gold: int, silver: int, copper: int)

  /** "equipment": the three item lists ("weapons", "armor", "items") and the purse. */
  datatype Equipment = Equipment(weapons: seq<string>, armor: seq<string>, items: seq<string>, money: Money)

  /** "magic": slot counts keyed "1".."9", the known cantrips and leveled spells, and two derived numbers. */
  datatype Magic = Magic(
    slots: map<string, int>, cantrips: seq<string>, spells: seq<string>,
    spellSaveDc: int, spellAttackBonus: int)

  /**
   * One persisted character. "user_id", "is_active" and "description" are
   * absent until a save, a promotion or a description update writes them;
   * a record written by the creation dialog has no "equipment" or "magic".
   */
  datatype Record = Record(
    name: string, race: string, className: string, level: int,
    abilities: AbilityScores,
    userId: Option<UserId>,
    isActive: Option<bool>,
    description: Option<string>,
    equipment: Option<Equipment>,
    magic: Option<Magic>)
}
