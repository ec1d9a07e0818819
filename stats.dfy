/**
 * character_stats.py: `CHARACTER_STATS`, the default D&D 5e sheet. It is
 * read-only configuration: the six abilities with the skills each owns,
 * the base parameters, the skill table, the empty equipment and the empty
 * spellcasting block.
 */
module CharacterStats {
  import opened Text
  import opened CharacterRecord
  import opened CharacterManagement

  /** One entry of "abilities". */
  datatype AbilityEntry = AbilityEntry(
    displayName: string, skills: seq<string>, value: int, modifier: int, savingThrowProficient: bool)

  datatype HitPoints = HitPoints(maximum: int, current: int, temporary: int)
  datatype ArmorClass = ArmorClass(value: int, base: int, bonus: int)
  datatype Speed = Speed(base: int, current: int, fly: int, swim: int, climb: int, burrow: int)

  /** "base_stats". */
  datatype BaseStats = BaseStats(hitPoints: HitPoints, armorClass: ArmorClass, proficiencyBonus: int, speed: Speed)

  /** "advanced_stats": saving throws, the skill table with the proficiency and expertise lists, resistances, immunities. */
  datatype AdvancedStats = AdvancedStats(
    savingThrows: map<string, int>,
    proficiencies: seq<string>, expertise: seq<string>, skillValues: map<string, int>,
    resistances: seq<string>, immunities: seq<string>)

  /** The whole default sheet. */
  datatype Sheet = Sheet(
    abilities: map<string, AbilityEntry>, baseStats: BaseStats, advancedStats: AdvancedStats,
    equipment: Equipment, magic: Magic)

  /** The ability keys, in the order the creation dialog asks for the scores. */
  const AbilityKeys: seq<string> := ["strength", "dexterity", "constitution", "intelligence", "wisdom", "charisma"]

  /** The skills each ability owns. */
  function SkillsOf(key: string): seq<string> {
    match key
    case "strength" => ["Атлетика"]
    case "dexterity" => ["Акробатика", "Ловкость рук", "Скрытность"]
    case "constitution" => []
    case "intelligence" => ["Анализ", "История", "Магия", "Природа", "Религия"]
    case "wisdom" => ["Восприятие", "Выживание", "Медицина", "Проницательность", "Уход за животными"]
    case "charisma" => ["Запугивание", "Обман", "Убеждение", "Выступление"]
    case _ => []
  }

  function DisplayName(key: string): string {
    match key
    case "strength" => "Сила"
    case "dexterity" => "Ловкость"
    case "constitution" => "Телосложение"
    case "intelligence" => "Интеллект"
    case "wisdom" => "Мудрость"
    case "charisma" => "Харизма"
    case _ => ""
  }

  /** "abilities": every ability starts at 10 with modifier 0 and no saving-throw proficiency. */
  function DefaultAbilities(): map<string, AbilityEntry> {
    map k | k in AbilityKeys :: AbilityEntry(DisplayName(k), SkillsOf(k), 10, 0, false)
  }

  /** The 18 skills, in the order of the skill table. */
  const SkillList: seq<string> := [
    "Атлетика", "Акробатика", "Ловкость рук", "Скрытность",
    "Анализ", "История", "Магия", "Природа", "Религия",
    "Восприятие", "Выживание", "Медицина", "Проницательность",
    "Уход за животными", "Запугивание", "Обман", "Убеждение", "Выступление"]

  /** "advanced_stats" / "skills" / "values": every skill at 0. */
  function DefaultSkillValues(): map<string, int> {
    map s | s in SkillList :: 0
  }

  /** "magic" / "spell_slots" / "values": levels "1".."9", all at 0. */
  function DefaultSlots(): map<string, int> {
    map l | 1 <= l <= 9 :: ShowInt(l) := 0
  }

  /** `CHARACTER_STATS`. */
  function DefaultSheet(): Sheet {
    Sheet(
      DefaultAbilities(),
      BaseStats(HitPoints(0, 0, 0), ArmorClass(10, 10, 0), 2, Speed(30, 30, 0, 0, 0, 0)),
      AdvancedStats(map k | k in AbilityKeys :: 0, [], [], DefaultSkillValues(), [], []),
      Equipment([], [], [], Money(0, 0, 0, 0)),
      Magic(DefaultSlots(), [], [], 0, 0))
  }

  /** There are exactly six abilities, under the six English keys. */
  lemma SixAbilities()
    ensures DefaultSheet().abilities.Keys == set k | k in AbilityKeys
    ensures |DefaultSheet().abilities| == 6
  {
    assert forall i, j :: 0 <= i < j < |AbilityKeys| ==> AbilityKeys[i] != AbilityKeys[j] by {
      assert AbilityKeys[0][0] != AbilityKeys[5][0];
      assert AbilityKeys[2][0] != AbilityKeys[3][0];
    }
    DistinctCard(AbilityKeys);
  }

  /** Every default ability value is 10 and its stored modifier 0 agrees with the modifier rule. */
  lemma DefaultModifiersAgree()
    ensures forall k | k in DefaultSheet().abilities ::
      DefaultSheet().abilities[k].value == 10 &&
      DefaultSheet().abilities[k].modifier == Modifier(DefaultSheet().abilities[k].value) == 0
  {
  }

  /** Constitution owns no skills. */
  lemma ConstitutionHasNoSkills()
    ensures DefaultSheet().abilities["constitution"].skills == []
  {
  }

  /**
   * The ability that owns a skill, read off the skill's position in the
   * skill table, which lists the skills grouped by ability.
   */
  function OwnerOf(skill: string): string {
    var i := SkillIndex(skill);
    if i == 0 then "strength"
    else if 1 <= i <= 3 then "dexterity"
    else if 4 <= i <= 8 then "intelligence"
    else if 9 <= i <= 13 then "wisdom"
    else if 14 <= i <= 17 then "charisma"
    else ""
  }

  /** Each skill in an ability's list is owned by that ability alone. */
  lemma SkillOwnedOnce(k1: string, k2: string, skill: string)
    requires k1 in AbilityKeys && k2 in AbilityKeys
    requires skill in SkillsOf(k1) && skill in SkillsOf(k2)
    ensures k1 == k2
  {
    OwnerIsListOwner(k1, skill);
    OwnerIsListOwner(k2, skill);
  }

  /** The skills an ability lists are owned by it and appear in the skill table. */
  lemma OwnsItsSkills(k: string)
    requires k in AbilityKeys
    ensures forall skill | skill in SkillsOf(k) :: OwnerOf(skill) == k && skill in DefaultSkillValues()
  {
    if k == "strength" {
      StrengthBlock();
    } else if k == "dexterity" {
      DexterityBlock();
    } else if k == "intelligence" {
      IntelligenceBlock();
    } else if k == "wisdom" {
      WisdomBlock();
    } else if k == "charisma" {
      CharismaBlock();
    }
  }

  lemma StrengthBlock()
    ensures forall skill | skill in SkillsOf("strength") :: OwnerOf(skill) == "strength" && skill in DefaultSkillValues()
  {
    SkillIndexOf();
    OwnedRange("strength", 0, 1);
  }

  lemma DexterityBlock()
    ensures forall skill | skill in SkillsOf("dexterity") :: OwnerOf(skill) == "dexterity" && skill in DefaultSkillValues()
  {
    SkillIndexOf();
    OwnedRange("dexterity", 1, 4);
  }

  lemma IntelligenceBlock()
    ensures forall skill | skill in SkillsOf("intelligence") :: OwnerOf(skill) == "intelligence" && skill in DefaultSkillValues()
  {
    SkillIndexOf();
    OwnedRange("intelligence", 4, 9);
  }

  lemma WisdomBlock()
    ensures forall skill | skill in SkillsOf("wisdom") :: OwnerOf(skill) == "wisdom" && skill in DefaultSkillValues()
  {
    SkillIndexOf();
    OwnedRange("wisdom", 9, 14);
  }

  lemma CharismaBlock()
    ensures forall skill | skill in SkillsOf("charisma") :: OwnerOf(skill) == "charisma" && skill in DefaultSkillValues()
  {
    SkillIndexOf();
    OwnedRange("charisma", 14, 18);
  }

  /** An ability whose list is a block of the skill table owns the skills of that block. */
  lemma OwnedRange(k: string, lo: nat, hi: nat)
    requires lo <= hi <= |SkillList| && SkillsOf(k) == SkillList[lo..hi]
    requires forall j | lo <= j < hi :: OwnerOf(SkillList[j]) == k
    ensures forall skill | skill in SkillsOf(k) :: OwnerOf(skill) == k && skill in DefaultSkillValues()
  {
    forall skill | skill in SkillsOf(k) ensures OwnerOf(skill) == k && skill in DefaultSkillValues() {
      var j :| lo <= j < hi && SkillList[j] == skill;
    }
  }

  lemma OwnerIsListOwner(k: string, skill: string)
    requires k in AbilityKeys && skill in SkillsOf(k)
    ensures OwnerOf(skill) == k && skill in DefaultSkillValues()
  {
    OwnsItsSkills(k);
  }

  /** Each skill of the table is in its owner's list. */
  lemma TableSkillOwned(skill: string)
    requires skill in DefaultSkillValues()
    ensures OwnerOf(skill) in AbilityKeys && skill in SkillsOf(OwnerOf(skill))
  {
    var owners := ["strength", "dexterity", "intelligence", "wisdom", "charisma"];
    assert SkillList == SkillsOf(owners[0]) + SkillsOf(owners[1]) + SkillsOf(owners[2]) + SkillsOf(owners[3]) + SkillsOf(owners[4]);
    var i :| 0 <= i < 5 && skill in SkillsOf(owners[i]);
    OwnsItsSkills(owners[i]);
  }

  /** The position of a skill in `SkillList`. */
  function SkillIndex(skill: string): int {
    match skill
    case "Атлетика" => 0
    case "Акробатика" => 1
    case "Ловкость рук" => 2
    case "Скрытность" => 3
    case "Анализ" => 4
    case "История" => 5
    case "Магия" => 6
    case "Природа" => 7
    case "Религия" => 8
    case "Восприятие" => 9
    case "Выживание" => 10
    case "Медицина" => 11
    case "Проницательность" => 12
    case "Уход за животными" => 13
    case "Запугивание" => 14
    case "Обман" => 15
    case "Убеждение" => 16
    case "Выступление" => 17
    case _ => -1
  }

  /** Each skill of the table sits at its own position. */
  lemma SkillIndexOf()
    ensures forall i | 0 <= i < |SkillList| :: SkillIndex(SkillList[i]) == i
  {
  }

  lemma {:induction false} DistinctCard<T>(xs: seq<T>)
    requires forall i, j :: 0 <= i < j < |xs| ==> xs[i] != xs[j]
    ensures |set x | x in xs| == |xs|
  {
    if xs != [] {
      var last := xs[|xs| - 1];
      var init := xs[..|xs| - 1];
      DistinctCard(init);
      assert (set x | x in xs) == (set x | x in init) + {last};
      assert last !in (set x | x in init);
    }
  }

  /** The table holds 18 different skills. */
  lemma EighteenSkills()
    ensures |DefaultSkillValues()| == 18
  {
    SkillIndexOf();
    DistinctCard(SkillList);
    assert DefaultSkillValues().Keys == set s | s in SkillList;
  }

  /** The base parameters: bonus 2, armor 10 = base 10 + bonus 0, speed 30, other movement 0, hit points 0/0/0. */
  lemma DefaultBaseStats()
    ensures var b := DefaultSheet().baseStats;
      && b.proficiencyBonus == 2
      && b.armorClass.value == b.armorClass.base + b.armorClass.bonus == 10
      && b.speed.base == b.speed.current == 30
      && b.speed.fly == b.speed.swim == b.speed.climb == b.speed.burrow == 0
      && b.hitPoints.maximum == b.hitPoints.current == b.hitPoints.temporary == 0
      && 0 <= b.hitPoints.current <= b.hitPoints.maximum
  {
  }

  /** Spell slots exist for levels "1".."9" only, all 0; every list starts empty and the purse at 0. */
  lemma DefaultMagicAndEquipment()
    ensures DefaultSheet().magic.slots.Keys == {"1", "2", "3", "4", "5", "6", "7", "8", "9"}
    ensures forall k | k in DefaultSheet().magic.slots :: DefaultSheet().magic.slots[k] == 0
    ensures DefaultSheet().magic.cantrips == [] && DefaultSheet().magic.spells == []
    ensures DefaultSheet().advancedStats.proficiencies == [] && DefaultSheet().advancedStats.expertise == []
    ensures DefaultSheet().equipment == Equipment([], [], [], Money(0, 0, 0, 0))
  {
    var ks := DefaultSlots().Keys;
    forall l | 1 <= l <= 9 ensures ShowInt(l) == [DigitChar(l)] { }
    assert ks == {"1", "2", "3", "4", "5", "6", "7", "8", "9"} by {
      assert ShowInt(1) == "1" && ShowInt(2) == "2" && ShowInt(3) == "3";
      assert ShowInt(4) == "4" && ShowInt(5) == "5" && ShowInt(6) == "6";
      assert ShowInt(7) == "7" && ShowInt(8) == "8" && ShowInt(9) == "9";
    }
  }
}
