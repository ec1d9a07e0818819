/**
 * handlers/character_creation.py: the five-step creation dialog
 * name -> race -> class -> level -> six ability scores. Each step either
 * rejects the message and waits in the same step, or records the value in
 * the dialog data and moves to the next step; the last step saves the
 * record and ends the dialog.
 */
module CharacterCreation {
  import opened Wrappers
  import opened Text
  import opened CharacterRecord
  import opened Storage
  import opened Config

  /** The dialog state: no dialog, or waiting for one of the five inputs. */
  datatype Step = Idle | AwaitName | AwaitRace | AwaitClass | AwaitLevel | AwaitAbilities

  /** How far the dialog has got; each accepted input adds one. */
  function Rank(s: Step): nat {
    match s
    case Idle => 0
    case AwaitName => 1
    case AwaitRace => 2
    case AwaitClass => 3
    case AwaitLevel => 4
    case AwaitAbilities => 5
  }

  /** The step after an accepted input; the last step ends the dialog. */
  function Next(s: Step): (t: Step)
    requires s != Idle
    ensures s != AwaitAbilities ==> Rank(t) == Rank(s) + 1
    ensures s == AwaitAbilities ==> t == Idle
  {
    match s
    case AwaitName => AwaitRace
    case AwaitRace => AwaitClass
    case AwaitClass => AwaitLevel
    case AwaitLevel => AwaitAbilities
    case AwaitAbilities => Idle
  }

  datatype CreationError = NameLength | NameTaken | UnknownRace | UnknownClass | BadLevel | BadScores

  /**
   * `process_name`: the stripped name must have 2..30 characters and must
   * not already load for this user (`existing` is that load).
   */
  function CheckName(text: string, existing: Option<Record>): (r: Result<string, CreationError>)
    ensures r.Success? <==> 2 <= |Strip(text)| <= 30 && existing.None?
    ensures r.Success? ==> r.value == Strip(text)
    ensures !(2 <= |Strip(text)| <= 30) ==> r == Failure(NameLength)
  {
    var name := Strip(text);
    if !(2 <= |name| <= 30) then Failure(NameLength)
    else if existing.Some? then Failure(NameTaken)
    else Success(name)
  }

  /** `process_race`: the stripped text must be one of the races. */
  function CheckRace(text: string): (r: Result<string, CreationError>)
    ensures r.Success? <==> IsRace(Strip(text))
    ensures r.Success? ==> r.value == Strip(text)
  {
    if IsRace(Strip(text)) then Success(Strip(text)) else Failure(UnknownRace)
  }

  /** `process_class`: the stripped text must be one of the classes. */
  function CheckClass(text: string): (r: Result<string, CreationError>)
    ensures r.Success? <==> IsClass(Strip(text))
    ensures r.Success? ==> r.value == Strip(text)
  {
    if IsClass(Strip(text)) then Success(Strip(text)) else Failure(UnknownClass)
  }

  /** `process_level`: an integer 1..20; anything else (ValueError or out of range) is rejected. */
  function ParseLevel(text: string): (r: Option<int>)
    ensures r.Some? ==> 1 <= r.value <= 20 && ParseInt(Strip(text)) == Some(r.value)
    ensures r.None? ==> ParseInt(Strip(text)).None? || !(1 <= ParseInt(Strip(text)).value <= 20)
  {
    match ParseInt(Strip(text))
    case None => None
    case Some(level) => if 1 <= level <= 20 then Some(level) else None
  }

  /** Every level the dialog asks for is accepted when typed as a number. */
  lemma LevelReadBack(level: int)
    requires 1 <= level <= 20
    ensures ParseLevel(ShowInt(level)) == Some(level)
  {
    ParseShowInt(level);
    StripTrimmed(ShowInt(level));
  }

  lemma LevelOutOfRange()
    ensures ParseLevel(ShowInt(0)).None? && ParseLevel(ShowInt(21)).None?
  {
    ParseShowInt(0);
    StripTrimmed(ShowInt(0));
    ParseShowInt(21);
    StripTrimmed(ShowInt(21));
  }

  /** The scores in the order the dialog asks for them. */
  function ScoreList(a: AbilityScores): seq<int> {
    [a.strength, a.dexterity, a.constitution, a.intelligence, a.wisdom, a.charisma]
  }

  predicate InScoreRange(xs: seq<int>) {
    forall i :: 0 <= i < |xs| ==> 3 <= xs[i] <= 18
  }

  /** Six values in the dialog's order, each 3..18, as ability scores. */
  function ScoresFrom(xs: seq<int>): (r: Option<AbilityScores>)
    ensures r.Some? <==> |xs| == 6 && InScoreRange(xs)
    ensures r.Some? ==> ScoreList(r.value) == xs
  {
    if |xs| != 6 || !InScoreRange(xs) then None
    else Some(AbilityScores(xs[0], xs[1], xs[2], xs[3], xs[4], xs[5]))
  }

  /**
   * `process_abilities`: exactly six integers, each 3..18, assigned in order
   * to strength, dexterity, constitution, intelligence, wisdom, charisma.
   */
  function ParseScores(text: string): (r: Option<AbilityScores>)
    ensures r.Some? ==> ParseAll(Split(Strip(text))) == Some(ScoreList(r.value)) && InScoreRange(ScoreList(r.value))
    ensures r.None? ==> ParseAll(Split(Strip(text))).None? || ScoresFrom(ParseAll(Split(Strip(text))).value).None?
  {
    var xs := ParseAll(Split(Strip(text)));
    if xs.None? then None else ScoresFrom(xs.value)
  }

  /** Scores typed as "15 14 13 12 10 8" are read back positionally. */
  lemma ScoresReadBack(a: AbilityScores)
    requires InScoreRange(ScoreList(a))
    ensures ParseScores(Join(ShowAll(ScoreList(a)))) == Some(a)
  {
    ReadBackInts(ScoreList(a));
  }

  /** Five scores (or seven) are rejected, whatever their values. */
  lemma WrongScoreCount(xs: seq<int>)
    requires |xs| != 6
    ensures ParseScores(Join(ShowAll(xs))).None?
  {
    ReadBackInts(xs);
  }

  /** The record `process_abilities` saves: the dialog data plus the scores, nothing else. */
  function NewRecord(name: string, race: string, className: string, level: int, scores: AbilityScores): Record {
    Record(name, race, className, level, scores, None, None, None, None, None)
  }

  /** What every record saved by the dialog satisfies. */
  predicate ValidCreated(r: Record) {
    && 2 <= |r.name| <= 30
    && IsRace(r.race)
    && IsClass(r.className)
    && 1 <= r.level <= 20
    && InScoreRange(ScoreList(r.abilities))
  }

  /** The creation dialog of one user: the FSM state and the data collected so far. */
  class CreationDialog {
    var step: Step
    var name: string
    var race: string
    var className: string
    var level: int

    /** Every value recorded so far passed its step's check. */
    ghost predicate Valid()
      reads this
    {
      && (Rank(step) >= 2 ==> 2 <= |name| <= 30)
      && (Rank(step) >= 3 ==> IsRace(race))
      && (Rank(step) >= 4 ==> IsClass(className))
      && (Rank(step) >= 5 ==> 1 <= level <= 20)
    }

    constructor ()
      ensures Valid() && step == Idle
    {
      step, name, race, className, level := Idle, "", "", "", 0;
    }

    /** `cmd_create_character`: enter the name step; collected data is kept. */
    method Start()
      modifies this
      ensures Valid() && step == AwaitName
      ensures name == old(name) && race == old(race) && className == old(className) && level == old(level)
    {
      step := AwaitName;
    }

    /** `process_name`. */
    method ProcessName(store: CharacterStorage, user: UserId, text: string) returns (r: Result<string, CreationError>)
      requires Valid() && step == AwaitName && store.Valid()
      modifies this
      ensures Valid()
      ensures r == CheckName(text, Find(store.files, user, Strip(text)))
      ensures r.Success? ==> step == Next(old(step)) && name == r.value
      ensures r.Success? ==> race == old(race) && className == old(className) && level == old(level)
      ensures r.Failure? ==> unchanged(this)
    {
      var candidate := Strip(text);
      if !(2 <= |candidate| <= 30) {
        return Failure(NameLength);
      }
      var existing := store.LoadCharacter(user, candidate);
      r := CheckName(text, existing);
      if r.Success? {
        Advance(r.value, race, className, level);
      }
    }

    /** `process_race`. */
    method ProcessRace(text: string) returns (r: Result<string, CreationError>)
      requires Valid() && step == AwaitRace
      modifies this
      ensures Valid()
      ensures r == CheckRace(text)
      ensures r.Success? ==> step == Next(old(step)) && race == r.value
      ensures r.Success? ==> name == old(name) && className == old(className) && level == old(level)
      ensures r.Failure? ==> unchanged(this)
    {
      r := CheckRace(text);
      if r.Success? {
        Advance(name, r.value, className, level);
      }
    }

    /** `process_class`. */
    method ProcessClass(text: string) returns (r: Result<string, CreationError>)
      requires Valid() && step == AwaitClass
      modifies this
      ensures Valid()
      ensures r == CheckClass(text)
      ensures r.Success? ==> step == Next(old(step)) && className == r.value
      ensures r.Success? ==> name == old(name) && race == old(race) && level == old(level)
      ensures r.Failure? ==> unchanged(this)
    {
      r := CheckClass(text);
      if r.Success? {
        Advance(name, race, r.value, level);
      }
    }

    /** `process_level`. */
    method ProcessLevel(text: string) returns (r: Option<int>)
      requires Valid() && step == AwaitLevel
      modifies this
      ensures Valid()
      ensures r == ParseLevel(text)
      ensures r.Some? ==> step == Next(old(step)) && level == r.value
      ensures r.Some? ==> name == old(name) && race == old(race) && className == old(className)
      ensures r.None? ==> unchanged(this)
    {
      r := ParseLevel(text);
      if r.Some? {
        Advance(name, race, className, r.value);
      }
    }

    /**
     * One accepted input: the dialog data becomes the given values (the
     * caller passes the old value of every field but the one it sets) and
     * the dialog moves to the next step.
     */
    method Advance(name': string, race': string, className': string, level': int)
      requires Valid() && step != Idle && step != AwaitAbilities
      requires step == AwaitName ==> 2 <= |name'| <= 30
      requires step == AwaitRace ==> IsRace(race') && name' == name
      requires step == AwaitClass ==> IsClass(className') && name' == name && race' == race
      requires step == AwaitLevel ==> 1 <= level' <= 20 && name' == name && race' == race && className' == className
      modifies this
      ensures Valid() && step == Next(old(step))
      ensures name == name' && race == race' && className == className' && level == level'
    {
      name, race, className, level := name', race', className', level';
      step := Next(step);
    }

    /**
     * `process_abilities`: on valid scores, saves the new record and clears
     * the dialog; on invalid input, waits for another try and saves nothing.
     */
    method ProcessAbilities(store: CharacterStorage, user: UserId, text: string) returns (saved: Option<Record>)
      requires Valid() && step == AwaitAbilities && store.Valid()
      modifies this, store
      ensures Valid() && store.Valid()
      ensures saved.Some? <==> ParseScores(text).Some?
      ensures saved.None? ==> unchanged(this) && store.files == old(store.files)
      ensures saved.Some? ==>
        && saved.value == NewRecord(old(name), old(race), old(className), old(level), ParseScores(text).value)
        && ValidCreated(saved.value)
        && step == Next(old(step))
        && store.files == Stored(old(store.files), user, saved.value)
    {
      var scores := ParseScores(text);
      if scores.None? {
        return None;
      }
      var record := NewRecord(name, race, className, level, scores.value);
      Finish(store, user, record);
      saved := Some(record);
    }

    /** Lines 124-128: the record is saved and the dialog data cleared. */
    method Finish(store: CharacterStorage, user: UserId, record: Record)
      requires Valid() && step == AwaitAbilities && store.Valid()
      requires record.name == name && record.race == race && record.className == className && record.level == level
      requires InScoreRange(ScoreList(record.abilities))
      modifies this, store
      ensures Valid() && store.Valid() && step == Idle
      ensures ValidCreated(record)
      ensures store.files == Stored(old(store.files), user, record)
    {
      var _ := store.SaveCharacter(user, record);
      step, name, race, className, level := Idle, "", "", "", 0;
    }
  }
}
