/**
 * handlers/spell_management.py: slot counts, known cantrips and known
 * leveled spells. Slot values overwrite levels 1..n and keep the rest; a
 * cantrip is appended once; a leveled spell is stored as "name (L уровень)"
 * and the list is then stably sorted by the level read back out of each
 * entry; removal deletes the first occurrence of a present name.
 */
module SpellManagement {
  import opened Wrappers
  import opened Text
  import opened CharacterRecord
  import opened Storage
  import opened Lists
  import opened StableSort

  // ---------------------------------------------------------------- slots

  datatype SlotError = NotNonNegative | TooMany

  /**
   * `process_spell_slots_values`, lines 65-74, on the tokens of the message:
   * every token is converted first, then more than nine values is refused,
   * then a negative value is.
   */
  function SlotValues(tokens: seq<string>): (r: Result<seq<int>, SlotError>)
    ensures r.Success? <==>
      ParseAll(tokens).Some? && |ParseAll(tokens).value| <= 9 && forall i :: 0 <= i < |tokens| ==> ParseAll(tokens).value[i] >= 0
    ensures r.Success? ==> ParseAll(tokens) == Some(r.value)
    ensures r == Failure(TooMany) <==> ParseAll(tokens).Some? && |ParseAll(tokens).value| > 9
  {
    match ParseAll(tokens)
    case None => Failure(NotNonNegative)
    case Some(values) =>
      if |values| > 9 then Failure(TooMany)
      else if exists i :: 0 <= i < |values| && values[i] < 0 then Failure(NotNonNegative)
      else Success(values)
  }

  /** The slot counts in a message, split as `message.text.strip().split()`. */
  function ParseSlots(text: string): Result<seq<int>, SlotError> {
    SlotValues(Split(Strip(text)))
  }

  /** Up to nine non-negative counts typed with spaces are read back exactly. */
  lemma SlotsReadBack(values: seq<int>)
    requires |values| <= 9 && forall i :: 0 <= i < |values| ==> values[i] >= 0
    ensures ParseSlots(Join(ShowAll(values))) == Success(values)
  {
    ReadBackInts(values);
  }

  /** Ten counts are refused, whatever they are. */
  lemma TenSlotsRefused(values: seq<int>)
    requires |values| > 9
    ensures ParseSlots(Join(ShowAll(values))) == Failure(TooMany)
  {
    ReadBackInts(values);
  }

  /** The slot keys "1".."n" that the first `n` values are written to. */
  function LevelKeys(n: nat): set<string> {
    set level | 1 <= level <= n :: ShowInt(level)
  }

  lemma LevelKeysStep(n: nat)
    ensures LevelKeys(n + 1) == LevelKeys(n) + {ShowInt(n + 1)}
    ensures ShowInt(n + 1) !in LevelKeys(n)
  {
    if ShowInt(n + 1) in LevelKeys(n) {
      var level :| 1 <= level <= n && ShowInt(level) == ShowInt(n + 1);
      ShowIntInjective(level, n + 1);
    }
  }

  /** `after` is `before` with value `i` under key `str(i)` for i = 1..|values|, and every other key kept. */
  predicate Overwrites(before: map<string, int>, values: seq<int>, after: map<string, int>) {
    && after.Keys == before.Keys + LevelKeys(|values|)
    && (forall level :: 1 <= level <= |values| ==> after[ShowInt(level)] == values[level - 1])
    && (forall k :: k in before && k !in LevelKeys(|values|) ==> after[k] == before[k])
  }

  /** One more pass of the loop: writing value `i + 1` under its key extends the overwrite by one level. */
  lemma OverwritesStep(slots: map<string, int>, values: seq<int>, i: nat, r: map<string, int>)
    requires i < |values| && Overwrites(slots, values[..i], r)
    ensures Overwrites(slots, values[..i + 1], r[ShowInt(i + 1) := values[i]])
  {
    LevelKeysStep(i);
    var r' := r[ShowInt(i + 1) := values[i]];
    forall level | 1 <= level <= i + 1 ensures r'[ShowInt(level)] == values[..i + 1][level - 1] {
      if level <= i {
        assert ShowInt(level) in LevelKeys(i);
      }
    }
  }

  /** Lines 81-82: the loop `for level, slots in enumerate(values, 1)`. */
  method WriteSlots(slots: map<string, int>, values: seq<int>) returns (r: map<string, int>)
    ensures Overwrites(slots, values, r)
  {
    r := slots;
    assert values[..0] == [];
    for i := 0 to |values|
      invariant Overwrites(slots, values[..i], r)
    {
      OverwritesStep(slots, values, i, r);
      r := r[ShowInt(i + 1) := values[i]];
    }
    assert values[..|values|] == values;
  }

  /** Writing only the first levels keeps the counts of the higher ones: "4 3" leaves level 3 alone. */
  lemma ShortInputKeepsHigherLevels(before: map<string, int>, values: seq<int>, after: map<string, int>, level: nat)
    requires Overwrites(before, values, after)
    requires |values| < level && ShowInt(level) in before
    ensures after[ShowInt(level)] == before[ShowInt(level)]
  {
    if ShowInt(level) in LevelKeys(|values|) {
      var l :| 1 <= l <= |values| && ShowInt(l) == ShowInt(level);
      ShowIntInjective(l, level);
    }
  }

  /** `process_spell_level`: an integer 1..9, anything else asks again. */
  function ParseSpellLevel(text: string): (r: Option<int>)
    ensures r.Some? ==> 1 <= r.value <= 9 && ParseInt(Strip(text)) == Some(r.value)
    ensures r.None? ==> ParseInt(Strip(text)).None? || !(1 <= ParseInt(Strip(text)).value <= 9)
  {
    match ParseInt(Strip(text))
    case None => None
    case Some(level) => if 1 <= level <= 9 then Some(level) else None
  }

  /** Every level button "1".."9" is accepted as its number. */
  lemma SpellLevelReadBack(level: int)
    requires 1 <= level <= 9
    ensures ParseSpellLevel(ShowInt(level)) == Some(level)
  {
    ParseShowInt(level);
    StripTrimmed(ShowInt(level));
  }

  // ------------------------------------------------------ the level tag

  /** The text after the digits in "name (L уровень)". */
  const LevelTag: string := " уровень)"

  /** Line 213: how a leveled spell is stored. */
  function Composite(name: string, level: int): string {
    name + " (" + ShowInt(level) + LevelTag
  }

  /** The longest run of ASCII digits at the start of `t`, as the greedy `\d+` takes it. */
  function DigitRun(t: string): (d: string)
    ensures |d| <= |t| && d == t[..|d|] && AllDigits(d)
    ensures |d| == |t| || !IsDigit(t[|d|])
  {
    if t == [] || !IsDigit(t[0]) then [] else [t[0]] + DigitRun(t[1..])
  }

  /** The pattern `\((\d+) уровень\)` matches at position `p` of `s`. */
  predicate TagAt(s: string, p: nat) {
    p < |s| && s[p] == '(' && DigitRun(s[p + 1..]) != [] && LevelTag <= s[p + 1 + |DigitRun(s[p + 1..])|..]
  }

  /** `int(match.group(1))` for the match at `p`. */
  function TagLevel(s: string, p: nat): nat
    requires TagAt(s, p)
  {
    DigitsValue(DigitRun(s[p + 1..]))
  }

  /** `re.search` from position `p`: the level of the leftmost match, or 0 without one. */
  function LevelFrom(s: string, p: nat): nat
    requires p <= |s|
    decreases |s| - p
  {
    if p == |s| then 0
    else if TagAt(s, p) then TagLevel(s, p)
    else LevelFrom(s, p + 1)
  }

  /** Lines 217-219, `extract_level`: the sort key of a spell entry. */
  function ExtractLevel(s: string): int {
    LevelFrom(s, 0)
  }

  /** The search returns the level of the leftmost match. */
  lemma {:induction false} LevelFromLeftmost(s: string, p: nat, q: nat)
    requires p <= q < |s| && TagAt(s, q)
    requires forall q' :: p <= q' < q ==> !TagAt(s, q')
    ensures LevelFrom(s, p) == TagLevel(s, q)
    decreases q - p
  {
    if p < q {
      LevelFromLeftmost(s, p + 1, q);
    }
  }

  /** Without a match the key is 0. */
  lemma {:induction false} LevelFromNone(s: string, p: nat)
    requires p <= |s|
    requires forall q :: p <= q < |s| ==> !TagAt(s, q)
    ensures LevelFrom(s, p) == 0
    decreases |s| - p
  {
    if p < |s| {
      LevelFromNone(s, p + 1);
    }
  }

  /** A name with no "(" has no tag, so it sorts under level 0. */
  lemma UntaggedLevelZero(s: string)
    requires '(' !in s
    ensures ExtractLevel(s) == 0
  {
    forall q | 0 <= q < |s| ensures !TagAt(s, q) {
      assert s[q] in s;
    }
    LevelFromNone(s, 0);
  }

  lemma {:induction false} DigitRunOf(d: string, t: string)
    requires AllDigits(d) && (t == [] || !IsDigit(t[0]))
    ensures DigitRun(d + t) == d
  {
    if d != [] {
      assert (d + t)[1..] == d[1..] + t;
      DigitRunOf(d[1..], t);
    }
  }

  /** A "(" followed by digits and the closing words is a match, whose level is those digits. */
  lemma TagOf(s: string, p: nat, d: string, t: string)
    requires p < |s| && s[p] == '(' && s[p + 1..] == d + t
    requires d != [] && AllDigits(d) && LevelTag <= t
    ensures TagAt(s, p) && TagLevel(s, p) == DigitsValue(d)
  {
    assert t[0] == LevelTag[0] == ' ';
    DigitRunOf(d, t);
    assert s[p + 1 + |d|..] == t;
  }

  /** The composite entry carries its tag right after the name and the space. */
  lemma TagAfterName(name: string, level: nat)
    ensures TagAt(Composite(name, level), |name| + 1)
    ensures TagLevel(Composite(name, level), |name| + 1) == level
  {
    var s := Composite(name, level);
    var d := ShowNat(level);
    assert ShowInt(level) == d;
    assert s == (name + " (") + (d + LevelTag);
    assert s[|name| + 1] == '(';
    assert s[|name| + 2..] == d + LevelTag;
    TagOf(s, |name| + 1, d, LevelTag);
    DigitsValueShowNat(level);
  }

  /** Before the tag, the composite entry has no "(" unless the name has one. */
  lemma NoTagBefore(name: string, level: nat, q: nat)
    requires '(' !in name && q < |name| + 1
    ensures !TagAt(Composite(name, level), q)
  {
    var s := Composite(name, level);
    if q < |name| {
      assert s[q] == name[q];
      assert name[q] in name;
    } else {
      assert s[q] == ' ';
    }
  }

  /** A spell stored as "name (L уровень)" sorts under level L, as long as its name has no "(" of its own. */
  lemma CompositeLevel(name: string, level: nat)
    requires '(' !in name
    ensures ExtractLevel(Composite(name, level)) == level
  {
    TagAfterName(name, level);
    forall q | 0 <= q < |name| + 1 ensures !TagAt(Composite(name, level), q) {
      NoTagBefore(name, level, q);
    }
    LevelFromLeftmost(Composite(name, level), 0, |name| + 1);
  }

  /** A name that already carries a tag keeps its own level, whatever level is chosen for it. */
  lemma TaggedNameKeepsItsLevel()
    ensures ExtractLevel(Composite("(2" + LevelTag, 5)) == 2
  {
    var s := Composite("(2" + LevelTag, 5);
    var t := LevelTag + " (" + ShowInt(5) + LevelTag;
    assert s == "(" + ("2" + t);
    assert s[1..] == "2" + t;
    TagOf(s, 0, "2", t);
    assert DigitsValue("2") == 2;
    LevelFromLeftmost(s, 0, 0);
  }

  // ------------------------------------------------ the known-spell lists

  /** Lines 208-209: a cantrip is appended unless already known. */
  function AddedCantrip(cantrips: seq<string>, name: string): (r: seq<string>)
    ensures name in r
    ensures name in cantrips ==> r == cantrips
    ensures name !in cantrips ==> |r| == |cantrips| + 1 && r[..|cantrips|] == cantrips && r[|cantrips|] == name
  {
    if name in cantrips then cantrips else cantrips + [name]
  }

  /**
   * Lines 213-223: the composite entry is appended and the list re-sorted by
   * `extract_level`, unless the entry is already known.
   */
  function AddedSpell(spells: seq<string>, name: string, level: int): (r: seq<string>)
    ensures Composite(name, level) in spells ==> r == spells
    ensures Composite(name, level) !in spells ==> multiset(r) == multiset(spells) + multiset{Composite(name, level)}
  {
    var entry := Composite(name, level);
    if entry in spells then spells
    else
      SortByOrdersAndPermutes(spells + [entry], ExtractLevel);
      assert multiset(spells + [entry]) == multiset(spells) + multiset{entry};
      SortBy(spells + [entry], ExtractLevel)
  }

  /** Lines 331-336: the first occurrence of a known name is removed; an unknown name changes nothing. */
  function RemovedSpell(known: seq<string>, name: string): (r: seq<string>)
    ensures name !in known ==> r == known
    ensures name in known ==> r == RemoveFirst(known, name)
  {
    if name in known then RemoveFirst(known, name) else known
  }

  /** Adding a cantrip twice is adding it once. */
  lemma AddedCantripIdempotent(cantrips: seq<string>, name: string)
    ensures AddedCantrip(AddedCantrip(cantrips, name), name) == AddedCantrip(cantrips, name)
  {
  }

  /** The cantrip list stays free of duplicates. */
  lemma AddedCantripNoDup(cantrips: seq<string>, name: string)
    requires NoDup(cantrips)
    ensures NoDup(AddedCantrip(cantrips, name))
  {
    if name !in cantrips {
      AppendNoDup(cantrips, name);
    }
  }

  /** Adding a leveled spell twice is adding it once. */
  lemma AddedSpellIdempotent(spells: seq<string>, name: string, level: int)
    ensures AddedSpell(AddedSpell(spells, name, level), name, level) == AddedSpell(spells, name, level)
  {
    var entry := Composite(name, level);
    if entry !in spells {
      var r := AddedSpell(spells, name, level);
      assert entry in multiset(r);
    }
  }

  /** After an add the list is in ascending level order, whatever order it was in before. */
  lemma AddedSpellSorted(spells: seq<string>, name: string, level: int)
    requires Composite(name, level) !in spells
    ensures SortedBy(AddedSpell(spells, name, level), ExtractLevel)
  {
    var entry := Composite(name, level);
    assert AddedSpell(spells, name, level) == SortBy(spells + [entry], ExtractLevel);
    SortByOrdersAndPermutes(spells + [entry], ExtractLevel);
  }

  /** The new entry comes after every earlier entry of its level. */
  lemma AddedSpellStable(spells: seq<string>, name: string, level: int)
    requires Composite(name, level) !in spells
    ensures var entry := Composite(name, level);
      WithKey(AddedSpell(spells, name, level), ExtractLevel, ExtractLevel(entry)) ==
      WithKey(spells, ExtractLevel, ExtractLevel(entry)) + [entry]
  {
    var entry := Composite(name, level);
    assert AddedSpell(spells, name, level) == SortBy(spells + [entry], ExtractLevel);
    NewLastOfItsKey(spells, entry, ExtractLevel);
  }

  /** Entries of every other level keep their relative order when a spell is added. */
  lemma AddedSpellKeepsOtherLevels(spells: seq<string>, name: string, level: int, v: nat)
    requires Composite(name, level) !in spells && v != ExtractLevel(Composite(name, level))
    ensures WithKey(AddedSpell(spells, name, level), ExtractLevel, v) == WithKey(spells, ExtractLevel, v)
  {
    var entry := Composite(name, level);
    assert AddedSpell(spells, name, level) == SortBy(spells + [entry], ExtractLevel);
    OthersKeepOrder(spells, entry, ExtractLevel, v);
  }

  /** In a duplicate-free list a second removal of the same name changes nothing. */
  lemma RemovedSpellIdempotent(known: seq<string>, name: string)
    requires NoDup(known)
    ensures RemovedSpell(RemovedSpell(known, name), name) == RemovedSpell(known, name)
  {
    if name in known {
      RemoveFirstNoDup(known, name);
    }
  }

  /** Removal keeps a level-ordered list in level order. */
  lemma RemovedSpellSorted(known: seq<string>, name: string)
    requires SortedBy(known, ExtractLevel)
    ensures SortedBy(RemovedSpell(known, name), ExtractLevel)
  {
    if name in known {
      var i := IndexOf(known, name);
      var r := RemoveFirst(known, name);
      assert r == r[..i] + r[i..];
      SortedWithout(known, i, ExtractLevel);
    }
  }

  // ------------------------------------------------------ the handlers

  /** Cantrip or leveled spell: the kind chosen earlier in the dialog. */
  datatype SpellKind = Cantrip | Leveled

  datatype SpellOutcome =
    | Reprompt(error: SlotError)   // bad slot input: the dialog asks again
    | Saved(magic: Magic)          // the record was saved with this "magic"
    | Aborted                      // no such record, or it has no "magic" (the handler raises)

  /** The stored record for `name` and its "magic", when both exist. */
  function Spellbook(files: map<Key, Record>, user: UserId, name: string): Option<(Record, Magic)> {
    var r := Find(files, user, name);
    if r.Some? && r.value.magic.Some? then Some((r.value, r.value.magic.value)) else None
  }

  /** The store after saving `r` with `m` as its "magic". */
  function WithMagic(files: map<Key, Record>, user: UserId, r: Record, m: Magic): map<Key, Record> {
    Stored(files, user, r.(magic := Some(m)))
  }

  /** `process_spell_slots_values` for the character chosen earlier. */
  method ProcessSlotsValues(store: CharacterStorage, user: UserId, name: string, text: string)
    returns (o: SpellOutcome)
    requires store.Valid()
    modifies store
    ensures store.Valid()
    ensures ParseSlots(text).Failure? ==> o == Reprompt(ParseSlots(text).error) && store.files == old(store.files)
    ensures ParseSlots(text).Success? ==> SlotsSaved(old(store.files), store.files, user, name, ParseSlots(text).value, o)
  {
    var parsed := ParseSlots(text);
    if parsed.Failure? {
      return Reprompt(parsed.error);
    }
    o := SaveSlots(store, user, name, parsed.value);
  }

  /**
   * The outcome of writing `values` for the character `name`: saved with
   * the overwritten slots when the record and its "magic" exist, otherwise
   * nothing changes.
   */
  ghost predicate SlotsSaved(before: map<Key, Record>, after: map<Key, Record>, user: UserId, name: string, values: seq<int>, o: SpellOutcome) {
    && (o.Saved? <==> Spellbook(before, user, name).Some?)
    && (o.Saved? ==>
      var (r, m) := Spellbook(before, user, name).value;
      && o.magic == m.(slots := o.magic.slots)
      && Overwrites(m.slots, values, o.magic.slots)
      && after == WithMagic(before, user, r, o.magic))
    && (!o.Saved? ==> after == before)
  }

  /** Lines 76-85: load the record, write the slot values into its "magic" and save it. */
  method SaveSlots(store: CharacterStorage, user: UserId, name: string, values: seq<int>) returns (o: SpellOutcome)
    requires store.Valid()
    modifies store
    ensures store.Valid()
    ensures SlotsSaved(old(store.files), store.files, user, name, values, o)
  {
    var loaded := store.LoadCharacter(user, name);
    if loaded.None? || loaded.value.magic.None? {
      return Aborted;
    }
    var record := loaded.value;
    var m := record.magic.value;
    var slots := WriteSlots(m.slots, values);
    m := m.(slots := slots);
    var _ := store.SaveCharacter(user, record.(magic := Some(m)));
    o := Saved(m);
  }

  /** What `process_spell_name` does to "magic": the cantrip or the composite entry is added. */
  function SpellAddedTo(m: Magic, kind: SpellKind, spell: string, level: int): Magic {
    if kind == Cantrip then m.(cantrips := AddedCantrip(m.cantrips, spell))
    else m.(spells := AddedSpell(m.spells, spell, level))
  }

  /** What `process_remove_spell_name` does to "magic": the name is removed from the list of its kind. */
  function SpellRemovedFrom(m: Magic, kind: SpellKind, spell: string): Magic {
    if kind == Cantrip then m.(cantrips := RemovedSpell(m.cantrips, spell))
    else m.(spells := RemovedSpell(m.spells, spell))
  }

  /** Lines 205-223: the list of the chosen kind is extended in place; nothing else in "magic" changes. */
  method AddSpell(m: Magic, kind: SpellKind, spell: string, level: int) returns (m': Magic)
    ensures m' == SpellAddedTo(m, kind, spell, level)
  {
    m' := m;
    if kind == Cantrip {
      if spell !in m'.cantrips {
        m' := m'.(cantrips := m'.cantrips + [spell]);
      }
    } else {
      var entry := Composite(spell, level);
      if entry !in m'.spells {
        m' := m'.(spells := m'.spells + [entry]);
        m' := m'.(spells := SortBy(m'.spells, ExtractLevel));
      }
    }
  }

  /** Lines 331-336: the name is removed from the list of the chosen kind when it is there. */
  method RemoveSpell(m: Magic, kind: SpellKind, spell: string) returns (m': Magic)
    ensures m' == SpellRemovedFrom(m, kind, spell)
  {
    m' := m;
    if kind == Cantrip {
      if spell in m'.cantrips {
        m' := m'.(cantrips := RemoveFirst(m'.cantrips, spell));
      }
    } else {
      if spell in m'.spells {
        m' := m'.(spells := RemoveFirst(m'.spells, spell));
      }
    }
  }

  /** `process_spell_name` for the character, kind and (for a leveled spell) level chosen earlier. */
  method ProcessSpellName(store: CharacterStorage, user: UserId, name: string, kind: SpellKind, level: int, text: string)
    returns (o: SpellOutcome)
    requires store.Valid()
    modifies store
    ensures store.Valid()
    ensures o.Saved? <==> Spellbook(old(store.files), user, name).Some?
    ensures o.Saved? ==>
      var (r, m) := Spellbook(old(store.files), user, name).value;
      && o.magic == SpellAddedTo(m, kind, Strip(text), level)
      && store.files == WithMagic(old(store.files), user, r, o.magic)
    ensures !o.Saved? ==> store.files == old(store.files)
  {
    var loaded := store.LoadCharacter(user, name);
    if loaded.None? || loaded.value.magic.None? {
      return Aborted;
    }
    var record := loaded.value;
    var m := AddSpell(record.magic.value, kind, Strip(text), level);
    var _ := store.SaveCharacter(user, record.(magic := Some(m)));
    o := Saved(m);
  }

  /** `process_remove_spell_name` for the character and kind chosen earlier. */
  method ProcessRemoveSpellName(store: CharacterStorage, user: UserId, name: string, kind: SpellKind, text: string)
    returns (o: SpellOutcome)
    requires store.Valid()
    modifies store
    ensures store.Valid()
    ensures o.Saved? <==> Spellbook(old(store.files), user, name).Some?
    ensures o.Saved? ==>
      var (r, m) := Spellbook(old(store.files), user, name).value;
      && o.magic == SpellRemovedFrom(m, kind, Strip(text))
      && store.files == WithMagic(old(store.files), user, r, o.magic)
    ensures !o.Saved? ==> store.files == old(store.files)
  {
    var loaded := store.LoadCharacter(user, name);
    if loaded.None? || loaded.value.magic.None? {
      return Aborted;
    }
    var record := loaded.value;
    var m := RemoveSpell(record.magic.value, kind, Strip(text));
    var _ := store.SaveCharacter(user, record.(magic := Some(m)));
    o := Saved(m);
  }
}
