/** config.py: the fixed race and class lists the creation dialog offers. */
module Config {
  const Races: seq<string> := [
    "Человек", "Эльф", "Дварф", "Полурослик", "Полуэльф",
    "Полуорк", "Тифлинг", "Гном", "Драконорожденный"]

  const Classes: seq<string> := [
    "Варвар", "Бард", "Жрец", "Друид", "Воин",
    "Монах", "Паладин", "Следопыт", "Плут",
    "Чародей", "Колдун", "Волшебник"]

  /** `s` is one of `options`, looked up one entry at a time. */
  predicate Listed(options: seq<string>, s: string)
    decreases |options|
  {
    options != [] && (options[0] == s || Listed(options[1..], s))
  }

  /** The lookup is list membership. */
  lemma {:induction false} ListedIsMembership(options: seq<string>, s: string)
    ensures Listed(options, s) <==> s in options
    decreases |options|
  {
    if options != [] {
      ListedIsMembership(options[1..], s);
      assert options == [options[0]] + options[1..];
    }
  }

  /** One of the races the dialog offers. */
  predicate IsRace(s: string) {
    Listed(Races, s)
  }

  /** One of the classes the dialog offers. */
  predicate IsClass(s: string) {
    Listed(Classes, s)
  }
}
