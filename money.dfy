/**
 * handlers/money_management.py: the purse of a character. An amount is four
 * non-negative integers (platinum gold silver copper); a credit adds them
 * denomination by denomination, a debit subtracts them only when every
 * denomination covers its part, and nothing converts between denominations.
 */
module MoneyManagement {
  import opened Wrappers
  import opened Text
  import opened CharacterRecord
  import opened Storage

  /** The three buttons of `process_money_operation`. */
  datatype MoneyOperation = ShowBalance | Add | Spend

  /** `process_money_operation`: the stripped button label, or None for any other text. */
  function ChooseOperation(text: string): (r: Option<MoneyOperation>)
    ensures r == Some(ShowBalance) <==> Strip(text) == "Показать баланс"
    ensures r == Some(Add) <==> Strip(text) == "Добавить"
    ensures r == Some(Spend) <==> Strip(text) == "Потратить"
    ensures r.None? <==> (Strip(text) !in {"Показать баланс", "Добавить", "Потратить"})
  {
    var button := Strip(text);
    if button == "Показать баланс" then Some(ShowBalance)
    else if button == "Добавить" then Some(Add)
    else if button == "Потратить" then Some(Spend)
    else None
  }

  /** The amounts in the order the user types them. */
  function Coins(m: Money): seq<int> {
    [m.platinum, m.gold, m.silver, m.copper]
  }

  predicate NonNegative(m: Money) {
    m.platinum >= 0 && m.gold >= 0 && m.silver >= 0 && m.copper >= 0
  }

  /** Why an amount was refused; the dialog asks again in both cases. */
  datatype AmountError = WrongCount | NotNonNegative

  /** Four values in the typed order as an amount, unless one is negative. */
  function AmountFrom(xs: seq<int>): (r: Option<Money>)
    requires |xs| == 4
    ensures r.Some? <==> forall i :: 0 <= i < 4 ==> xs[i] >= 0
    ensures r.Some? ==> Coins(r.value) == xs && NonNegative(r.value)
  {
    var m := Money(xs[0], xs[1], xs[2], xs[3]);
    if NonNegative(m) then Some(m) else None
  }

  /**
   * `process_money_amount`, lines 127-137, on the tokens of the message: the
   * count is checked first, then every token must be an integer and none negative.
   */
  function AmountOf(tokens: seq<string>): (r: Result<Money, AmountError>)
    ensures r == Failure(WrongCount) <==> |tokens| != 4
    ensures r.Success? ==> ParseAll(tokens) == Some(Coins(r.value)) && NonNegative(r.value)
    ensures r == Failure(NotNonNegative) ==>
      |tokens| == 4 && (ParseAll(tokens).None? || AmountFrom(ParseAll(tokens).value).None?)
  {
    if |tokens| != 4 then Failure(WrongCount)
    else
      var xs := ParseAll(tokens);
      if xs.None? then Failure(NotNonNegative)
      else if AmountFrom(xs.value).None? then Failure(NotNonNegative)
      else Success(AmountFrom(xs.value).value)
  }

  /** The amount in a message, split as `message.text.strip().split()`. */
  function ParseAmount(text: string): Result<Money, AmountError> {
    AmountOf(Split(Strip(text)))
  }

  /** An amount typed as "0 10 5 0" is read back exactly. */
  lemma AmountReadBack(c: Money)
    requires NonNegative(c)
    ensures ParseAmount(Join(ShowAll(Coins(c)))) == Success(c)
  {
    ReadBackInts(Coins(c));
  }

  /** Three values, or five, are refused before any is converted. */
  lemma AmountWrongCount(xs: seq<int>)
    requires |xs| != 4
    ensures ParseAmount(Join(ShowAll(xs))) == Failure(WrongCount)
  {
    ReadBackInts(xs);
  }

  /** A negative value is refused. */
  lemma AmountNegative(c: Money)
    requires !NonNegative(c)
    ensures ParseAmount(Join(ShowAll(Coins(c)))) == Failure(NotNonNegative)
  {
    ReadBackInts(Coins(c));
  }

  /** Lines 145-149: each denomination gains its own amount. */
  function Credit(m: Money, c: Money): (r: Money)
    ensures forall i :: 0 <= i < 4 ==> Coins(r)[i] == Coins(m)[i] + Coins(c)[i]
  {
    Money(m.platinum + c.platinum, m.gold + c.gold, m.silver + c.silver, m.copper + c.copper)
  }

  /** The purse holds at least `c` in every denomination. */
  predicate Covers(m: Money, c: Money) {
    m.platinum >= c.platinum && m.gold >= c.gold && m.silver >= c.silver && m.copper >= c.copper
  }

  /** Lines 151-163: all four are subtracted, or none when any denomination falls short. */
  function Debit(m: Money, c: Money): (r: Option<Money>)
    ensures r.Some? <==> Covers(m, c)
    ensures r.Some? ==> forall i :: 0 <= i < 4 ==> Coins(r.value)[i] == Coins(m)[i] - Coins(c)[i]
    ensures r.Some? ==> NonNegative(r.value)
  {
    if m.platinum < c.platinum || m.gold < c.gold || m.silver < c.silver || m.copper < c.copper then None
    else Some(Money(m.platinum - c.platinum, m.gold - c.gold, m.silver - c.silver, m.copper - c.copper))
  }

  /** What `process_money_amount` does to the purse: anything but Add is handled as a spend. */
  function Applied(m: Money, op: MoneyOperation, c: Money): Option<Money> {
    if op == Add then Some(Credit(m, c)) else Debit(m, c)
  }

  /** A credit never fails and keeps a non-negative purse non-negative. */
  lemma CreditKeepsNonNegative(m: Money, c: Money)
    requires NonNegative(m) && NonNegative(c)
    ensures NonNegative(Credit(m, c)) && Covers(Credit(m, c), c)
  {
  }

  /** Spending what was just added restores the purse. */
  lemma DebitAfterCredit(m: Money, c: Money)
    requires NonNegative(m)
    ensures Debit(Credit(m, c), c) == Some(m)
  {
    assert Debit(Credit(m, c), c).value == Money(m.platinum, m.gold, m.silver, m.copper);
  }

  /** Adding back what was just spent restores the purse. */
  lemma CreditAfterDebit(m: Money, c: Money)
    requires Covers(m, c)
    ensures Credit(Debit(m, c).value, c) == m
  {
  }

  /** A denomination moves only by its own amount: no change-making between coins. */
  lemma NoConversion(m: Money, c: Money, op: MoneyOperation)
    requires Applied(m, op, c).Some?
    ensures var r := Applied(m, op, c).value;
      forall i :: 0 <= i < 4 ==> Coins(r)[i] - Coins(m)[i] == (if op == Add then Coins(c)[i] else -Coins(c)[i])
  {
  }

  /** Spending more gold than the purse holds changes nothing, even with platinum to spare. */
  lemma NoChangeMaking()
    ensures Debit(Money(1, 0, 0, 0), Money(0, 1, 0, 0)).None?
  {
  }

  /** Lines 146-149: the purse gains the amount, one denomination at a time. */
  method AddCoins(purse: Money, c: Money) returns (money: Money)
    ensures money == Credit(purse, c)
  {
    money := purse;
    money := money.(platinum := money.platinum + c.platinum);
    money := money.(gold := money.gold + c.gold);
    money := money.(silver := money.silver + c.silver);
    money := money.(copper := money.copper + c.copper);
  }

  /** Lines 160-163, reached only once the guard at lines 152-155 has passed. */
  method SpendCoins(purse: Money, c: Money) returns (money: Money)
    requires Covers(purse, c)
    ensures Debit(purse, c) == Some(money)
  {
    money := purse;
    money := money.(platinum := money.platinum - c.platinum);
    money := money.(gold := money.gold - c.gold);
    money := money.(silver := money.silver - c.silver);
    money := money.(copper := money.copper - c.copper);
  }

  /** The result of one `process_money_amount` turn. */
  datatype AmountOutcome =
    | Reprompt(error: AmountError)   // bad input: the dialog asks again
    | Insufficient                   // a spend the purse does not cover: the dialog ends
    | Updated(balance: Money)        // the new purse was saved
    | Aborted                        // no such record, or it has no purse (the handler raises)

  /**
   * `process_money_amount` for the character `name` chosen earlier and the
   * operation chosen earlier. The purse is updated field by field and the
   * record saved only on success.
   */
  method ProcessMoneyAmount(store: CharacterStorage, user: UserId, name: string, op: MoneyOperation, text: string)
    returns (o: AmountOutcome)
    requires store.Valid()
    modifies store
    ensures store.Valid()
    ensures ParseAmount(text).Failure? ==> o == Reprompt(ParseAmount(text).error)
    ensures o.Updated? <==>
      && ParseAmount(text).Success?
      && Find(old(store.files), user, name).Some?
      && Find(old(store.files), user, name).value.equipment.Some?
      && Applied(Find(old(store.files), user, name).value.equipment.value.money, op, ParseAmount(text).value).Some?
    ensures o.Updated? ==>
      var r := Find(old(store.files), user, name).value;
      var e := r.equipment.value;
      && o.balance == Applied(e.money, op, ParseAmount(text).value).value
      && store.files == Stored(old(store.files), user, r.(equipment := Some(e.(money := o.balance))))
    ensures !o.Updated? ==> store.files == old(store.files)
  {
    var amount := ParseAmount(text);
    if amount.Failure? {
      return Reprompt(amount.error);
    }
    var c := amount.value;
    var loaded := store.LoadCharacter(user, name);
    if loaded.None? || loaded.value.equipment.None? {
      return Aborted;
    }
    var record := loaded.value;
    var purse := record.equipment.value.money;
    var money;
    if op == Add {
      money := AddCoins(purse, c);
    } else {
      if !Covers(purse, c) {
        return Insufficient;
      }
      money := SpendCoins(purse, c);
    }
    record := record.(equipment := Some(record.equipment.value.(money := money)));
    var _ := store.SaveCharacter(user, record);
    o := Updated(money);
  }
}
