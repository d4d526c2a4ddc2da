/**
 * `manage_credit_cards`: the profile screen on which a logged-in user adds
 * credit cards to the stored record. The answers typed at the prompts are a
 * sequence of strings read front to back.
 */
module UserProfile {
  import opened Wrappers
  import opened Text
  import opened Users
  import opened UserData

  /**
   * The last four characters of a card number, all of it when shorter: the
   * only part of the number the screen shows.
   */
  function MaskedNumber(cardNumber: string): (r: string)
    ensures |r| == if |cardNumber| < 4 then |cardNumber| else 4
    ensures cardNumber == cardNumber[..|cardNumber| - |r|] + r
  {
    if |cardNumber| < 4 then cardNumber else cardNumber[|cardNumber| - 4..]
  }

  /** What a run of the screen's menu does: the cards added, and whether (b) ended it. */
  datatype CardSession = CardSession(added: seq<Card>, finished: bool)

  /**
   * The menu loop: (a), in either case, reads number, expiry, name and CVV of
   * a new card; (b) goes back; anything else is refused and asked again.
   * A card is only added when its five answers were typed.
   */
  function CardCommands(inputs: seq<string>): (s: CardSession)
    ensures s.added != [] ==> |inputs| >= 5
    decreases |inputs|
  {
    if inputs == [] then CardSession([], false)
    else if Lower(inputs[0]) == "a" then
      if |inputs| < 5 then CardSession([], false)
      else
        var rest := CardCommands(inputs[5..]);
        CardSession([ReadCard(inputs, 1)] + rest.added, rest.finished)
    else if Lower(inputs[0]) == "b" then CardSession([], true)
    else CardCommands(inputs[1..])
  }

  /**
   * Every added card uses up five answers, and the screen is only left by
   * (b) when one of the answers, lowered, is "b".
   */
  lemma {:induction false} CardCommandsBound(inputs: seq<string>)
    ensures 5 * |CardCommands(inputs).added| <= |inputs|
    ensures CardCommands(inputs).finished ==> exists i :: 0 <= i < |inputs| && Lower(inputs[i]) == "b"
    decreases |inputs|
  {
    if inputs != [] && Lower(inputs[0]) != "b" {
      var skip := if Lower(inputs[0]) == "a" then 5 else 1;
      if skip <= |inputs| {
        CardCommandsBound(inputs[skip..]);
        if CardCommands(inputs[skip..]).finished {
          var i :| 0 <= i < |inputs[skip..]| && Lower(inputs[skip..][i]) == "b";
          assert inputs[skip..][i] == inputs[i + skip];
        }
      }
    }
  }

  /** One menu action, with the letter typed for it. */
  datatype Command = Add(key: string, card: Card) | Other(text: string)

  /** The answers that carry out a command. */
  function EncodeCommand(c: Command): seq<string> {
    match c
    case Add(key, card) => [key, card.cardNumber, card.expiry, card.name, card.cvv]
    case Other(text) => [text]
  }

  /** An `Add` typed as (a) in either case. */
  predicate Adds(c: Command) {
    c.Add? && Lower(c.key) == "a"
  }

  function EncodeCommands(cs: seq<Command>): seq<string> {
    if cs == [] then [] else EncodeCommand(cs[0]) + EncodeCommands(cs[1..])
  }

  /** An `Other` answer is one the menu does not take for (a) or (b). */
  predicate Refused(c: Command) {
    c.Other? && Lower(c.text) != "a" && Lower(c.text) != "b"
  }

  /** The cards the `Add` commands carry, in order. */
  function AddedBy(cs: seq<Command>): seq<Card> {
    if cs == [] then []
    else (if cs[0].Add? then [cs[0].card] else []) + AddedBy(cs[1..])
  }

  /** One addition or refused answer in front of further answers. */
  lemma {:induction false} CommandStep(c: Command, more: seq<string>)
    requires Adds(c) || Refused(c)
    ensures var rest := CardCommands(more);
      CardCommands(EncodeCommand(c) + more)
        == CardSession((if c.Add? then [c.card] else []) + rest.added, rest.finished)
  {
    var answers := EncodeCommand(c) + more;
    if c.Add? {
      assert answers[5..] == more;
      assert ReadCard(answers, 1) == c.card;
    } else {
      assert answers[1..] == more;
    }
  }

  /**
   * Typing a run of additions and refused answers adds exactly the cards of
   * the additions, in order; a following (b), in either case, ends the
   * screen whatever comes after it, and without one the input runs out with
   * the same cards added.
   */
  lemma {:induction false} SessionAddsEachCardInOrder(cs: seq<Command>, back: string, after: seq<string>)
    requires forall i :: 0 <= i < |cs| ==> Adds(cs[i]) || Refused(cs[i])
    requires Lower(back) == "b"
    ensures CardCommands(EncodeCommands(cs) + [back] + after) == CardSession(AddedBy(cs), true)
    ensures CardCommands(EncodeCommands(cs)) == CardSession(AddedBy(cs), false)
  {
    if cs == [] {
      assert Lower(back) != "a";
      assert EncodeCommands(cs) + [back] + after == [back] + after;
    } else {
      var tail := cs[1..];
      SessionAddsEachCardInOrder(tail, back, after);
      var rest := EncodeCommands(tail);
      assert EncodeCommands(cs) == EncodeCommand(cs[0]) + rest;
      assert EncodeCommands(cs) + [back] + after == EncodeCommand(cs[0]) + (rest + [back] + after);
      assert AddedBy(cs) == (if cs[0].Add? then [cs[0].card] else []) + AddedBy(tail);
      CommandStep(cs[0], rest + [back] + after);
      CommandStep(cs[0], rest);
    }
  }

  /** The card-management test: one addition followed by (b). */
  lemma AddThenBackExample()
    ensures CardCommands(["a", "12345678", "12/25", "Test Name", "123", "b"])
         == CardSession([Card("12345678", "12/25", "Test Name", "123")], true)
  {
    var card := Card("12345678", "12/25", "Test Name", "123");
    assert Lower("a")[0] == 'a' && Lower("a") == "a";
    assert Lower("b")[0] == 'b' && Lower("b") == "b";
    SessionAddsEachCardInOrder([Add("a", card)], "b", []);
    assert EncodeCommands([Add("a", card)]) == EncodeCommand(Add("a", card));
  }

  /**
   * The stored list after adding `added` to record `k`: its card list, an
   * empty one when the record had no "cards" key, is extended; nothing else
   * changes.
   */
  function WithCards(records: seq<UserRecord>, k: nat, added: seq<Card>): (r: seq<UserRecord>)
    requires k < |records|
    ensures |r| == |records|
    ensures forall j :: 0 <= j < |r| && j != k ==> r[j] == records[j]
    ensures r[k].username == records[k].username && r[k].password == records[k].password
    ensures r[k].wallet == records[k].wallet
    ensures r[k].cards == Some(records[k].cards.GetOr([]) + added)
  {
    records[k := records[k].(cards := Some(records[k].cards.GetOr([]) + added))]
  }

  /** Adding cards in two rounds is adding them all at once. */
  lemma {:induction false} WithCardsTwice(records: seq<UserRecord>, k: nat, first: seq<Card>, second: seq<Card>)
    requires k < |records|
    ensures WithCards(WithCards(records, k, first), k, second) == WithCards(records, k, first + second)
  {
    assert records[k].cards.GetOr([]) + first + second == records[k].cards.GetOr([]) + (first + second);
  }

  /** What the menu does with the answer at position `pos` and those after it. */
  lemma {:induction false} CommandAt(inputs: seq<string>, pos: nat)
    requires pos < |inputs|
    ensures var here, choice := CardCommands(inputs[pos..]), Lower(inputs[pos]);
      && (choice == "a" && pos + 5 > |inputs| ==> here == CardSession([], false))
      && (choice == "a" && pos + 5 <= |inputs| ==>
            var rest := CardCommands(inputs[pos + 5..]);
            here == CardSession([ReadCard(inputs, pos + 1)] + rest.added, rest.finished))
      && (choice != "a" && choice == "b" ==> here == CardSession([], true))
      && (choice != "a" && choice != "b" ==> here == CardCommands(inputs[pos + 1..]))
  {
    assert inputs[pos..][0] == inputs[pos];
    if pos + 5 <= |inputs| {
      assert ReadCard(inputs[pos..], 1) == ReadCard(inputs, pos + 1);
      assert inputs[pos..][5..] == inputs[pos + 5..];
    }
    assert inputs[pos..][1..] == inputs[pos + 1..];
  }

  /** How the screen is left. */
  datatype ProfileOutcome = UserNotFound | BackToMenu | InputExhausted

  /**
   * `manage_credit_cards`: a name with no record (exact match) changes
   * nothing; otherwise every added card is appended to the first record of
   * that name and the whole list saved at once, one save per card, and the
   * screen ends on (b) or when the input runs out.
   */
  method ManageCreditCards(currentUsername: string, inputs: seq<string>, file: UserFile)
    returns (outcome: ProfileOutcome)
    modifies file
    ensures var k := IndexOfUser(old(file.records), currentUsername, false);
      if k == |old(file.records)| then
        outcome == UserNotFound && file.records == old(file.records) && file.saves == old(file.saves)
      else
        var session := CardCommands(inputs);
        && outcome == (if session.finished then BackToMenu else InputExhausted)
        && file.saves == old(file.saves) + |session.added|
        && file.records == (if session.added == [] then old(file.records)
                            else WithCards(old(file.records), k, session.added))
  {
    var allUsers := file.records;
    var k := FindUser(allUsers, currentUsername);
    if k == |allUsers| {
      return UserNotFound;
    }
    var cards := allUsers[k].cards.GetOr([]);
    allUsers := allUsers[k := allUsers[k].(cards := Some(cards))];
    ghost var added: seq<Card> := [];
    var pos := 0;
    while true
      invariant pos <= |inputs|
      invariant cards == old(file.records)[k].cards.GetOr([]) + added
      invariant allUsers == WithCards(old(file.records), k, added)
      invariant file.records == if added == [] then old(file.records) else allUsers
      invariant file.saves == old(file.saves) + |added|
      invariant var rest := CardCommands(inputs[pos..]);
        CardCommands(inputs) == CardSession(added + rest.added, rest.finished)
      decreases |inputs| - pos
    {
      if pos == |inputs| {
        assert inputs[pos..] == [] && added + [] == added;
        assert CardCommands(inputs) == CardSession(added, false);
        return InputExhausted;
      }
      CommandAt(inputs, pos);
      var choice := Lower(inputs[pos]);
      if choice == "a" {
        if pos + 5 > |inputs| {
          assert added + [] == added;
          assert CardCommands(inputs) == CardSession(added, false);
          return InputExhausted;
        }
        var newCard := ReadCard(inputs, pos + 1);
        ghost var rest := CardCommands(inputs[pos + 5..]).added;
        assert added + ([newCard] + rest) == (added + [newCard]) + rest;
        WithCardsTwice(old(file.records), k, added, [newCard]);
        cards := cards + [newCard];
        allUsers := allUsers[k := allUsers[k].(cards := Some(cards))];
        assert allUsers == WithCards(old(file.records), k, added + [newCard]);
        file.Save(allUsers);
        added := added + [newCard];
        pos := pos + 5;
      } else if choice == "b" {
        assert added + [] == added;
        assert CardCommands(inputs) == CardSession(added, true);
        return BackToMenu;
      } else {
        pos := pos + 1;
      }
    }
  }
}
