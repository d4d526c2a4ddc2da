/**
 * The console login of the shop (`user_login.login`). The answers typed at
 * the prompts are a sequence of strings, read front to back; a prompt that
 * finds the sequence used up ends the run as `input()` does at end of file.
 */
module UserLogin {
  import opened Wrappers
  import opened Text
  import opened Users
  import opened UserData
  import opened UserAuthentication

  /** `is_quit`: the answer is the letter q in either case. */
  function IsQuit(s: string): (q: bool)
    ensures q <==> s == "q" || s == "Q"
  {
    var l := Lower(s);
    assert |l| == 1 ==> l == [l[0]];
    l == "q"
  }

  /** The answers the registration and card questions take as a yes. */
  function IsYes(s: string): (y: bool)
    ensures y ==> |s| == 1 || |s| == 3
    ensures |s| == 1 ==> (y <==> s[0] == 'y' || s[0] == 'Y')
    ensures |s| == 3 ==> (y <==> (s[0] == 'y' || s[0] == 'Y') && (s[1] == 'e' || s[1] == 'E') && (s[2] == 's' || s[2] == 'S'))
  {
    var l := Lower(s);
    assert |l| == 1 ==> l == [l[0]];
    assert |l| == 3 ==> l == [l[0], l[1], l[2]];
    l == "yes" || l == "y"
  }

  /**
   * Where the card questions of a registration end: the cards read, how many
   * answers were consumed, and whether an answer other than yes closed the
   * questions (`false`: the input ran out first).
   */
  datatype CardSetup = CardSetup(cards: seq<Card>, consumed: nat, complete: bool)

  /**
   * The card questions: each yes is followed by number, expiry, name and CVV
   * of one more card; the first other answer ends them.
   */
  function CardDialogue(inputs: seq<string>): (s: CardSetup)
    ensures s.consumed <= |inputs|
  {
    if inputs == [] then CardSetup([], 0, false)
    else if !IsYes(inputs[0]) then CardSetup([], 1, true)
    else if |inputs| < 5 then CardSetup([], |inputs|, false)
    else
      var rest := CardDialogue(inputs[5..]);
      CardSetup([ReadCard(inputs, 1)] + rest.cards, 5 + rest.consumed, rest.complete)
  }

  /**
   * One card per consecutive yes, in the order typed, each made of the four
   * answers after its yes; a completed dialogue stops right after the first
   * answer that is not a yes.
   */
  lemma {:induction false} CardDialogueShape(inputs: seq<string>)
    ensures var s := CardDialogue(inputs);
      && 5 * |s.cards| <= |inputs|
      && (forall k :: 0 <= k < |s.cards| ==> IsYes(inputs[5 * k]) && s.cards[k] == ReadCard(inputs, 5 * k + 1))
      && (s.complete ==> 5 * |s.cards| < |inputs| && s.consumed == 5 * |s.cards| + 1 && !IsYes(inputs[5 * |s.cards|]))
      && (!s.complete ==> s.consumed == |inputs|)
  {
    if inputs != [] && IsYes(inputs[0]) && |inputs| >= 5 {
      var tail := inputs[5..];
      CardDialogueShape(tail);
      var s, rest := CardDialogue(inputs), CardDialogue(tail);
      forall k | 1 <= k < |s.cards|
        ensures IsYes(inputs[5 * k]) && s.cards[k] == ReadCard(inputs, 5 * k + 1)
      {
        assert s.cards[k] == rest.cards[k - 1];
        assert tail[5 * (k - 1)] == inputs[5 * k];
        assert ReadCard(tail, 5 * (k - 1) + 1) == ReadCard(inputs, 5 * k + 1);
      }
      if s.complete {
        assert tail[5 * |rest.cards|] == inputs[5 * |s.cards|];
      }
    }
  }

  /** The `while True` loop that builds `cards_list`. */
  method CollectCards(inputs: seq<string>) returns (setup: CardSetup)
    ensures setup == CardDialogue(inputs)
  {
    var cardsList: seq<Card> := [];
    var pos := 0;
    while true
      invariant pos <= |inputs|
      invariant var rest := CardDialogue(inputs[pos..]);
        CardDialogue(inputs) == CardSetup(cardsList + rest.cards, pos + rest.consumed, rest.complete)
      decreases |inputs| - pos
    {
      if pos == |inputs| {
        return CardSetup(cardsList, pos, false);
      }
      if !IsYes(inputs[pos]) {
        return CardSetup(cardsList, pos + 1, true);
      }
      if pos + 5 > |inputs| {
        return CardSetup(cardsList, |inputs|, false);
      }
      var newCard := ReadCard(inputs, pos + 1);
      assert inputs[pos..][5..] == inputs[pos + 5..];
      assert ReadCard(inputs[pos..], 1) == newCard;
      cardsList := cardsList + [newCard];
      pos := pos + 5;
    }
  }

  /**
   * How a login run ends: by quitting, with the input used up, with the
   * returned value, or with the `TypeError` of the registration call as it is
   * written.
   */
  datatype LoginOutcome = Quit | InputExhausted | Returned(info: Option<LoginInfo>) | RaisedTypeError

  /**
   * The decision flow of `login`: quit, log an existing user in through the
   * authenticator, or offer registration to an unknown name (exact,
   * case-sensitive lookup), which needs a yes, a valid password and a
   * completed card dialogue. The run quits only on a typed q, and it logs
   * someone in only through the authenticator or a registration with a valid
   * password.
   */
  function LoginDecision(inputs: seq<string>, records: seq<UserRecord>): (o: LoginOutcome)
    ensures o == Quit <==>
      && inputs != []
      && (IsQuit(inputs[0]) || (Registered(records, inputs[0]) && |inputs| >= 2 && IsQuit(inputs[1])))
    ensures o.Returned? && o.info.Some? ==>
      && |inputs| >= 2 && !IsQuit(inputs[0])
      && if Registered(records, inputs[0]) then o.info == Authenticate(inputs[0], inputs[1], records)
         else |inputs| >= 3 && IsYes(inputs[1]) && IsValidPassword(inputs[2]) && o.info == Some(LoginInfo(inputs[0], 0.0))
    ensures o != RaisedTypeError
  {
    if inputs == [] then InputExhausted
    else if IsQuit(inputs[0]) then Quit
    else if Registered(records, inputs[0]) then
      if |inputs| < 2 then InputExhausted
      else if IsQuit(inputs[1]) then Quit
      else Returned(Authenticate(inputs[0], inputs[1], records))
    else if |inputs| < 2 then InputExhausted
    else if !IsYes(inputs[1]) then Returned(None)
    else if |inputs| < 3 then InputExhausted
    else if !IsValidPassword(inputs[2]) then Returned(None)
    else if !CardDialogue(inputs[3..]).complete then InputExhausted
    else Returned(Some(LoginInfo(inputs[0], 0.0)))
  }

  /** Whether the run registers a new user, the only case that writes the file. */
  predicate Registers(inputs: seq<string>, records: seq<UserRecord>) {
    && |inputs| >= 3
    && !IsQuit(inputs[0])
    && !Registered(records, inputs[0])
    && LoginDecision(inputs, records).Returned?
    && LoginDecision(inputs, records).info.Some?
  }

  /** `login`. */
  method Login(inputs: seq<string>, file: UserFile) returns (outcome: LoginOutcome)
    modifies file
    ensures outcome == LoginDecision(inputs, old(file.records))
    ensures Registers(inputs, old(file.records)) ==>
      && file.records == old(file.records) + [UserRecord(inputs[0], inputs[2], 0.0, Some(CardDialogue(inputs[3..]).cards))]
      && file.saves == old(file.saves) + 1
    ensures !Registers(inputs, old(file.records)) ==>
      file.records == old(file.records) && file.saves == old(file.saves)
  {
    if |inputs| == 0 {
      return InputExhausted;
    }
    var username := inputs[0];
    if IsQuit(username) {
      return Quit;
    }
    var userData := file.records;
    var k := FindUser(userData, username);
    var userExists := k < |userData|;
    if !userExists {
      if |inputs| < 2 {
        return InputExhausted;
      }
      var registerChoice := inputs[1];
      if !IsYes(registerChoice) {
        return Returned(None);
      }
      if |inputs| < 3 {
        return InputExhausted;
      }
      var newPassword := inputs[2];
      if !IsValidPassword(newPassword) {
        return Returned(None);
      }
      var setup := CollectCards(inputs[3..]);
      if !setup.complete {
        return InputExhausted;
      }
      var _ := Register(username, newPassword, userData, Some(setup.cards), file);
      return Returned(Some(LoginInfo(username, 0.0)));
    }
    if |inputs| < 2 {
      return InputExhausted;
    }
    var password := inputs[1];
    if IsQuit(password) {
      return Quit;
    }
    var isAuthenticUser := UserAuthentication.Login(username, password, file.records);
    return Returned(isAuthenticUser);
  }

  /** For a name already stored, the outcome is exactly the authenticator's answer. */
  lemma {:induction false} ExistingUserIsAuthenticated(inputs: seq<string>, records: seq<UserRecord>)
    requires |inputs| >= 2 && !IsQuit(inputs[0]) && !IsQuit(inputs[1]) && Registered(records, inputs[0])
    ensures LoginDecision(inputs, records) == Returned(Authenticate(inputs[0], inputs[1], records))
    ensures !Registers(inputs, records)
  {
  }

  /**
   * The existence check is exact while the authenticator ignores case: a
   * letter-case variant of a stored name is treated as a stranger, exactly as
   * if no user were stored, although the authenticator would find a record
   * for it.
   */
  lemma {:induction false} CaseVariantIsOfferedRegistration(inputs: seq<string>, records: seq<UserRecord>, j: nat)
    requires |inputs| >= 1 && j < |records| && Lower(records[j].username) == Lower(inputs[0])
    requires forall i :: 0 <= i < |records| ==> records[i].username != inputs[0]
    ensures LoginDecision(inputs, records) == LoginDecision(inputs, [])
    ensures IndexOfUser(records, inputs[0], true) < |records|
  {
    assert IndexOfUser(records, inputs[0], false) == |records|;
    assert IndexOfUser(records, inputs[0], true) <= j;
  }

  /** Declining registration returns None and writes nothing. */
  lemma {:induction false} DeclinedRegistrationReturnsNone(inputs: seq<string>, records: seq<UserRecord>)
    requires |inputs| >= 2 && !IsQuit(inputs[0]) && !Registered(records, inputs[0]) && !IsYes(inputs[1])
    ensures LoginDecision(inputs, records) == Returned(None) && !Registers(inputs, records)
  {
  }

  /** An invalid password returns None and writes nothing. */
  lemma {:induction false} InvalidPasswordReturnsNone(inputs: seq<string>, records: seq<UserRecord>)
    requires |inputs| >= 3 && !IsQuit(inputs[0]) && !Registered(records, inputs[0])
    requires IsYes(inputs[1]) && !IsValidPassword(inputs[2])
    ensures LoginDecision(inputs, records) == Returned(None) && !Registers(inputs, records)
  {
  }

  /**
   * A completed registration logs the new user in with the typed name and an
   * empty wallet; it happens exactly when the name is new, the answer is yes,
   * the password is valid and the card questions are closed.
   */
  lemma {:induction false} RegistrationLogsIn(inputs: seq<string>, records: seq<UserRecord>)
    requires |inputs| >= 3
    ensures Registers(inputs, records) <==>
      && !IsQuit(inputs[0]) && !Registered(records, inputs[0])
      && IsYes(inputs[1]) && IsValidPassword(inputs[2]) && CardDialogue(inputs[3..]).complete
    ensures Registers(inputs, records) ==> LoginDecision(inputs, records) == Returned(Some(LoginInfo(inputs[0], 0.0)))
  {
  }

  /**
   * `login` as written: the registration call passes `cards=` to a
   * `register` declared without that parameter, so every run that gets as far
   * as registering raises a `TypeError` there, before anything is saved;
   * every other run ends as in the corrected flow.
   */
  function LoginDecisionAsWritten(inputs: seq<string>, records: seq<UserRecord>): (o: LoginOutcome)
    ensures o == RaisedTypeError <==> Registers(inputs, records)
    ensures !Registers(inputs, records) ==> o == LoginDecision(inputs, records)
  {
    if Registers(inputs, records) then RaisedTypeError else LoginDecision(inputs, records)
  }

  /**
   * The boundary registration of the login tests with the card question
   * declined: as written it raises, while the corrected flow logs the new
   * user in and saves the record with an empty card list.
   */
  lemma RegistrationRaisesAsWritten()
    ensures LoginDecisionAsWritten(["BoundUser", "yes", "A!bcdefg", "n"], []) == RaisedTypeError
    ensures LoginDecision(["BoundUser", "yes", "A!bcdefg", "n"], []) == Returned(Some(LoginInfo("BoundUser", 0.0)))
    ensures CardDialogue(["n"]) == CardSetup([], 1, true)
  {
    var inputs := ["BoundUser", "yes", "A!bcdefg", "n"];
    AcceptedPasswordExamples();
    assert !Registered([], inputs[0]);
    assert inputs[3..] == ["n"];
    assert IsYes(inputs[1]) && !IsYes(inputs[3]);
    assert !IsQuit(inputs[0]);
  }
}
