/**
 * `PasswordValidator` and `UserAuthenticator`: the password rule for new
 * accounts, the login check against the stored records, and registration.
 */
module UserAuthentication {
  import opened Wrappers
  import opened Text
  import opened Users
  import opened UserData

  const MIN_PASSWORD_LENGTH: nat := 8

  /** Python's `string.punctuation`. */
  const PUNCTUATION: string := "!\"#$%&'()*+,-./:;<=>?@[\\]^_`{|}~"

  /** `any(char.isupper() for char in s)`. */
  function HasUpper(s: string): (b: bool)
    ensures b <==> exists i :: 0 <= i < |s| && IsUpperChar(s[i])
  {
    if s == [] then false
    else if IsUpperChar(s[0]) then true
    else
      var rest := HasUpper(s[1..]);
      assert forall i :: 1 <= i < |s| ==> s[i] == s[1..][i - 1];
      rest
  }

  /** `any(char in string.punctuation for char in s)`. */
  function HasPunctuation(s: string): (b: bool)
    ensures b <==> exists i :: 0 <= i < |s| && s[i] in PUNCTUATION
  {
    if s == [] then false
    else if s[0] in PUNCTUATION then true
    else
      var rest := HasPunctuation(s[1..]);
      assert forall i :: 1 <= i < |s| ==> s[i] == s[1..][i - 1];
      rest
  }

  /**
   * `PasswordValidator.is_valid`: at least eight characters, one of them an
   * upper-case letter and one of them a punctuation mark.
   */
  function IsValidPassword(password: string): (ok: bool)
    ensures ok <==> && |password| >= MIN_PASSWORD_LENGTH
                    && (exists i :: 0 <= i < |password| && IsUpperChar(password[i]))
                    && (exists i :: 0 <= i < |password| && password[i] in PUNCTUATION)
  {
    if |password| < MIN_PASSWORD_LENGTH then false
    else HasUpper(password) && HasPunctuation(password)
  }

  /** A password shorter than eight characters is rejected whatever it contains. */
  lemma {:induction false} ShortPasswordRejected(password: string)
    requires |password| < MIN_PASSWORD_LENGTH
    ensures !IsValidPassword(password)
  {
  }

  /** The registration tests' passwords without a capital letter are rejected. */
  lemma PasswordsWithoutCapitalRejected()
    ensures !IsValidPassword("nouppercase1!") && !IsValidPassword("weakpass1!")
  {
    var p, q := "nouppercase1!", "weakpass1!";
    assert forall i | 0 <= i < |p| :: !IsUpperChar(p[i]);
    assert forall i | 0 <= i < |q| :: !IsUpperChar(q[i]);
  }

  predicate IsAlphanumeric(c: char) {
    'a' <= c <= 'z' || 'A' <= c <= 'Z' || '0' <= c <= '9'
  }

  /** No letter or digit is a punctuation mark. */
  lemma {:induction false} AlphanumericIsNotPunctuation(s: string)
    requires forall i :: 0 <= i < |s| ==> IsAlphanumeric(s[i])
    ensures forall i :: 0 <= i < |s| ==> s[i] !in PUNCTUATION
  {
    assert forall j :: 0 <= j < |PUNCTUATION| ==> !IsAlphanumeric(PUNCTUATION[j]);
  }

  /** The registration tests' passwords without a punctuation mark are rejected. */
  lemma PasswordsWithoutPunctuationRejected()
    ensures !IsValidPassword("NoSpecialChar1") && !IsValidPassword("WeakPass123")
  {
    var p, q := "NoSpecialChar1", "WeakPass123";
    assert forall i | 0 <= i < |p| :: IsAlphanumeric(p[i]);
    assert forall i | 0 <= i < |q| :: IsAlphanumeric(q[i]);
    AlphanumericIsNotPunctuation(p);
    AlphanumericIsNotPunctuation(q);
  }

  /** The passwords the registration tests accept; exactly eight characters is enough. */
  lemma AcceptedPasswordExamples()
    ensures IsValidPassword("ValidP@ss1") && IsValidPassword("StrongP@ss1") && IsValidPassword("A!bcdefg")
  {
    var valid, strong, shortest := "ValidP@ss1", "StrongP@ss1", "A!bcdefg";
    assert PUNCTUATION[0] == '!' && PUNCTUATION[21] == '@';
    assert IsUpperChar(valid[0]) && valid[6] in PUNCTUATION;
    assert IsUpperChar(strong[0]) && strong[7] in PUNCTUATION;
    assert IsUpperChar(shortest[0]) && shortest[1] in PUNCTUATION;
  }

  /** What a successful login hands back: the stored name and wallet, no password. */
  datatype LoginInfo = LoginInfo(username: string, wallet: real)

  /** Record `k` is the first whose name matches `name` ignoring case. */
  predicate FirstMatch(data: seq<UserRecord>, name: string, k: int) {
    && 0 <= k < |data|
    && Lower(data[k].username) == Lower(name)
    && forall j :: 0 <= j < k ==> Lower(data[j].username) != Lower(name)
  }

  /**
   * The answer of `UserAuthenticator.login`: only the first record whose name
   * matches ignoring case is consulted; its password, compared ignoring case,
   * decides, and a success hands back that record's name and wallet.
   */
  function Authenticate(username: string, password: string, data: seq<UserRecord>): (r: Option<LoginInfo>)
    ensures r.Some? <==> exists k :: FirstMatch(data, username, k) && Lower(data[k].password) == Lower(password)
    ensures forall k :: FirstMatch(data, username, k) && r.Some? ==> r.value == LoginInfo(data[k].username, data[k].wallet)
  {
    var k := IndexOfUser(data, username, true);
    assert forall m :: FirstMatch(data, username, m) ==> m == k;
    assert k < |data| ==> FirstMatch(data, username, k);
    if k < |data| && Lower(data[k].password) == Lower(password) then
      Some(LoginInfo(data[k].username, data[k].wallet))
    else
      None
  }

  /** `UserAuthenticator.login`: the scan with its `is_user_registered` flag. */
  method Login(username: string, password: string, data: seq<UserRecord>) returns (r: Option<LoginInfo>)
    ensures r == Authenticate(username, password, data)
  {
    var isUserRegistered := false;
    var i := 0;
    while i < |data|
      invariant i <= |data| && !isUserRegistered
      invariant forall j :: 0 <= j < i ==> Lower(data[j].username) != Lower(username)
    {
      if Lower(data[i].username) == Lower(username) {
        isUserRegistered := true;
      }
      if isUserRegistered {
        if Lower(data[i].password) == Lower(password) {
          return Some(LoginInfo(data[i].username, data[i].wallet));
        }
        break;
      }
      i := i + 1;
    }
    return None;
  }

  /** A success returns a stored record's own name (original casing) and wallet. */
  lemma {:induction false} LoginReturnsStoredRecord(username: string, password: string, data: seq<UserRecord>)
    requires Authenticate(username, password, data).Some?
    ensures exists k :: 0 <= k < |data|
              && Lower(data[k].username) == Lower(username)
              && Lower(data[k].password) == Lower(password)
              && Authenticate(username, password, data).value == LoginInfo(data[k].username, data[k].wallet)
  {
    var k := IndexOfUser(data, username, true);
    assert 0 <= k < |data|;
  }

  /** No record with a matching name (ignoring case): the login fails. */
  lemma {:induction false} UnregisteredLoginFails(username: string, password: string, data: seq<UserRecord>)
    requires forall j :: 0 <= j < |data| ==> Lower(data[j].username) != Lower(username)
    ensures Authenticate(username, password, data) == None
  {
  }

  /**
   * A wrong password on the first matching record fails the login even when a
   * later record with the same name would accept it.
   */
  lemma {:induction false} OnlyFirstMatchIsConsulted(username: string, password: string, data: seq<UserRecord>, first: nat, later: nat)
    requires first < later < |data|
    requires forall j :: 0 <= j < first ==> Lower(data[j].username) != Lower(username)
    requires Lower(data[first].username) == Lower(username) && Lower(data[later].username) == Lower(username)
    requires Lower(data[first].password) != Lower(password) && Lower(data[later].password) == Lower(password)
    ensures Authenticate(username, password, data) == None
  {
    assert IndexOfUser(data, username, true) == first;
  }

  /** The letter case of the typed name and password never matters. */
  lemma {:induction false} LoginIgnoresCase(username: string, password: string, data: seq<UserRecord>)
    ensures Authenticate(Lower(username), Lower(password), data) == Authenticate(username, password, data)
  {
    LowerIdempotent(username);
    LowerIdempotent(password);
    var k1 := IndexOfUser(data, Lower(username), true);
    var k2 := IndexOfUser(data, username, true);
    assert k1 <= k2;
    assert k2 <= k1;
  }

  /**
   * `UserAuthenticator.register`: one record with the given name and password
   * and an empty wallet is appended, and the whole list is saved once. The
   * cards are the keyword argument the caller in the login flow and the
   * registration tests pass; `None` is a call without it, which stores no
   * cards key, as the declared three-parameter version does.
   */
  method Register(username: string, password: string, data: seq<UserRecord>, cards: Option<seq<Card>>, file: UserFile)
    returns (updated: seq<UserRecord>)
    modifies file
    ensures updated == data + [UserRecord(username, password, 0.0, cards)]
    ensures file.records == updated && file.saves == old(file.saves) + 1
  {
    var newUser := UserRecord(username, password, 0.0, cards);
    updated := data + [newUser];
    file.Save(updated);
  }
}
