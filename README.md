# Landing decision and online shopping cart, modelled in Dafny

This project models the two pieces of logic of a software-testing coursework
repository.

**The landing decision `air_traffic_control`.** Eight facts about an approaching aircraft decide a result and a message:

- the facts are runway clear, alternate runway, speed, emergency, wind, visibility, airport traffic and priority status;
- the result is "Landing Allowed" or "Landing Denied";
- the message is one of four fixed texts.

The implementation file is not part of this model. The decision is modelled to be consistent with the three test files of the second assignment, which fix only part of it. It is modelled as a pure function (`air_traffic.dfy`) with every threshold in a named constant. The vectors of every test file are proved: one lemma per test function of test_task4.py, and one lemma for each of test_clause_coverage.py and test_predicate_coverage.py.

**The console shop of the first assignment**, without its console and its JSON file:

- password validation and the authenticator's login and registration (`user_authentication.dfy`);
- the login and registration dialogue (`user_login.dfy`);
- the credit-card screen of the profile (`user_profile.dfy`);
- the `User` object (`user.dfy`);
- the payment step, the cart review with its remove-and-restock step, and product selection (`checkout_process.dfy`).

Three conventions run through the shop model:

- **Typed answers.** The answers typed at the prompts are a `seq<string>` read front to back. A prompt that finds it used up ends the run, as `input()` does at end of file.
- **The user file.** It is a `UserFile` object: its `records` field is the list `load_users` returns. `Save` replaces that list, and a ghost counter records how many saves happened.
- **Objects updated in place.** The cart, the product list and the user are classes whose methods state their whole new state.

Each dialogue loop is a method with a `while` loop. It is proved equal to a recursive specification function over the typed answers:

- `CollectCards` against `CardDialogue`;
- `ManageCreditCards` against `CardCommands`;
- `CheckCart` against `Review`.

`Checkout` and `UserLogin.Login` have no loop of their own. They are straight-line decisions, proved equal to the non-recursive functions `PaymentDecision` and `LoginDecision`.

The lemmas about those functions carry the properties:

- one card per "yes", in order;
- each added card saved once;
- removal gives one unit back to every product bearing the removed item's name: none when no product has that name, several when the name is listed more than once; when each product name is listed once, the units of every product held in cart and stock together stay the same;
- wallet payment is refused exactly when the total exceeds the balance.

`text.dfy` holds the ASCII versions of `str.lower`, `isupper`, `isdigit`, `int` and `startswith` that the shop relies on. `wrappers.dfy` holds `Option`.

## Model

| member | source | states |
|---|---|---|
| AirTraffic.AirTrafficControl | Assignment_2/test_task4.py:5-182 | the result is "Landing Allowed" or "Landing Denied"; it is "Landing Allowed" exactly when the message is not "Conditions not met for safe landing."; the message is one of the four fixed texts |
| AirTraffic.AllowedExactlyWhenAPathHolds | Assignment_2/test_predicate_coverage.py:7-79 | a landing is allowed iff the standard path, the emergency clearance (emergency and priority) or the priority override holds |
| AirTraffic.MessageNamesFirstPath | Assignment_2/test_task4.py:44-56 | each of the three allowing messages is given iff its path is the first to hold, in the order standard, emergency, override |
| AirTraffic.EmergencyDominates | Assignment_2/test_task4.py:52-56 | emergency with priority is always allowed and never gets the override message, even when the override path also holds |
| AirTraffic.OverrideMessageExcludesEmergency | Assignment_2/test_clause_coverage.py:52-69 | the override message implies priority, no emergency, an available runway and a safe speed |
| AirTraffic.WithoutPriorityOnlyStandard | Assignment_2/test_task4.py:85-101 | without priority a landing is allowed iff the standard path holds, and only the standard or denial message appears |
| AirTraffic.WithoutRunwayOnlyEmergency | Assignment_2/test_task4.py:158-182 | with neither runway a landing is allowed iff emergency and priority both hold |
| AirTraffic.SpeedLimitIsExclusive | Assignment_2/test_task4.py:13-17 | a speed of 150 or more is denied with the denial message unless the emergency clearance applies |
| AirTraffic.MoreFavourableStaysAllowed | Assignment_2/test_task4.py:103-154 | an allowed request stays allowed when flags are added, speed, wind or traffic lowered, or visibility raised |
| AirTraffic.ActiveClausesFirstPredicate | Assignment_2/test_task4.py:5-42 | the six vectors of the test: either runway flag on safe values is allowed with the all-conditions message; speed 150, wind 50 or traffic 6 is denied |
| AirTraffic.ActiveClausesSecondPredicate | Assignment_2/test_task4.py:44-80 | the six priority vectors: the override message, the emergency message when both hold, denial at speed 150 or with no runway |
| AirTraffic.ActiveClausesThirdPredicate | Assignment_2/test_task4.py:83-101 | with no runway only emergency plus priority is allowed |
| AirTraffic.InactiveClausesFirstPredicate | Assignment_2/test_task4.py:103-127 | traffic 6 denies with or without emergency; either runway flag alone suffices |
| AirTraffic.InactiveClausesSecondPredicate | Assignment_2/test_task4.py:130-154 | under priority, traffic 6, visibility 800 or 100 and wind 100 still give the override message |
| AirTraffic.InactiveClausesThirdPredicate | Assignment_2/test_task4.py:158-182 | with no runway, priority or emergency alone is denied |
| AirTraffic.ClauseCoverage | Assignment_2/test_clause_coverage.py:15-146 | the results and messages of TC1 to TC7 |
| AirTraffic.PredicateCoverage | Assignment_2/test_predicate_coverage.py:7-79 | one vector per path and one denial, with 140 counted as a safe speed |
| Text.Lower | Assignment_1/online_shopping_cart/user/user_authentication.py:29-32 | `lower()` keeps the length and lowers every character on its own |
| Text.LowerIdempotent | Assignment_1/online_shopping_cart/user/user_authentication.py:29-32 | lowering twice is lowering once |
| Text.ParseChoice | Assignment_1/online_shopping_cart/checkout/checkout_process.py:67-68 | an answer selects a position exactly when it is all digits and its value lies between 1 and the list length, and the position selected is that value less one, so it is always inside the list |
| Users.User.constructor | Assignment_1/online_shopping_cart/user/user.py:11-14 | name and wallet are stored; given cards are kept as they are, omitted cards become an empty list |
| UserData.IndexOfUser | Assignment_1/online_shopping_cart/user/user_login.py:19-23 | the position of the first record whose name matches (exactly or ignoring case), every earlier record not matching; the length when none does |
| UserData.FindUser | Assignment_1/online_shopping_cart/user/user_login.py:19-23 | the search loop with `break` finds that first exact match |
| UserData.UserFile.Save | Assignment_1/online_shopping_cart/user/user_authentication.py:55 | the file afterwards holds exactly the saved list, with one more save counted |
| UserAuthentication.HasUpper | Assignment_1/online_shopping_cart/user/user_authentication.py:15 | true iff some character is an upper-case letter |
| UserAuthentication.HasPunctuation | Assignment_1/online_shopping_cart/user/user_authentication.py:17 | true iff some character is one of the 32 ASCII punctuation marks |
| UserAuthentication.IsValidPassword | Assignment_1/online_shopping_cart/user/user_authentication.py:10-19 | valid iff at least 8 characters, an upper-case letter and a punctuation mark |
| UserAuthentication.ShortPasswordRejected | Assignment_1/online_shopping_cart/user/user_authentication.py:12-13 | fewer than 8 characters is invalid whatever the content |
| UserAuthentication.PasswordsWithoutCapitalRejected | Assignment_1/online_shopping_cart/user/test_task1.py:113-119 | "nouppercase1!" and "weakpass1!" are invalid |
| UserAuthentication.AlphanumericIsNotPunctuation | Assignment_1/online_shopping_cart/user/user_authentication.py:17 | letters and digits are never punctuation marks |
| UserAuthentication.PasswordsWithoutPunctuationRejected | Assignment_1/online_shopping_cart/user/test_task1.py:121-127 | "NoSpecialChar1" and "WeakPass123" are invalid |
| UserAuthentication.AcceptedPasswordExamples | Assignment_1/online_shopping_cart/user/test_task1.py:129-146 | "ValidP@ss1", "StrongP@ss1" and the 8-character "A!bcdefg" are valid |
| UserAuthentication.Authenticate | Assignment_1/online_shopping_cart/user/user_authentication.py:28-44 | a login succeeds iff the first record whose name matches ignoring case also has a password that matches ignoring case; a success returns that record's stored name and wallet |
| UserAuthentication.Login | Assignment_1/online_shopping_cart/user/user_authentication.py:25-44 | the flag loop returns the stored name and wallet of the first record whose name matches ignoring case, if its password matches ignoring case, and None otherwise |
| UserAuthentication.LoginReturnsStoredRecord | Assignment_1/online_shopping_cart/user/user_authentication.py:34-37 | a success returns a matching record's own name (original casing) and wallet |
| UserAuthentication.UnregisteredLoginFails | Assignment_1/online_shopping_cart/user/user_authentication.py:40-44 | no record with a matching name gives None |
| UserAuthentication.OnlyFirstMatchIsConsulted | Assignment_1/online_shopping_cart/user/user_authentication.py:28-38 | a wrong password on the first matching record gives None even when a later record with that name would accept it |
| UserAuthentication.LoginIgnoresCase | Assignment_1/online_shopping_cart/user/user_authentication.py:29-32 | lowering the typed name and password never changes the answer |
| UserAuthentication.Register | Assignment_1/online_shopping_cart/user/user_authentication.py:47-55 | exactly one record (name, password, wallet 0.0) is appended after the unchanged old ones and the list is saved once; with `None` cards this is the declared register, with cards it is the corrected one of the finding below |
| UserLogin.IsQuit | Assignment_1/online_shopping_cart/user/user_login.py:8-9 | true iff the answer is "q" or "Q" |
| UserLogin.IsYes | Assignment_1/online_shopping_cart/user/user_login.py:29 | only one- or three-letter answers can be yes: "y" or "yes" in any mix of cases |
| UserLogin.CardDialogue | Assignment_1/online_shopping_cart/user/user_login.py:35-51 | the card questions never consume more answers than there are |
| UserLogin.CardDialogueShape | Assignment_1/online_shopping_cart/user/user_login.py:35-51 | card k is made of the four answers after the k-th consecutive yes; a completed dialogue stops right after the first answer that is not yes; otherwise every answer was consumed |
| UserLogin.CollectCards | Assignment_1/online_shopping_cart/user/user_login.py:33-51 | the `while True` loop builds exactly the cards and stopping point of the dialogue |
| UserLogin.LoginDecision | Assignment_1/online_shopping_cart/user/user_login.py:11-79 | the run quits iff q is typed as the name, or as the password of a stored name; someone is logged in only through the authenticator's answer for a stored name, or, for a new name, after a yes and a valid password, with wallet 0.0; the corrected flow never raises |
| UserLogin.Login | Assignment_1/online_shopping_cart/user/user_login.py:11-79 | the outcome is the login decision; the file gains exactly one record (with the collected cards) when a registration completes, and is untouched otherwise |
| UserLogin.ExistingUserIsAuthenticated | Assignment_1/online_shopping_cart/user/user_login.py:66-79 | for a stored name the outcome is exactly the authenticator's answer, and nothing is saved |
| UserLogin.CaseVariantIsOfferedRegistration | Assignment_1/online_shopping_cart/user/user_login.py:19-27 | a name differing from a stored one only in letter case is treated as if no user were stored, although the authenticator would find a record for it |
| UserLogin.DeclinedRegistrationReturnsNone | Assignment_1/online_shopping_cart/user/user_login.py:27-63 | an unknown name with any answer other than yes returns None and saves nothing |
| UserLogin.InvalidPasswordReturnsNone | Assignment_1/online_shopping_cart/user/user_login.py:30-60 | an invalid registration password returns None and saves nothing |
| UserLogin.RegistrationLogsIn | Assignment_1/online_shopping_cart/user/user_login.py:29-57 | a registration happens iff the name is new, the answer is yes, the password valid and the card questions closed, and it returns the new name with wallet 0.0 |
| UserLogin.LoginDecisionAsWritten | Assignment_1/online_shopping_cart/user/user_login.py:52 | as written, a run raises the TypeError exactly when it would register, and every other run ends as the corrected flow does |
| UserLogin.RegistrationRaisesAsWritten | Assignment_1/online_shopping_cart/user/user_login.py:52 | a concrete registration that raises as written and succeeds in the corrected flow |
| UserProfile.MaskedNumber | Assignment_1/online_shopping_cart/user/user_profile.py:40 | the shown part is the last four characters of the number, or all of it when shorter |
| UserProfile.CardCommands | Assignment_1/online_shopping_cart/user/user_profile.py:31-73 | a card is only added when its five answers were typed |
| UserProfile.CardCommandsBound | Assignment_1/online_shopping_cart/user/user_profile.py:31-73 | every added card uses up five answers, and the screen is left by (b) only when some answer, lowered, is "b" |
| UserProfile.SessionAddsEachCardInOrder | Assignment_1/online_shopping_cart/user/user_profile.py:31-73 | any run of additions, typed as a or A, and refused answers adds exactly the added cards, in order; a following b or B ends the screen, and without it the input runs out with the same cards added |
| UserProfile.AddThenBackExample | Assignment_1/online_shopping_cart/tests/test_assignment2_task1.py:93-110 | a, four card fields, b adds exactly that card and ends the screen |
| UserProfile.WithCards | Assignment_1/online_shopping_cart/user/user_profile.py:26-66 | only the target record changes; its card list (empty if it had none) is extended by the added cards; name, password and wallet are kept |
| UserProfile.WithCardsTwice | Assignment_1/online_shopping_cart/user/user_profile.py:63-66 | adding cards in two rounds equals adding them all at once |
| UserProfile.ManageCreditCards | Assignment_1/online_shopping_cart/user/user_profile.py:5-73 | an unknown name changes nothing; otherwise the first exact match gets every added card appended, one save per card, no save without additions, ending on (b) or at end of input |
| CheckoutProcess.Total | Assignment_1/online_shopping_cart/checkout/checkout_process.py:37 | an empty cart costs nothing and a one-item cart costs the price of its item |
| CheckoutProcess.TotalBounds | Assignment_1/online_shopping_cart/checkout/checkout_process.py:37 | with no negative price, the total is at least 0 and at least the price of each item |
| CheckoutProcess.TotalAppend | Assignment_1/online_shopping_cart/tests/test_checkout.py:102-109 | the total of two carts together is the sum of their totals |
| CheckoutProcess.RemoveAt | Assignment_1/online_shopping_cart/checkout/checkout_process.py:112-113 | removal drops exactly the chosen item: one fewer item, the others in order, the same multiset less that item |
| CheckoutProcess.TotalRemove | Assignment_1/online_shopping_cart/checkout/checkout_process.py:112-113 | removing an item lowers the total by its price |
| CheckoutProcess.WithWallet | Assignment_1/online_shopping_cart/checkout/checkout_process.py:50-54 | only the first record whose name equals the user's gets the new balance; names, passwords, cards and all other records are kept; no match leaves the list as it was |
| CheckoutProcess.StoreWallet | Assignment_1/online_shopping_cart/checkout/checkout_process.py:51-54 | the loop with `break` produces exactly that list |
| CheckoutProcess.PaymentDecision | Assignment_1/online_shopping_cart/checkout/checkout_process.py:33-76 | the outcome is EmptyCart iff the cart is empty; a wallet payment needs answer "1" and a total within the balance; a card payment needs answer "2" and pays with one of the user's cards; an unanswered prompt means fewer than two answers were typed |
| CheckoutProcess.WalletAfter | Assignment_1/online_shopping_cart/checkout/checkout_process.py:45-49 | only a wallet payment changes the balance, and then the new balance plus the total is the old balance |
| CheckoutProcess.CartAfter | Assignment_1/online_shopping_cart/checkout/checkout_process.py:78 | a payment empties the cart; every other outcome leaves it exactly as it was, so its total is 0 after a payment and unchanged otherwise |
| CheckoutProcess.RecordsAfter | Assignment_1/online_shopping_cart/checkout/checkout_process.py:49-55 | every record keeps its name, password and cards; without a wallet payment, or for a name not stored, the records are unchanged |
| CheckoutProcess.Checkout | Assignment_1/online_shopping_cart/checkout/checkout_process.py:26-79 | the outcome is the payment decision; the wallet drops by the total only on wallet payment; the cart is emptied only on a payment; the file gets the new balance and one save only on wallet payment |
| CheckoutProcess.WalletPaymentRule | Assignment_1/online_shopping_cart/checkout/checkout_process.py:45-56 | with items in the cart, answer "1" is refused iff the total exceeds the wallet; exact funds pay and leave 0 |
| CheckoutProcess.CardPaymentRule | Assignment_1/online_shopping_cart/checkout/checkout_process.py:57-73 | answer "2" pays iff there are cards and the next answer is a digit string n with 1 <= n <= number of cards; it pays with card n and never changes the wallet |
| CheckoutProcess.CartClearedExactlyOnPayment | Assignment_1/online_shopping_cart/checkout/checkout_process.py:78 | a non-empty cart is emptied iff a payment goes through |
| CheckoutProcess.NegativeTotalRaisesWallet | Assignment_1/online_shopping_cart/tests/test_checkout.py:75-82 | prices are not checked: a negative total is paid from a non-negative wallet and raises it |
| CheckoutProcess.CheckoutExamples | Assignment_1/online_shopping_cart/tests/test_assignment2_task1.py:28-181 | the outcomes and balances of the wallet, card, no-card, bad-index, exact-funds and empty-cart tests; the exact-funds vector (2.3 against 2.3) is Assignment_1/online_shopping_cart/tests/test_checkout.py:58-65 and the negative-price vector is Assignment_1/online_shopping_cart/tests/test_checkout.py:75-82 |
| CheckoutProcess.StoredWalletSeenAtNextLogin | Assignment_1/online_shopping_cart/checkout/checkout_process.py:49-55 | after the write-back, logging in with the stored password reports the new balance, unless an earlier record has the name in another letter case |
| CheckoutProcess.Restocked | Assignment_1/online_shopping_cart/checkout/checkout_process.py:114 | every product of the removed item's name gains one unit; all else is kept |
| CheckoutProcess.RestockedUnits | Assignment_1/online_shopping_cart/checkout/checkout_process.py:114 | restocking adds one unit of the name for every product so named |
| CheckoutProcess.Restock | Assignment_1/online_shopping_cart/checkout/checkout_process.py:114 | the comprehension over the product list produces exactly that list |
| CheckoutProcess.RemoveStep | Assignment_1/online_shopping_cart/checkout/checkout_process.py:109-116 | the cart loses at most one item and gains none; the product list keeps its length, names and prices |
| CheckoutProcess.RemovalRule | Assignment_1/online_shopping_cart/checkout/checkout_process.py:109-116 | an item number in range removes that item (the total drops by its price) and restocks it; an answer starting with c or anything else keeps cart and stock |
| CheckoutProcess.RemoveStepConserves | Assignment_1/online_shopping_cart/checkout/checkout_process.py:109-116 | with each product name listed once, a removal keeps cart items listed and the units in cart plus stock of every name unchanged |
| CheckoutProcess.Review | Assignment_1/online_shopping_cart/checkout/checkout_process.py:97-118 | the answers left for payment are the tail of those typed; the cart only loses items; the product list keeps its length; the review goes to checkout only with a non-empty cart |
| CheckoutProcess.ReviewConserves | Assignment_1/online_shopping_cart/checkout/checkout_process.py:97-118 | however many removals the review makes, the same holds at its end |
| CheckoutProcess.EmptyCartDeclines | Assignment_1/online_shopping_cart/checkout/checkout_process.py:98-118 | an empty cart ends the review with False, reading no answer |
| CheckoutProcess.ReviewExample | Assignment_1/online_shopping_cart/checkout/test_check_cart.py:49-59 | on the inventory the test sets up (Apple 10, Banana 20), n, y, 1, n, n removes the apple, puts its unit back (10 to 11) and ends with False; the test itself rebinds only its own name for the product list, so it does not observe the list that check_cart restocks |
| CheckoutProcess.RemoveSelected | Assignment_1/online_shopping_cart/checkout/checkout_process.py:106-116 | cart and stock afterwards are those of the removal step |
| CheckoutProcess.CheckCart | Assignment_1/online_shopping_cart/checkout/checkout_process.py:88-118 | the stock is that of the review; a y goes to checkout on the reviewed cart, whose effects follow; otherwise the review returns False or ends the input with wallet and file untouched |
| CheckoutProcess.MenuChoice | Assignment_1/online_shopping_cart/checkout/checkout_process.py:146-188 | a selected product index is always inside the product list |
| CheckoutProcess.SelectionRule | Assignment_1/online_shopping_cart/checkout/checkout_process.py:180 | a product is selected iff the answer is a digit string n with 1 <= n <= the number of products, and then it is product n |
| CheckoutProcess.Selected | Assignment_1/online_shopping_cart/checkout/checkout_process.py:180-186 | only the chosen product can change, and selection never takes its units below zero; the old cart is a prefix of the new one, with at most one item more |
| CheckoutProcess.SelectionConserves | Assignment_1/online_shopping_cart/checkout/checkout_process.py:180-186 | for any product list: a product with units left adds one item of its name and price and loses exactly one unit, and one without units leaves cart and stock as they were; the total rises by that price, units in cart plus stock are kept, and a shop whose names are listed once stays so |
| CheckoutProcess.SelectProduct | Assignment_1/online_shopping_cart/checkout/checkout_process.py:180-186 | the branch reports whether the item was added, and cart and stock afterwards are those of the selection |

## Left out

- Console output and the JSON file format. `load_users`/`save_users` are a list field and a save counter. `exit(0)` on quitting is the `Quit` outcome.
- The `ShoppingCart` and `Product` classes are not part of this model:
  - the cart is a list of (name, price);
  - its total is the sum of the prices;
  - `remove_item` removes the chosen position;
  - `get_product_unit` takes one unit from the product;
  - `add_product_unit` adds one back.
- The `air_traffic_control` implementation file is not part of this model.
  - The decision follows the test vectors. A safe speed is strictly below 150: speed 150 is denied at Assignment_2/test_task4.py:13-17. The emergency clearance is tried before the priority override: where both hold, the emergency message is expected at Assignment_2/test_task4.py:52-56 and Assignment_2/test_clause_coverage.py:52-69.
  - No test decides between the standard path and the emergency clearance when both hold. The standard path is assumed to come first.
  - The weather override (`WeatherOverride`) and the exact values of the seven limits are assumptions that no test fixes. The limits are the safe speed 150, the wind 40, the visibility 1000, the traffic 5, and the priority limits 8 for traffic, 80 for wind and 200 for visibility. Every vector that expects the override message already meets the traffic override. No vector lies on a priority limit, and the standard limits are only bracketed by the vectors.
- Python's `lower`, `isupper`, `isdigit` and `string.punctuation` are modelled on ASCII only. Other Unicode letters and digits are treated as plain characters.
- Money is an exact real. Float rounding (100.0 - 2.3) is not modelled.
- Some branches of `checkout_and_payment` are left out as console and file re-synchronisation:
  - the profile and logout branches;
  - the display branches;
  - the commented-out block of lines 156-166.
  - `MenuChoice` classifies these answers; only product selection is modelled as a state change.
- The `__main__` demonstration blocks and the unused `partd.utils` import are left out.
- Shared dictionaries are not modelled. The source's `target_user` and `user` are aliases into the loaded list; here the list is a value, and the methods state the list that is saved.
- `checkout` reads `card.get('card_number')[-4:]`, which fails on a stored card without a number. Cards here always have all four fields, so that failure is not modelled. `user_profile.py` reads `card.get('card_number', '****')`, whose default cannot fail.
- UserLogin.Login: models the corrected registration call. The code as written is `LoginDecisionAsWritten`, described under Findings.
- The login tests feed only name, answer and password. In the model a registration then stops at the first card question with `InputExhausted`.

## Findings

| source | as written | input that shows it | evidently intended | confidence | as-written member | corrected member |
|---|---|---|---|---|---|---|
| Assignment_1/online_shopping_cart/user/user_login.py:52 | passes `cards=cards_list` to `UserAuthenticator.register`, which user_authentication.py:47 declares as `(username, password, data)`; the call raises a TypeError before anything is appended or saved | an unknown name, "yes", the valid password "A!bcdefg", then "n" | the new record is stored with the collected cards and the user is logged in with wallet 0.0, as the registration tests expect | not executed; high (an unexpected keyword argument always raises) | UserLogin.RegistrationRaisesAsWritten | UserLogin.RegistrationLogsIn |
