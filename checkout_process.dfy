/**
 * The checkout process of the shop: paying for the cart (`checkout`), the
 * review of the cart with its remove-and-restock step (`check_cart`), and
 * the product-selection branch of the shopping menu (`checkout_and_payment`).
 * The answers typed at the prompts are a sequence of strings read front to
 * back; prices and balances are exact reals.
 */
module CheckoutProcess {
  import opened Wrappers
  import opened Text
  import opened Users
  import opened UserData
  import opened UserAuthentication

  /** One unit of a product in the cart, by name and price. */
  datatype Item = Item(name: string, price: real)

  /** A product on sale with the units left in stock. */
  datatype Product = Product(name: string, price: real, units: int)

  class ShoppingCart {
    var items: seq<Item>

    constructor ()
      ensures items == []
    {
      items := [];
    }
  }

  /** The shop's list of products (`global_products`). */
  class Inventory {
    var products: seq<Product>

    constructor (products: seq<Product>)
      ensures this.products == products
    {
      this.products := products;
    }
  }

  /** `get_total_price`: the sum of the item prices; an empty cart costs nothing. */
  function Total(items: seq<Item>): (t: real)
    ensures items == [] ==> t == 0.0
    ensures |items| == 1 ==> t == items[0].price
  {
    if items == [] then 0.0 else items[0].price + Total(items[1..])
  }

  /**
   * A cart whose prices are not negative never costs less than nothing, nor
   * less than any one of its items.
   */
  lemma {:induction false} TotalBounds(items: seq<Item>)
    requires forall i :: 0 <= i < |items| ==> items[i].price >= 0.0
    ensures Total(items) >= 0.0
    ensures forall i :: 0 <= i < |items| ==> items[i].price <= Total(items)
  {
    if items != [] {
      TotalBounds(items[1..]);
      forall i | 1 <= i < |items|
        ensures items[i].price <= Total(items)
      {
        assert items[i] == items[1..][i - 1];
      }
    }
  }

  lemma {:induction false} TotalAppend(a: seq<Item>, b: seq<Item>)
    ensures Total(a + b) == Total(a) + Total(b)
  {
    if a == [] {
      assert a + b == b;
    } else {
      TotalAppend(a[1..], b);
      assert (a + b)[1..] == a[1..] + b;
    }
  }

  /** The cart without its item at position `i`; the others keep their order. */
  function RemoveAt(items: seq<Item>, i: nat): (r: seq<Item>)
    requires i < |items|
    ensures |r| == |items| - 1
    ensures forall j :: 0 <= j < |r| ==> r[j] == if j < i then items[j] else items[j + 1]
    ensures multiset(r) + multiset{items[i]} == multiset(items)
  {
    assert items == items[..i] + [items[i]] + items[i + 1..];
    items[..i] + items[i + 1..]
  }

  /** Removing an item lowers the total by exactly its price. */
  lemma {:induction false} TotalRemove(items: seq<Item>, i: nat)
    requires i < |items|
    ensures Total(RemoveAt(items, i)) == Total(items) - items[i].price
  {
    var before, after := items[..i], items[i + 1..];
    assert items == before + [items[i]] + after;
    TotalSplit(before, items[i], after);
  }

  lemma {:induction false} TotalSplit(before: seq<Item>, x: Item, after: seq<Item>)
    ensures Total(before + [x] + after) == Total(before + after) + x.price
  {
    TotalAppend(before + [x], after);
    TotalAppend(before, [x]);
    TotalAppend(before, after);
  }

  // ---------------------------------------------------------------- checkout

  /**
   * How `checkout` ends. `Unanswered` is a prompt that found the input used
   * up; every outcome other than the two payments leaves wallet, cart and
   * file as they were.
   */
  datatype PaymentOutcome =
    | EmptyCart
    | Unanswered
    | InsufficientFunds
    | PaidByWallet
    | NoCards
    | InvalidCard
    | PaidByCard(card: Card)
    | InvalidMethod

  predicate Paid(o: PaymentOutcome) {
    o.PaidByWallet? || o.PaidByCard?
  }

  /**
   * The decisions of `checkout`: an empty cart returns at once; the answer
   * "1" pays from the wallet unless the total exceeds it; "2" pays with the
   * card whose number in the list is typed next; any other answer is refused.
   */
  function PaymentDecision(items: seq<Item>, wallet: real, cards: seq<Card>, inputs: seq<string>): (o: PaymentOutcome)
    ensures o == EmptyCart <==> items == []
    ensures o == PaidByWallet ==> inputs != [] && inputs[0] == "1" && Total(items) <= wallet
    ensures o.PaidByCard? ==> inputs != [] && inputs[0] == "2" && o.card in cards
    ensures o == Unanswered ==> |inputs| < 2
  {
    if items == [] then EmptyCart
    else if inputs == [] then Unanswered
    else if inputs[0] == "1" then
      if Total(items) > wallet then InsufficientFunds else PaidByWallet
    else if inputs[0] == "2" then
      if cards == [] then NoCards
      else if |inputs| < 2 then Unanswered
      else match ParseChoice(inputs[1], |cards|)
        case Some(i) => PaidByCard(cards[i])
        case None => InvalidCard
    else InvalidMethod
  }

  /** The wallet after the outcome: only a wallet payment takes the total from it. */
  function WalletAfter(o: PaymentOutcome, wallet: real, items: seq<Item>): (w: real)
    ensures o != PaidByWallet ==> w == wallet
    ensures o == PaidByWallet ==> w + Total(items) == wallet
  {
    if o == PaidByWallet then wallet - Total(items) else wallet
  }

  /** The cart after the outcome: emptied by either payment, kept otherwise. */
  function CartAfter(o: PaymentOutcome, items: seq<Item>): (c: seq<Item>)
    ensures Paid(o) ==> c == []
    ensures !Paid(o) ==> c == items
    ensures Total(c) == if Paid(o) then 0.0 else Total(items)
    ensures multiset(c) <= multiset(items)
  {
    if Paid(o) then [] else items
  }

  /**
   * The write-back in `checkout`: the first stored record whose name is
   * exactly `name` gets the new balance; every other record, and every other
   * field, is kept.
   */
  function WithWallet(data: seq<UserRecord>, name: string, wallet: real): (r: seq<UserRecord>)
    ensures |r| == |data|
    ensures forall j :: 0 <= j < |data| ==>
      r[j].username == data[j].username && r[j].password == data[j].password && r[j].cards == data[j].cards
    ensures forall j :: 0 <= j < |data| && j != IndexOfUser(data, name, false) ==> r[j] == data[j]
    ensures Registered(data, name) ==> r[IndexOfUser(data, name, false)].wallet == wallet
    ensures !Registered(data, name) ==> r == data
  {
    var k := IndexOfUser(data, name, false);
    if k < |data| then data[k := data[k].(wallet := wallet)] else data
  }

  /** The file after the outcome: only a wallet payment writes the new balance. */
  function RecordsAfter(o: PaymentOutcome, records: seq<UserRecord>, name: string, wallet: real): (r: seq<UserRecord>)
    ensures |r| == |records|
    ensures forall j :: 0 <= j < |records| ==>
      r[j].username == records[j].username && r[j].password == records[j].password && r[j].cards == records[j].cards
    ensures o != PaidByWallet || !Registered(records, name) ==> r == records
  {
    if o == PaidByWallet then WithWallet(records, name, wallet) else records
  }

  /** The loop of `checkout` over the loaded records that writes the new balance back. */
  method StoreWallet(allUsers: seq<UserRecord>, name: string, wallet: real) returns (updated: seq<UserRecord>)
    ensures updated == WithWallet(allUsers, name, wallet)
  {
    updated := allUsers;
    var i := 0;
    while i < |updated|
      invariant i <= |updated| && updated == allUsers
      invariant forall j :: 0 <= j < i ==> allUsers[j].username != name
    {
      if updated[i].username == name {
        assert IndexOfUser(allUsers, name, false) == i;
        updated := updated[i := updated[i].(wallet := wallet)];
        return;
      }
      i := i + 1;
    }
  }

  /** `checkout`. */
  method Checkout(user: User, cart: ShoppingCart, file: UserFile, inputs: seq<string>) returns (outcome: PaymentOutcome)
    modifies user`wallet, cart`items, file
    ensures outcome == PaymentDecision(old(cart.items), old(user.wallet), user.cards, inputs)
    ensures user.wallet == WalletAfter(outcome, old(user.wallet), old(cart.items))
    ensures cart.items == CartAfter(outcome, old(cart.items))
    ensures file.records == RecordsAfter(outcome, old(file.records), user.name, user.wallet)
    ensures file.saves == old(file.saves) + (if outcome == PaidByWallet then 1 else 0)
  {
    if |cart.items| == 0 {
      return EmptyCart;
    }
    var totalPrice := Total(cart.items);
    if |inputs| == 0 {
      return Unanswered;
    }
    var paymentChoice := inputs[0];
    if paymentChoice == "1" {
      if totalPrice > user.wallet {
        return InsufficientFunds;
      }
      user.wallet := user.wallet - totalPrice;
      var allUsers := file.records;
      allUsers := StoreWallet(allUsers, user.name, user.wallet);
      file.Save(allUsers);
      outcome := PaidByWallet;
    } else if paymentChoice == "2" {
      if |user.cards| == 0 {
        return NoCards;
      }
      if |inputs| < 2 {
        return Unanswered;
      }
      var cardIdx := ParseChoice(inputs[1], |user.cards|);
      if cardIdx.None? {
        return InvalidCard;
      }
      outcome := PaidByCard(user.cards[cardIdx.value]);
    } else {
      return InvalidMethod;
    }
    cart.items := [];
  }

  /**
   * Wallet payment is refused exactly when the total exceeds the balance;
   * exact funds succeed and leave nothing.
   */
  lemma {:induction false} WalletPaymentRule(items: seq<Item>, wallet: real, cards: seq<Card>, inputs: seq<string>)
    requires items != [] && |inputs| >= 1 && inputs[0] == "1"
    ensures PaymentDecision(items, wallet, cards, inputs) == InsufficientFunds <==> Total(items) > wallet
    ensures PaymentDecision(items, wallet, cards, inputs) == PaidByWallet <==> Total(items) <= wallet
    ensures Total(items) == wallet ==> WalletAfter(PaidByWallet, wallet, items) == 0.0
  {
  }

  /**
   * Card payment succeeds exactly for a digit string n with 1 <= n <= the
   * number of cards, pays with card n, and never touches the wallet.
   */
  lemma {:induction false} CardPaymentRule(items: seq<Item>, wallet: real, cards: seq<Card>, inputs: seq<string>)
    requires items != [] && |inputs| >= 1 && inputs[0] == "2"
    ensures var o := PaymentDecision(items, wallet, cards, inputs);
      && (o.PaidByCard? <==> cards != [] && |inputs| >= 2 && IsDigits(inputs[1]) && 1 <= DigitsValue(inputs[1]) <= |cards|)
      && (o.PaidByCard? ==> o.card == cards[DigitsValue(inputs[1]) - 1])
      && WalletAfter(o, wallet, items) == wallet
  {
  }

  /** The cart is emptied exactly when a payment goes through. */
  lemma {:induction false} CartClearedExactlyOnPayment(items: seq<Item>, wallet: real, cards: seq<Card>, inputs: seq<string>)
    requires items != []
    ensures var o := PaymentDecision(items, wallet, cards, inputs);
      (CartAfter(o, items) == []) <==> Paid(o)
  {
  }

  /** Prices are not checked: paying for a cart whose total is negative raises the balance. */
  lemma {:induction false} NegativeTotalRaisesWallet(items: seq<Item>, wallet: real, cards: seq<Card>)
    requires items != [] && Total(items) < 0.0 && wallet >= 0.0
    ensures PaymentDecision(items, wallet, cards, ["1"]) == PaidByWallet
    ensures WalletAfter(PaidByWallet, wallet, items) > wallet
  {
  }

  /** The checkout tests' carts, balances and answers. */
  lemma CheckoutExamples()
    ensures PaymentDecision([Item("Apple", 2.0)], 100.0, [], ["1"]) == PaidByWallet
    ensures WalletAfter(PaidByWallet, 100.0, [Item("Apple", 2.0)]) == 98.0
    ensures PaymentDecision([Item("Laptop", 200.0)], 100.0, [], ["1"]) == InsufficientFunds
    ensures PaymentDecision([Item("Apple", 1.5), Item("Banana", 0.8)], 2.3, [], ["1"]) == PaidByWallet
    ensures WalletAfter(PaidByWallet, 2.3, [Item("Apple", 1.5), Item("Banana", 0.8)]) == 0.0
    ensures PaymentDecision([Item("Defective", -1.0)], 100.0, [], ["1"]) == PaidByWallet
    ensures PaymentDecision([Item("Apple", 2.0)], 100.0, [Card("9999", "", "Visa", "")], ["2", "1"])
         == PaidByCard(Card("9999", "", "Visa", ""))
    ensures PaymentDecision([Item("Apple", 2.0)], 100.0, [], ["2"]) == NoCards
    ensures PaymentDecision([Item("Apple", 2.0)], 100.0, [Card("1111", "", "", "")], ["2", "99"]) == InvalidCard
    ensures PaymentDecision([], 100.0, [], []) == EmptyCart
  {
    assert "1"[..0] == [];
    assert DigitsValue("1") == 1;
    assert "99"[..1] == "9" && "9"[..0] == [];
    assert DigitsValue("99") == 99;
  }

  /** Two stored names that agree everywhere lead every lookup to the same record. */
  lemma {:induction false} IndexOfUserReadsNamesOnly(a: seq<UserRecord>, b: seq<UserRecord>, name: string, ignoreCase: bool)
    requires |a| == |b| && forall j :: 0 <= j < |a| ==> a[j].username == b[j].username
    ensures IndexOfUser(a, name, ignoreCase) == IndexOfUser(b, name, ignoreCase)
  {
    var ka, kb := IndexOfUser(a, name, ignoreCase), IndexOfUser(b, name, ignoreCase);
    assert ka <= kb;
    assert kb <= ka;
  }

  /**
   * After a wallet payment the next login of the same user reports the new
   * balance, provided no earlier record has the name in another letter case
   * (the authenticator would find that one first).
   */
  lemma {:induction false} StoredWalletSeenAtNextLogin(data: seq<UserRecord>, name: string, wallet: real)
    requires Registered(data, name) && IndexOfUser(data, name, true) == IndexOfUser(data, name, false)
    ensures var k := IndexOfUser(data, name, false);
      Authenticate(name, data[k].password, WithWallet(data, name, wallet)) == Some(LoginInfo(name, wallet))
  {
    IndexOfUserReadsNamesOnly(WithWallet(data, name, wallet), data, name, true);
  }

  // ------------------------------------------------- stock held by the shop

  /** The cart and the inventory together. */
  datatype Shop = Shop(items: seq<Item>, products: seq<Product>)

  function CountNamed(items: seq<Item>, n: string): nat {
    if items == [] then 0 else (if items[0].name == n then 1 else 0) + CountNamed(items[1..], n)
  }

  function UnitsNamed(products: seq<Product>, n: string): int {
    if products == [] then 0 else (if products[0].name == n then products[0].units else 0) + UnitsNamed(products[1..], n)
  }

  function NumberNamed(products: seq<Product>, n: string): nat {
    if products == [] then 0 else (if products[0].name == n then 1 else 0) + NumberNamed(products[1..], n)
  }

  /** Units of `n` in the cart plus units of `n` in stock. */
  function Held(shop: Shop, n: string): int {
    CountNamed(shop.items, n) + UnitsNamed(shop.products, n)
  }

  predicate UniqueNames(products: seq<Product>) {
    forall i, j :: 0 <= i < j < |products| ==> products[i].name != products[j].name
  }

  predicate HasProduct(products: seq<Product>, n: string) {
    exists k :: 0 <= k < |products| && products[k].name == n
  }

  /** Every product name is listed once and every cart item names a listed product. */
  predicate Stocked(shop: Shop) {
    && UniqueNames(shop.products)
    && forall i :: 0 <= i < |shop.items| ==> HasProduct(shop.products, shop.items[i].name)
  }

  lemma {:induction false} CountNamedAppend(a: seq<Item>, b: seq<Item>, n: string)
    ensures CountNamed(a + b, n) == CountNamed(a, n) + CountNamed(b, n)
  {
    if a == [] {
      assert a + b == b;
    } else {
      CountNamedAppend(a[1..], b, n);
      assert (a + b)[1..] == a[1..] + b;
    }
  }

  lemma {:induction false} CountNamedRemoveAt(items: seq<Item>, i: nat, n: string)
    requires i < |items|
    ensures CountNamed(RemoveAt(items, i), n) == CountNamed(items, n) - (if items[i].name == n then 1 else 0)
  {
    assert items == items[..i] + ([items[i]] + items[i + 1..]);
    CountNamedAppend(items[..i], [items[i]] + items[i + 1..], n);
    CountNamedAppend([items[i]], items[i + 1..], n);
    CountNamedAppend(items[..i], items[i + 1..], n);
  }

  /** A listed name is listed exactly once when names are unique. */
  lemma {:induction false} NumberNamedUnique(products: seq<Product>, n: string, k: nat)
    requires UniqueNames(products) && k < |products| && products[k].name == n
    ensures NumberNamed(products, n) == 1
  {
    if k == 0 {
      NumberNamedAbsent(products[1..], n);
    } else {
      NumberNamedUnique(products[1..], n, k - 1);
    }
  }

  lemma {:induction false} NumberNamedAbsent(products: seq<Product>, n: string)
    requires forall j :: 0 <= j < |products| ==> products[j].name != n
    ensures NumberNamed(products, n) == 0
  {
    if products != [] {
      NumberNamedAbsent(products[1..], n);
    }
  }

  lemma {:induction false} UnitsNamedUpdate(products: seq<Product>, i: nat, p: Product, n: string)
    requires i < |products| && p.name == products[i].name
    ensures UnitsNamed(products[i := p], n) == UnitsNamed(products, n) + (if p.name == n then p.units - products[i].units else 0)
  {
    if i > 0 {
      UnitsNamedUpdate(products[1..], i - 1, p, n);
      assert products[i := p][1..] == products[1..][i - 1 := p];
    } else {
      assert products[i := p][1..] == products[1..];
    }
  }

  // ------------------------------------------------------------- check_cart

  /**
   * `add_product_unit` on every product named `name`: one more unit each,
   * everything else as it was.
   */
  function Restocked(products: seq<Product>, name: string): (r: seq<Product>)
    ensures |r| == |products|
    ensures forall j :: 0 <= j < |products| ==>
      r[j] == if products[j].name == name then products[j].(units := products[j].units + 1) else products[j]
  {
    if products == [] then []
    else
      var rest := Restocked(products[1..], name);
      [if products[0].name == name then products[0].(units := products[0].units + 1) else products[0]] + rest
  }

  /** Restocking `name` adds one unit of it for every product so named. */
  lemma {:induction false} RestockedUnits(products: seq<Product>, name: string, n: string)
    ensures UnitsNamed(Restocked(products, name), n) == UnitsNamed(products, n) + (if n == name then NumberNamed(products, n) else 0)
  {
    if products != [] {
      RestockedUnits(products[1..], name, n);
      assert Restocked(products, name)[1..] == Restocked(products[1..], name);
    }
  }

  /**
   * The list comprehension of `check_cart` that gives every product of the
   * removed name a unit back.
   */
  method Restock(inventory: Inventory, name: string)
    modifies inventory`products
    ensures inventory.products == Restocked(old(inventory.products), name)
  {
    ghost var target := Restocked(inventory.products, name);
    var j := 0;
    while j < |inventory.products|
      invariant j <= |inventory.products| == |target|
      invariant forall m :: 0 <= m < j ==> inventory.products[m] == target[m]
      invariant forall m :: j <= m < |inventory.products| ==> inventory.products[m] == old(inventory.products)[m]
    {
      if inventory.products[j].name == name {
        inventory.products := inventory.products[j := inventory.products[j].(units := inventory.products[j].units + 1)];
      }
      j := j + 1;
    }
  }

  /**
   * One removal in `check_cart`, from the answer to "Enter item number to
   * remove": an answer starting with c, or anything but an item number in
   * range, changes nothing; item n leaves the cart and every product of its
   * name gets a unit back.
   */
  function RemoveStep(shop: Shop, answer: string): (r: Shop)
    ensures |r.items| == |shop.items| || |r.items| + 1 == |shop.items|
    ensures multiset(r.items) <= multiset(shop.items)
    ensures |r.products| == |shop.products|
    ensures forall j :: 0 <= j < |shop.products| ==>
      r.products[j].name == shop.products[j].name && r.products[j].price == shop.products[j].price
  {
    if StartsWith(answer, 'c') then shop
    else match ParseChoice(answer, |shop.items|)
      case Some(i) => Shop(RemoveAt(shop.items, i), Restocked(shop.products, shop.items[i].name))
      case None => shop
  }

  /**
   * A removal takes out exactly the chosen item (the cart total drops by its
   * price) and puts its unit back in stock; any other answer keeps the shop.
   */
  lemma {:induction false} RemovalRule(shop: Shop, answer: string)
    ensures var s := RemoveStep(shop, answer);
      if !StartsWith(answer, 'c') && ParseChoice(answer, |shop.items|).Some? then
        var i := ParseChoice(answer, |shop.items|).value;
        && multiset(s.items) + multiset{shop.items[i]} == multiset(shop.items)
        && Total(s.items) == Total(shop.items) - shop.items[i].price
        && s.products == Restocked(shop.products, shop.items[i].name)
      else s == shop
  {
    if !StartsWith(answer, 'c') && ParseChoice(answer, |shop.items|).Some? {
      TotalRemove(shop.items, ParseChoice(answer, |shop.items|).value);
    }
  }

  /** Restocking renames nothing, so a restocked list still lists each name once and every old name. */
  lemma {:induction false} RestockedKeepsNames(products: seq<Product>, name: string)
    ensures forall j :: 0 <= j < |products| ==> Restocked(products, name)[j].name == products[j].name
    ensures UniqueNames(products) ==> UniqueNames(Restocked(products, name))
    ensures forall n :: HasProduct(products, n) ==> HasProduct(Restocked(products, name), n)
  {
    var r := Restocked(products, name);
    forall n | HasProduct(products, n)
      ensures HasProduct(r, n)
    {
      var q :| 0 <= q < |products| && products[q].name == n;
      assert r[q].name == n;
    }
  }

  /** Taking out item `i` and restocking its product keeps the shop stocked. */
  lemma {:induction false} RemovalKeepsStocked(shop: Shop, i: nat)
    requires Stocked(shop) && i < |shop.items|
    ensures Stocked(Shop(RemoveAt(shop.items, i), Restocked(shop.products, shop.items[i].name)))
  {
    var items := RemoveAt(shop.items, i);
    RestockedKeepsNames(shop.products, shop.items[i].name);
    forall j | 0 <= j < |items|
      ensures HasProduct(shop.products, items[j].name)
    {
      if j < i {
        assert items[j] == shop.items[j];
      } else {
        assert items[j] == shop.items[j + 1];
      }
    }
  }

  /** Taking out item `i` and restocking its product keeps every unit accounted for. */
  lemma {:induction false} RemovalKeepsHeld(shop: Shop, i: nat, n: string)
    requires Stocked(shop) && i < |shop.items|
    ensures Held(Shop(RemoveAt(shop.items, i), Restocked(shop.products, shop.items[i].name)), n) == Held(shop, n)
  {
    var name := shop.items[i].name;
    assert HasProduct(shop.products, name);
    var k :| 0 <= k < |shop.products| && shop.products[k].name == name;
    NumberNamedUnique(shop.products, name, k);
    CountNamedRemoveAt(shop.items, i, n);
    RestockedUnits(shop.products, name, n);
  }

  /**
   * A removal keeps every unit accounted for: what leaves the cart returns
   * to stock, provided each product name is listed once.
   */
  lemma {:induction false} RemoveStepConserves(shop: Shop, answer: string, n: string)
    requires Stocked(shop)
    ensures Stocked(RemoveStep(shop, answer))
    ensures Held(RemoveStep(shop, answer), n) == Held(shop, n)
  {
    if !StartsWith(answer, 'c') && ParseChoice(answer, |shop.items|).Some? {
      var i := ParseChoice(answer, |shop.items|).value;
      RemovalKeepsStocked(shop, i);
      RemovalKeepsHeld(shop, i, n);
    }
  }

  /** `tail` is what is left of `whole` once some answers at its front are read. */
  predicate IsSuffix(tail: seq<string>, whole: seq<string>) {
    |tail| <= |whole| && tail == whole[|whole| - |tail|..]
  }

  /** How the cart review ends, before any payment. */
  datatype ReviewEnd = ToCheckout | Declined | Exhausted

  /** The shop when the review ends, and the answers left for the payment prompts. */
  datatype ReviewState = ReviewState(shop: Shop, rest: seq<string>, how: ReviewEnd)

  /**
   * The `while True` loop of `check_cart`: with items in the cart, a first
   * answer starting with y goes to checkout; otherwise a second answer
   * starting with y asks for an item to remove, and anything else ends the
   * review. An empty cart ends it without a question.
   */
  function Review(shop: Shop, inputs: seq<string>): (r: ReviewState)
    ensures IsSuffix(r.rest, inputs)
    ensures |r.shop.items| <= |shop.items| && multiset(r.shop.items) <= multiset(shop.items)
    ensures |r.shop.products| == |shop.products|
    ensures r.how == ToCheckout ==> r.shop.items != []
    decreases |inputs|
  {
    if shop.items == [] then ReviewState(shop, inputs, Declined)
    else if inputs == [] then ReviewState(shop, [], Exhausted)
    else if StartsWith(Lower(inputs[0]), 'y') then ReviewState(shop, inputs[1..], ToCheckout)
    else if |inputs| < 2 then ReviewState(shop, [], Exhausted)
    else if !StartsWith(Lower(inputs[1]), 'y') then ReviewState(shop, inputs[2..], Declined)
    else if |inputs| < 3 then ReviewState(shop, [], Exhausted)
    else
      var r := Review(RemoveStep(shop, Lower(inputs[2])), inputs[3..]);
      assert IsSuffix(r.rest, inputs) by {
        assert inputs[3..][|inputs[3..]| - |r.rest|..] == inputs[|inputs| - |r.rest|..];
      }
      r
  }

  /** However long the review, every unit of every product stays accounted for. */
  lemma {:induction false} ReviewConserves(shop: Shop, inputs: seq<string>, n: string)
    requires Stocked(shop)
    ensures Stocked(Review(shop, inputs).shop)
    ensures Held(Review(shop, inputs).shop, n) == Held(shop, n)
    decreases |inputs|
  {
    if shop.items != [] && |inputs| >= 3 && !StartsWith(Lower(inputs[0]), 'y') && StartsWith(Lower(inputs[1]), 'y') {
      var next := RemoveStep(shop, Lower(inputs[2]));
      RemoveStepConserves(shop, Lower(inputs[2]), n);
      ReviewConserves(next, inputs[3..], n);
    }
  }

  /** What the review does with the answers from position `pos` on, with items in the cart. */
  lemma {:induction false} ReviewAt(shop: Shop, inputs: seq<string>, pos: nat)
    requires pos < |inputs| && shop.items != []
    ensures var here, checkout := Review(shop, inputs[pos..]), StartsWith(Lower(inputs[pos]), 'y');
      && (checkout ==> here == ReviewState(shop, inputs[pos + 1..], ToCheckout))
      && (!checkout && pos + 1 == |inputs| ==> here == ReviewState(shop, [], Exhausted))
      && (!checkout && pos + 1 < |inputs| && !StartsWith(Lower(inputs[pos + 1]), 'y') ==>
            here == ReviewState(shop, inputs[pos + 2..], Declined))
      && (!checkout && pos + 2 == |inputs| && StartsWith(Lower(inputs[pos + 1]), 'y') ==>
            here == ReviewState(shop, [], Exhausted))
      && (!checkout && pos + 2 < |inputs| && StartsWith(Lower(inputs[pos + 1]), 'y') ==>
            here == Review(RemoveStep(shop, Lower(inputs[pos + 2])), inputs[pos + 3..]))
  {
    var rest := inputs[pos..];
    assert rest[0] == inputs[pos] && rest[1..] == inputs[pos + 1..];
    if pos + 1 < |inputs| {
      assert rest[1] == inputs[pos + 1] && rest[2..] == inputs[pos + 2..];
    }
    if pos + 2 < |inputs| {
      assert rest[2] == inputs[pos + 2] && rest[3..] == inputs[pos + 3..];
    }
  }

  /** An empty cart ends the review at once, reading nothing and changing nothing. */
  lemma {:induction false} EmptyCartDeclines(products: seq<Product>, inputs: seq<string>)
    ensures Review(Shop([], products), inputs) == ReviewState(Shop([], products), inputs, Declined)
  {
  }

  /** The removal of the review test: item 1, the apple, goes back to stock. */
  lemma RemoveAppleExample()
    ensures RemoveStep(Shop([Item("Apple", 1.5), Item("Banana", 0.8)], [Product("Apple", 1.5, 10), Product("Banana", 0.8, 20)]), "1")
         == Shop([Item("Banana", 0.8)], [Product("Apple", 1.5, 11), Product("Banana", 0.8, 20)])
  {
    var items := [Item("Apple", 1.5), Item("Banana", 0.8)];
    var products := [Product("Apple", 1.5, 10), Product("Banana", 0.8, 20)];
    assert "1"[..0] == [] && DigitsValue("1") == 1 && ParseChoice("1", 2) == Some(0);
    assert RemoveAt(items, 0) == items[1..];
    assert Restocked(products, "Apple") == [Product("Apple", 1.5, 11), Product("Banana", 0.8, 20)];
  }

  /** The review tests: remove item 1 and decline; the apple goes back to stock. */
  lemma ReviewExample()
    ensures Review(Shop([Item("Apple", 1.5), Item("Banana", 0.8)], [Product("Apple", 1.5, 10), Product("Banana", 0.8, 20)]),
                   ["n", "y", "1", "n", "n"])
         == ReviewState(Shop([Item("Banana", 0.8)], [Product("Apple", 1.5, 11), Product("Banana", 0.8, 20)]), [], Declined)
  {
    var inputs := ["n", "y", "1", "n", "n"];
    var shop := Shop([Item("Apple", 1.5), Item("Banana", 0.8)], [Product("Apple", 1.5, 10), Product("Banana", 0.8, 20)]);
    var after := Shop([Item("Banana", 0.8)], [Product("Apple", 1.5, 11), Product("Banana", 0.8, 20)]);
    assert Lower("n")[0] == 'n' && Lower("y")[0] == 'y' && Lower("1") == "1";
    RemoveAppleExample();
    ReviewAt(shop, inputs, 0);
    assert inputs[0..] == inputs && inputs[3..] == ["n", "n"];
    ReviewAt(after, ["n", "n"], 0);
    assert ["n", "n"][0..] == ["n", "n"] && ["n", "n"][2..] == [];
  }


  /** What `check_cart` returns: the checkout's outcome, False, or end of input. */
  datatype CartReview = CheckedOut(payment: PaymentOutcome) | KeptShopping | InputExhausted

  /** The removal branch of `check_cart`: `remove_item` with its restock. */
  method RemoveSelected(cart: ShoppingCart, inventory: Inventory, userInput: string)
    modifies cart`items, inventory`products
    ensures Shop(cart.items, inventory.products) == RemoveStep(Shop(old(cart.items), old(inventory.products)), userInput)
  {
    if StartsWith(userInput, 'c') {
      return;
    }
    var choice := ParseChoice(userInput, |cart.items|);
    if choice.None? {
      return;
    }
    var selectedItem := cart.items[choice.value];
    cart.items := RemoveAt(cart.items, choice.value);
    Restock(inventory, selectedItem.name);
  }

  /** `check_cart`. */
  method CheckCart(user: User, cart: ShoppingCart, inventory: Inventory, file: UserFile, inputs: seq<string>)
    returns (review: CartReview)
    modifies user`wallet, cart`items, inventory`products, file
    ensures var r := Review(Shop(old(cart.items), old(inventory.products)), inputs);
      && inventory.products == r.shop.products
      && (r.how == ToCheckout ==>
            var payment := PaymentDecision(r.shop.items, old(user.wallet), user.cards, r.rest);
            && review == CheckedOut(payment)
            && user.wallet == WalletAfter(payment, old(user.wallet), r.shop.items)
            && cart.items == CartAfter(payment, r.shop.items)
            && file.records == RecordsAfter(payment, old(file.records), user.name, user.wallet)
            && file.saves == old(file.saves) + (if payment == PaidByWallet then 1 else 0))
      && (r.how != ToCheckout ==>
            && review == (if r.how == Declined then KeptShopping else InputExhausted)
            && user.wallet == old(user.wallet)
            && cart.items == r.shop.items
            && file.records == old(file.records) && file.saves == old(file.saves))
  {
    ghost var r := Review(Shop(cart.items, inventory.products), inputs);
    var pos := 0;
    assert inputs[pos..] == inputs;
    while true
      invariant pos <= |inputs|
      invariant r == Review(Shop(cart.items, inventory.products), inputs[pos..])
      invariant user.wallet == old(user.wallet)
      invariant file.records == old(file.records) && file.saves == old(file.saves)
      decreases |inputs| - pos
    {
      if |cart.items| == 0 {
        assert r == ReviewState(Shop(cart.items, inventory.products), inputs[pos..], Declined);
        return KeptShopping;
      }
      if pos == |inputs| {
        assert r == ReviewState(Shop(cart.items, inventory.products), [], Exhausted);
        return InputExhausted;
      }
      ReviewAt(Shop(cart.items, inventory.products), inputs, pos);
      if StartsWith(Lower(inputs[pos]), 'y') {
        assert r == ReviewState(Shop(cart.items, inventory.products), inputs[pos + 1..], ToCheckout);
        var payment := Checkout(user, cart, file, inputs[pos + 1..]);
        return CheckedOut(payment);
      }
      if pos + 1 == |inputs| {
        assert r.how == Exhausted && r.shop == Shop(cart.items, inventory.products);
        return InputExhausted;
      }
      if !StartsWith(Lower(inputs[pos + 1]), 'y') {
        assert r.how == Declined && r.shop == Shop(cart.items, inventory.products);
        return KeptShopping;
      }
      if pos + 2 == |inputs| {
        assert r.how == Exhausted && r.shop == Shop(cart.items, inventory.products);
        return InputExhausted;
      }
      var userInput := Lower(inputs[pos + 2]);
      RemoveSelected(cart, inventory, userInput);
      pos := pos + 3;
    }
  }

  // ------------------------------------------------- checkout_and_payment

  /** What an answer to the shopping menu asks for. */
  datatype MenuAction = ShowProducts | ReviewCart | OpenProfile | LogOut | Select(index: nat) | Unrecognised

  /**
   * The menu answer, lowered: a leading d, c, p or l picks that action; a
   * product number n with 1 <= n <= count selects product n; anything else
   * is refused.
   */
  function MenuChoice(input: string, count: nat): (a: MenuAction)
    ensures a.Select? ==> a.index < count
  {
    var choice := Lower(input);
    if StartsWith(choice, 'd') then ShowProducts
    else if StartsWith(choice, 'c') then ReviewCart
    else if StartsWith(choice, 'p') then OpenProfile
    else if StartsWith(choice, 'l') then LogOut
    else match ParseChoice(choice, count)
      case Some(i) => Select(i)
      case None => Unrecognised
  }

  /** Lowering leaves a digit string as it is, and makes no digit string out of anything else. */
  lemma {:induction false} LowerKeepsDigits(s: string)
    ensures IsDigits(Lower(s)) <==> IsDigits(s)
    ensures IsDigits(s) ==> Lower(s) == s
  {
    if IsDigits(s) {
      assert forall i :: 0 <= i < |s| ==> Lower(s)[i] == s[i];
    }
    if IsDigits(Lower(s)) {
      forall i | 0 <= i < |s|
        ensures IsDigitChar(s[i])
      {
        assert IsDigitChar(LowerChar(s[i]));
      }
    }
  }

  /** A product is selected exactly by its number in the list, typed in digits. */
  lemma {:induction false} SelectionRule(input: string, count: nat)
    ensures MenuChoice(input, count).Select? <==> IsDigits(input) && 1 <= DigitsValue(input) <= count
    ensures MenuChoice(input, count).Select? ==> MenuChoice(input, count).index == DigitsValue(input) - 1
  {
    LowerKeepsDigits(input);
  }

  /**
   * The selection branch of `checkout_and_payment`: a product with units left
   * puts one unit in the cart and takes it from stock; a product without any
   * changes nothing.
   */
  function Selected(shop: Shop, index: nat): (r: Shop)
    requires index < |shop.products|
    ensures |r.products| == |shop.products|
    ensures forall j :: 0 <= j < |shop.products| && j != index ==> r.products[j] == shop.products[j]
    ensures shop.items <= r.items && |r.items| <= |shop.items| + 1
    ensures r.products[index].units >= 0 || r.products[index].units == shop.products[index].units
  {
    var p := shop.products[index];
    if p.units > 0 then Shop(shop.items + [Item(p.name, p.price)], shop.products[index := p.(units := p.units - 1)])
    else shop
  }

  /**
   * Selecting a product with units left adds one item of its name and price
   * and takes one unit from its stock; a product without any leaves the shop
   * as it was. Either way every unit stays accounted for, and a stocked shop
   * stays stocked.
   */
  lemma {:induction false} SelectionConserves(shop: Shop, index: nat, n: string)
    requires index < |shop.products|
    ensures var s, p := Selected(shop, index), shop.products[index];
      && (p.units > 0 ==> s.items == shop.items + [Item(p.name, p.price)]
                          && s.products == shop.products[index := p.(units := p.units - 1)])
      && (p.units <= 0 ==> s == shop)
      && Held(s, n) == Held(shop, n)
      && Total(s.items) == Total(shop.items) + (if p.units > 0 then p.price else 0.0)
      && (Stocked(shop) ==> Stocked(s))
  {
    var p := shop.products[index];
    if p.units > 0 {
      var s := Selected(shop, index);
      CountNamedAppend(shop.items, [Item(p.name, p.price)], n);
      UnitsNamedUpdate(shop.products, index, p.(units := p.units - 1), n);
      TotalAppend(shop.items, [Item(p.name, p.price)]);
      if Stocked(shop) {
        forall j | 0 <= j < |s.items|
          ensures HasProduct(s.products, s.items[j].name)
        {
          if j < |shop.items| {
            var q :| 0 <= q < |shop.products| && shop.products[q].name == shop.items[j].name;
            assert s.products[q].name == shop.products[q].name;
          } else {
            assert s.products[index].name == s.items[j].name;
          }
        }
      }
    }
  }

  /** Whether the selected product went into the cart. */
  datatype Selection = AddedToCart | OutOfStock

  /** The product-selection branch of the shopping menu. */
  method SelectProduct(inventory: Inventory, cart: ShoppingCart, index: nat) returns (result: Selection)
    requires index < |inventory.products|
    modifies cart`items, inventory`products
    ensures result == if old(inventory.products[index].units) > 0 then AddedToCart else OutOfStock
    ensures Shop(cart.items, inventory.products) == Selected(Shop(old(cart.items), old(inventory.products)), index)
  {
    var selectedProduct := inventory.products[index];
    if selectedProduct.units > 0 {
      inventory.products := inventory.products[index := selectedProduct.(units := selectedProduct.units - 1)];
      cart.items := cart.items + [Item(selectedProduct.name, selectedProduct.price)];
      return AddedToCart;
    }
    return OutOfStock;
  }
}
