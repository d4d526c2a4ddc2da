/** The `User` object of the shop: a name, a wallet balance and the saved credit cards. */
module Users {
  import opened Wrappers

  /** A credit card as the shop stores it: four text fields. */
  datatype Card = Card(cardNumber: string, expiry: string, name: string, cvv: string)

  /** The card whose four fields are the four inputs starting at position `p`. */
  function ReadCard(inputs: seq<string>, p: nat): Card
    requires p + 4 <= |inputs|
  {
    Card(inputs[p], inputs[p + 1], inputs[p + 2], inputs[p + 3])
  }

  class User {
    var name: string
    var wallet: real
    var cards: seq<Card>

    /** Omitted (`None`) cards become an empty list; given cards are kept as they are. */
    constructor (name: string, wallet: real, cards: Option<seq<Card>>)
      ensures this.name == name && this.wallet == wallet
      ensures cards.Some? ==> this.cards == cards.value
      ensures cards.None? ==> this.cards == []
    {
      this.name := name;
      this.wallet := wallet;
      this.cards := cards.GetOr([]);
    }
  }
}
