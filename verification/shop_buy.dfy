/**
 The off-chain shop: a player buys `amount` units of fertilizer or of a
 catalogue seed for coins. The request is checked, priced and refused when
 the balance falls short; otherwise coins and backpack change together.
 */
module ShopBuy {
  import opened Common
  import opened Text
  import opened Farm
  import opened Requests
  import Seeds
  import Fertilizer
  import EventHandlers

  datatype ShopError =
    | MissingItem
    | InvalidAmount
    | UnknownSeed(itemId: string)
    | UnknownItem(itemId: string)
    | InsufficientCoins(needed: int, have: int)

  /** The response on success: the updated user and what was charged. */
  datatype Purchase = Purchase(user: User, totalCost: int)

  /** Every catalogue key starts with `seed_`, so the shop reaches it. */
  lemma CatalogueKeyPrefix(id: string)
    ensures Seeds.GetSeedConfig(id).Some? ==> StartsWith(id, "seed_") && id != FertilizerKey
  {
    if Seeds.GetSeedConfig(id).Some? {
      var k := Seeds.SeedIndex(id).value;
      assert id == "seed_" + DecimalString(k);
      assert id[..5] == "seed_";
    }
  }

  /** The unit price: the fertilizer's shop price, a seed's cost, or a refusal. */
  function ItemPrice(itemId: string): (r: Result<nat, ShopError>)
    ensures r.Ok? <==> itemId == FertilizerKey || Seeds.GetSeedConfig(itemId).Some?
    ensures itemId == FertilizerKey ==> r == Ok(Fertilizer.Config.price)
    ensures Seeds.GetSeedConfig(itemId).Some? ==> r == Ok(Seeds.GetSeedConfig(itemId).value.cost)
    ensures r.Err? ==> r.error == (if StartsWith(itemId, "seed_") then UnknownSeed(itemId) else UnknownItem(itemId))
  {
    CatalogueKeyPrefix(itemId);
    if itemId == FertilizerKey then Ok(Fertilizer.Config.price)
    else if StartsWith(itemId, "seed_") then
      match Seeds.GetSeedConfig(itemId)
      case None => Err(UnknownSeed(itemId))
      case Some(seed) => Ok(seed.cost)
    else Err(UnknownItem(itemId))
  }

  /** The handler body, from the parsed `itemId` and `amount` of the request. */
  function Buy(u: User, itemId: Value, amount: Value): (r: Result<Purchase, ShopError>)
    ensures r == Err(MissingItem) <==> !NonEmptyString(itemId)
    ensures r == Err(InvalidAmount) <==> NonEmptyString(itemId) && !(amount.Num? && amount.n > 0)
    ensures r.Ok? <==>
      && NonEmptyString(itemId) && amount.Num? && amount.n > 0
      && ItemPrice(itemId.s).Ok?
      && u.coins >= ItemPrice(itemId.s).value * amount.n
    ensures r.Ok? ==>
      var id := itemId.s;
      var v := r.value.user;
      && r.value.totalCost == ItemPrice(id).value * amount.n
      && v.coins == u.coins - r.value.totalCost && v.coins >= 0
      && Count(v.backpack, id) == Count(u.backpack, id) + amount.n
      && SameExcept(v.backpack, u.backpack, id)
      && v == u.(coins := v.coins, backpack := v.backpack)
  {
    if !Truthy(itemId) || !itemId.Str? then Err(MissingItem)
    else if !Truthy(amount) || !IsNumber(amount) || (amount.Num? && amount.n <= 0) then Err(InvalidAmount)
    else
      var id := itemId.s;
      match ItemPrice(id)
      case Err(e) => Err(e)
      case Ok(price) =>
        var totalCost := price * amount.n;
        if u.coins < totalCost then Err(InsufficientCoins(totalCost, u.coins))
        else Ok(Purchase(u.(coins := u.coins - totalCost, backpack := Bump(u.backpack, id, amount.n)), totalCost))
  }

  /**
   An affordable seed purchase in the shop leaves the player exactly where
   the on-chain seed purchase of the same count does.
   */
  lemma ShopSeedMatchesChain(u: User, seedId: string, count: nat)
    requires Seeds.GetSeedConfig(seedId).Some? && count > 0
    requires u.coins >= Seeds.GetSeedConfig(seedId).value.cost * count
    ensures Buy(u, Str(seedId), Num(count)).Ok?
    ensures Buy(u, Str(seedId), Num(count)).value.user == EventHandlers.BuySeed(u, seedId, count).value
  {
    CatalogueKeyPrefix(seedId);
  }

  /** The same for fertilizer: both sides charge 50 coins a unit. */
  lemma ShopFertilizerMatchesChain(u: User, count: nat)
    requires count > 0 && u.coins >= 50 * count
    ensures Buy(u, Str(FertilizerKey), Num(count)).Ok?
    ensures Buy(u, Str(FertilizerKey), Num(count)).value.user == EventHandlers.BuyFertilizer(u, count)
  {
  }

  /** Two purchases of the same item amount to one purchase of their sum. */
  lemma {:induction false} BuyAdditive(u: User, id: string, a: int, b: int)
    requires Buy(u, Str(id), Num(a)).Ok?
    requires Buy(Buy(u, Str(id), Num(a)).value.user, Str(id), Num(b)).Ok?
    ensures Buy(u, Str(id), Num(a + b)).Ok?
    ensures Buy(Buy(u, Str(id), Num(a)).value.user, Str(id), Num(b)).value.user
         == Buy(u, Str(id), Num(a + b)).value.user
  {
    var price := ItemPrice(id).value;
    var v := Buy(u, Str(id), Num(a)).value.user;
    assert v == u.(coins := u.coins - price * a, backpack := Bump(u.backpack, id, a));
    var w := Buy(v, Str(id), Num(b)).value.user;
    assert w == v.(coins := v.coins - price * b, backpack := Bump(v.backpack, id, b));
    assert price * (a + b) == price * a + price * b;
    assert u.coins >= price * (a + b);
    BumpTwice(u.backpack, id, a, b);
  }

  /** Moving an entry twice is moving it once by the sum. */
  lemma BumpTwice(bag: map<string, int>, key: string, a: int, b: int)
    ensures Bump(Bump(bag, key, a), key, b) == Bump(bag, key, a + b)
  {
  }
}
