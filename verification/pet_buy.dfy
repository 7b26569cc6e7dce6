/**
 The off-chain pet purchase. Before the price is checked, the offline income
 of the pets already owned is paid out; that amount is computed from
 floating-point hourly rates and is an input here (`earnings`). The stored
 claim time is a date object and therefore always set, so the payout depends
 only on the player owning a pet. `clock` is the current time.
 */
module PetBuy {
  import opened Common
  import opened Farm
  import opened Requests
  import Pets
  import EventHandlers

  datatype PetBuyError =
    | InvalidRequest
    | PetNotFound(petId: string)
    | AlreadyOwned(petId: string)
    | InsufficientCoins(needed: int, have: int)

  /** The response on success: the updated user and the income paid out first. */
  datatype PetPurchase = PetPurchase(user: User, offlineEarnings: nat)

  /** The income that is paid out: `earnings` when the player already owns a pet, otherwise none. */
  function Settled(u: User, earnings: nat): (e: nat)
    ensures e == 0 || (u.petList != [] && e == earnings)
  {
    if |u.petList| > 0 then earnings else 0
  }

  /**
   The handler body: the pet id must be a known, not yet owned pet; the
   income is credited (and the claim time moved to `clock` when it is
   positive); then the price is checked against the credited balance.
   */
  function BuyPet(u: User, petId: Value, earnings: nat, clock: int): (r: Result<PetPurchase, PetBuyError>)
    ensures r == Err(InvalidRequest) <==> !NonEmptyString(petId)
    ensures r.Ok? <==>
      && NonEmptyString(petId)
      && Pets.GetPetConfig(petId.s).Some?
      && petId.s !in u.petList
      && u.coins + Settled(u, earnings) >= Pets.GetPetConfig(petId.s).value.price
    ensures r.Err? && r.error.InsufficientCoins? ==>
      r.error.have == u.coins + Settled(u, earnings) && r.error.have < r.error.needed
    ensures r.Ok? ==>
      var v := r.value.user;
      var paid := Settled(u, earnings);
      && r.value.offlineEarnings == paid
      && v.coins == u.coins + paid - Pets.GetPetConfig(petId.s).value.price && v.coins >= 0
      && v.petList == u.petList + [petId.s]
      && v.lastOfflineClaimAt == (if u.petList == [] || paid > 0 then clock else u.lastOfflineClaimAt)
      && v == u.(coins := v.coins, petList := v.petList, lastOfflineClaimAt := v.lastOfflineClaimAt)
  {
    if !Truthy(petId) || !petId.Str? then Err(InvalidRequest)
    else
      var id := petId.s;
      match Pets.GetPetConfig(id)
      case None => Err(PetNotFound(id))
      case Some(pet) =>
        if id in u.petList then Err(AlreadyOwned(id))
        else
          var paid := Settled(u, earnings);
          var settled := if paid > 0 then u.(coins := u.coins + paid, lastOfflineClaimAt := clock) else u;
          if settled.coins < pet.price then Err(InsufficientCoins(pet.price, settled.coins))
          else
            var petList := settled.petList + [id];
            var bought := settled.(coins := settled.coins - pet.price, petList := petList);
            Ok(PetPurchase(if |petList| == 1 then bought.(lastOfflineClaimAt := clock) else bought, paid))
  }

  /**
   With no income to pay out, the request does what the on-chain pet purchase
   does: the same refusals and the same resulting user.
   */
  lemma PetBuyMatchesChain(u: User, petId: string, clock: int)
    requires petId != ""
    ensures BuyPet(u, Str(petId), 0, clock).Ok? <==> EventHandlers.BuyPet(u, petId, clock).Ok?
    ensures BuyPet(u, Str(petId), 0, clock).Ok? ==>
      BuyPet(u, Str(petId), 0, clock).value.user == EventHandlers.BuyPet(u, petId, clock).value
  {
  }

  /** Income paid out first can only help: a purchase affordable without it stays affordable. */
  lemma EarningsOnlyHelp(u: User, petId: Value, earnings: nat, clock: int)
    requires BuyPet(u, petId, 0, clock).Ok?
    ensures BuyPet(u, petId, earnings, clock).Ok?
    ensures BuyPet(u, petId, earnings, clock).value.user.coins
         == BuyPet(u, petId, 0, clock).value.user.coins + Settled(u, earnings)
  {
  }

  /** Repeated purchases never give the player the same pet twice. */
  lemma {:induction false} BuyPetKeepsDistinct(u: User, petId: Value, earnings: nat, clock: int)
    requires EventHandlers.Distinct(u.petList)
    requires BuyPet(u, petId, earnings, clock).Ok?
    ensures EventHandlers.Distinct(BuyPet(u, petId, earnings, clock).value.user.petList)
  {
    var l := BuyPet(u, petId, earnings, clock).value.user.petList;
    assert l == u.petList + [petId.s];
    forall i, j | 0 <= i < j < |l| ensures l[i] != l[j] {
      assert l[i] == u.petList[i];
      if j < |u.petList| {
        assert l[j] == u.petList[j];
      }
    }
  }
}
