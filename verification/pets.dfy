/** The pet catalogue. Hourly income rates are floating-point and are not part of this model. */
module Pets {
  import opened Common

  datatype PetConfig = PetConfig(name: string, price: nat)

  /** The five pet ids, in the order of their on-chain index (0 = chick .. 4 = panda). */
  const PetIds: seq<string> := ["chick", "rabbit", "dog", "fox", "panda"]

  /** `PETS[petId] || null` */
  function GetPetConfig(petId: string): (r: Option<PetConfig>)
    ensures r.Some? <==> petId in PetIds
  {
    if petId == "chick" then Some(PetConfig("chick", 100))
    else if petId == "rabbit" then Some(PetConfig("rabbit", 500))
    else if petId == "dog" then Some(PetConfig("dog", 2000))
    else if petId == "fox" then Some(PetConfig("fox", 5000))
    else if petId == "panda" then Some(PetConfig("panda", 10000))
    else None
  }
}
