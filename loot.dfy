/** Pickups: the type roll a new pickup makes and the drop roll of a dying enemy. */
module Loot {
  import opened Wrappers

  datatype PickupKind = Health | ArmorPlate | RapidFire | Shield

  /** The pickup type for a random roll: 40% health, 30% armor, 20% fire rate,
      10% shield. */
  function KindOfRoll(roll: real): (k: PickupKind)
    ensures k == Health <==> roll < 0.4
    ensures k == ArmorPlate <==> 0.4 <= roll < 0.7
    ensures k == RapidFire <==> 0.7 <= roll < 0.9
    ensures k == Shield <==> 0.9 <= roll
  {
    if roll < 0.4 then Health
    else if roll < 0.7 then ArmorPlate
    else if roll < 0.9 then RapidFire
    else Shield
  }

  /** The two random rolls drawn when an enemy dies: whether it drops a pickup
      and, if so, of which type. */
  datatype LootRoll = LootRoll(drop: real, kind: real)

  /** A dying enemy drops a pickup when its drop roll is below 0.2. */
  function DropOf(r: LootRoll): (p: Option<PickupKind>)
    ensures p.Some? <==> r.drop < 0.2
    ensures p.Some? ==> p.value == KindOfRoll(r.kind)
  {
    if r.drop < 0.2 then Some(KindOfRoll(r.kind)) else None
  }
}
