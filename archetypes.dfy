/** Enemy archetypes: the per-type stat table, the wave-banded choice of the
    type of a newly spawned enemy, and what one shot of each type releases. */
module Archetypes {

  datatype Archetype = Scout | Fighter | Bomber | Ace

  /** The constants an enemy takes from its type (colour is presentation only). */
  datatype Stats = Stats(maxHealth: nat, speed: real, size: nat, fireRate: nat, damage: nat, credits: nat)

  /** Every type has positive health, so a freshly spawned enemy is alive, a
      positive cooldown between shots, and pays credits when it dies. */
  function StatsOf(a: Archetype): (s: Stats)
    ensures s.maxHealth > 0 && s.fireRate > 0 && s.damage > 0 && s.credits > 0
  {
    match a
    case Scout => Stats(30, 2.0, 15, 1500, 5, 10)
    case Fighter => Stats(60, 2.5, 18, 800, 8, 25)
    case Bomber => Stats(150, 1.0, 25, 2000, 15, 50)
    case Ace => Stats(300, 3.0, 22, 500, 12, 100)
  }

  /** A sanity check of the table itself, not of any behaviour: it is strictly
      increasing in maximum health and in credit value along Scout, Fighter,
      Bomber, Ace. */
  lemma StrongerPaysMore()
    ensures StatsOf(Scout).maxHealth < StatsOf(Fighter).maxHealth < StatsOf(Bomber).maxHealth < StatsOf(Ace).maxHealth
    ensures StatsOf(Scout).credits < StatsOf(Fighter).credits < StatsOf(Bomber).credits < StatsOf(Ace).credits
  {
  }

  /** The type `spawnEnemy` picks for wave `wave` and random roll `roll`: it
      starts from a scout and lets each later band override the earlier one. */
  function Choose(wave: int, roll: real): (a: Archetype)
    ensures a == Ace <==> wave >= 8 && roll < 0.05
    ensures a == Bomber <==> wave >= 5 && roll < 0.15 && !(wave >= 8 && roll < 0.05)
    ensures a == Fighter <==> wave >= 3 && roll < 0.3 && !(wave >= 5 && roll < 0.15)
    ensures a == Scout <==> !(wave >= 3 && roll < 0.3)
  {
    var t0 := Scout;
    var t1 := if wave >= 3 && roll < 0.3 then Fighter else t0;
    var t2 := if wave >= 5 && roll < 0.15 then Bomber else t1;
    var t3 := if wave >= 8 && roll < 0.05 then Ace else t2;
    t3
  }

  /** The same choice written as a priority list, strongest band first. */
  function ChoosePriority(wave: int, roll: real): Archetype {
    if wave >= 8 && roll < 0.05 then Ace
    else if wave >= 5 && roll < 0.15 then Bomber
    else if wave >= 3 && roll < 0.3 then Fighter
    else Scout
  }

  lemma ChooseIsPriority(wave: int, roll: real)
    ensures Choose(wave, roll) == ChoosePriority(wave, roll)
  {
  }

  /** Waves 1 and 2 only ever spawn scouts; fighters need wave 3, bombers wave 5
      and aces wave 8. */
  lemma EarlyWaves(wave: int, roll: real)
    ensures wave < 3 ==> Choose(wave, roll) == Scout
    ensures Choose(wave, roll) == Fighter ==> wave >= 3
    ensures Choose(wave, roll) == Bomber ==> wave >= 5
    ensures Choose(wave, roll) == Ace ==> wave >= 8
  {
  }

  /** What one shot releases: a bomber drops a bomb, an ace fires three bullets,
      every other type fires one. */
  datatype Volley = DropBomb | Bullets(count: nat)

  function VolleyOf(a: Archetype): (v: Volley)
    ensures v.DropBomb? <==> a == Bomber
    ensures v.Bullets? ==> v.count == (if a == Ace then 3 else 1)
  {
    if a == Bomber then DropBomb
    else Bullets(if a == Ace then 3 else 1)
  }
}
