/** Damage formulas and the fixed timing and damage constants of the game. */
module Combat {

  /** A distance between two entities (a Euclidean length, so never negative). */
  type Distance = d: real | d >= 0.0

  const RegenDelay: int := 5000        // ms without a hit before health regenerates
  const RegenRate: real := 0.5         // health regained per tick
  const ShieldDuration: int := 2000    // ms of invulnerability from a shield pickup
  const MaxSpecialCharge: int := 100
  const ChargePerKill: int := 10
  const MinFireRate: int := 50         // floor of the fire-rate pickup
  const BulletLifetime: int := 2000 // ms a bullet lives
  const MissileLifetime: int := 5000   // ms a missile lives
  const MissileDamage: int := 50
  const BombArmDelay: int := 500       // ms after release before a bomb arms
  const BombDamage: real := 30.0
  const BlastRadius: real := 100.0
  const ContactDamageToPlayer: real := 20.0
  const ContactDamageToEnemy: int := 50
  const SpawnInterval: int := 60       // ticks between two spawns

  /** Damage the player takes from a hit of `amount` through armor `armor`:
      the armor is subtracted, but every hit costs at least 1. */
  function ArmoredDamage(amount: real, armor: int): (d: real)
    ensures d >= 1.0 && d >= amount - armor as real
    ensures d == 1.0 || d == amount - armor as real
    ensures amount - armor as real <= 1.0 <==> d == 1.0
  {
    if amount - armor as real > 1.0 then amount - armor as real else 1.0
  }

  /** Damage of a bomb detonating at `dist` from the player: full damage at the
      centre, falling linearly to nothing at the blast radius and beyond. */
  function BlastDamage(dist: Distance): (d: real)
    ensures 0.0 <= d <= BombDamage
    ensures d == 0.0 <==> dist >= BlastRadius
  {
    if dist < BlastRadius then BombDamage * (1.0 - dist / BlastRadius) else 0.0
  }

  lemma BlastDamageRange(dist: Distance)
    ensures 0.0 <= BlastDamage(dist) <= BombDamage
    ensures BlastDamage(dist) == 0.0 <==> dist >= BlastRadius
    ensures dist == 0.0 ==> BlastDamage(dist) == BombDamage
  {
  }

  /** Farther detonations never hurt more. */
  lemma BlastDamageFalls(a: Distance, b: Distance)
    requires a <= b
    ensures BlastDamage(b) <= BlastDamage(a)
  {
  }
}
