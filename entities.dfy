/** The game's records as values: the screens, the entities kept in the live
    arrays (each with an `id` standing for its object identity), the player's
    gameplay fields, and the whole simulation state. Also the rules that only
    touch the player's own fields. Positions, velocities and angles are not
    part of the model. */
module Entities {
  import opened Wrappers
  import opened Upgrades
  import opened Archetypes
  import opened Loot
  import opened Combat

  datatype GameState = Menu | Hangar | Playing | WaveComplete | GameOver

  datatype Bullet = Bullet(id: int, isPlayer: bool, damage: int, created: int)

  /** A homing missile; `target` is a weak reference (the id of an enemy that
      may since have died). Every missile does `MissileDamage`. */
  datatype Missile = Missile(id: int, target: Option<int>, created: int)

  datatype Bomb = Bomb(id: int, armed: bool, armTime: int)

  /** An enemy's type never changes; only its health and its last shot time do. */
  datatype Enemy = Enemy(id: int, kind: Archetype, health: int, lastFired: int)

  datatype Pickup = Pickup(id: int, kind: PickupKind)

  /** The fields of the `Player` object that gameplay reads or writes. */
  datatype PlayerState = PlayerState(
    health: real, maxHealth: int, armor: int, speed: real, fireRate: int, damage: int,
    lastFired: int, isFiring: bool, specialCharge: int, lastHit: int,
    invulnerable: bool, invulnerableTime: int)

  /** Everything the game keeps in its globals: the `game` record, the upgrade
      levels, the player (absent before the first game), the live arrays, the
      spawn quota and the spawn timer. `nextId` hands out entity identities. */
  datatype World = World(
    state: GameState, wave: int, credits: nat, kills: nat, waveKills: nat,
    ledger: Ledger, player: Option<PlayerState>,
    enemies: seq<Enemy>, bullets: seq<Bullet>, missiles: seq<Missile>,
    bombs: seq<Bomb>, pickups: seq<Pickup>,
    enemiesToSpawn: int, spawnTimer: int, nextId: int)

  /** The state when the page has loaded: main menu, wave 1, no credits, no player. */
  function InitialWorld(): World {
    World(Menu, 1, 0, 0, 0, InitialLedger(), None, [], [], [], [], [], 0, 0, 0)
  }

  /** The identities of the enemies in a list. */
  function EnemyIds(es: seq<Enemy>): set<int> {
    set e | e in es :: e.id
  }

  function MinReal(a: real, b: real): real { if a <= b then a else b }
  function MaxInt(a: int, b: int): int { if a >= b then a else b }
  function MinInt(a: int, b: int): int { if a <= b then a else b }

  // ---------------------------------------------------------------------------
  // Rules on the player's own fields.

  /** `new Player()`: stats from the upgrade levels, full health, no charge. */
  function NewPlayer(l: Ledger): (r: PlayerState)
    ensures PlayerOk(r) && r.health == r.maxHealth as real
    ensures r.specialCharge == 0 && !r.invulnerable && !r.isFiring
  {
    var mh := MaxHealthAt(l.maxHealth);
    PlayerState(mh as real, mh, ArmorAt(l.armor), SpeedAt(l.speed), FireRateAt(l.fireRate),
                DamageAt(l.damage), 0, false, 0, 0, false, 0)
  }

  /** The reset `startGame` applies to an existing player: stats from the
      levels, full health, no charge; timers and the shield are kept. */
  function ResetStats(p: PlayerState, l: Ledger): (r: PlayerState)
    ensures PlayerOk(r) && r.health == r.maxHealth as real && r.specialCharge == 0
    ensures r.lastFired == p.lastFired && r.lastHit == p.lastHit && r.isFiring == p.isFiring
    ensures r.invulnerable == p.invulnerable && r.invulnerableTime == p.invulnerableTime
  {
    var mh := MaxHealthAt(l.maxHealth);
    p.(maxHealth := mh, health := mh as real, armor := ArmorAt(l.armor), speed := SpeedAt(l.speed),
       fireRate := FireRateAt(l.fireRate), damage := DamageAt(l.damage), specialCharge := 0)
  }

  /** What a successful purchase of kind k does to an existing player (the
      hangar button handlers); a missile purchase changes no player field. */
  function ApplyUpgrade(p: PlayerState, k: UpgradeKind, l: Ledger): (r: PlayerState)
    ensures PlayerOk(p) ==> PlayerOk(r)
    ensures r == p.(maxHealth := r.maxHealth, health := r.health, armor := r.armor, speed := r.speed,
                    fireRate := r.fireRate, damage := r.damage)
    ensures k == Missiles ==> r == p
  {
    match k
    case MaxHealth => p.(maxHealth := MaxHealthAt(l.maxHealth), health := MaxHealthAt(l.maxHealth) as real)
    case Armor => p.(armor := ArmorAt(l.armor))
    case Speed => p.(speed := SpeedAt(l.speed))
    case FireRate => p.(fireRate := FireRateAt(l.fireRate))
    case Damage => p.(damage := DamageAt(l.damage))
    case Missiles => p
  }

  /** Whether `takeDamage` brings the player to 0 (and so to game over). */
  predicate HurtKills(p: PlayerState, amount: real) {
    !p.invulnerable && p.health - ArmoredDamage(amount, p.armor) <= 0.0
  }

  /** `Player.takeDamage` on the player's fields. */
  function Hurt(p: PlayerState, amount: real, now: int): (r: PlayerState)
    ensures p.invulnerable ==> r == p
    ensures !p.invulnerable ==> r.health < p.health || r.health == 0.0
    ensures p.health >= 0.0 ==> 0.0 <= r.health <= p.health
    ensures r == p.(health := r.health, lastHit := r.lastHit)
  {
    if p.invulnerable then p
    else
      var h := p.health - ArmoredDamage(amount, p.armor);
      p.(health := if h <= 0.0 then 0.0 else h, lastHit := now)
  }

  /** The timer part of `Player.update`: regeneration once no hit has landed
      for more than `RegenDelay`, then expiry of the shield. */
  function Timers(p: PlayerState, now: int): (r: PlayerState)
    ensures p.health <= p.maxHealth as real ==> p.health <= r.health <= p.maxHealth as real
    ensures r.invulnerable ==> p.invulnerable
    ensures r == p.(health := r.health, invulnerable := r.invulnerable)
  {
    var p1 := if now - p.lastHit > RegenDelay
              then p.(health := MinReal(p.health + RegenRate, p.maxHealth as real)) else p;
    if p1.invulnerable && now - p1.invulnerableTime > ShieldDuration
    then p1.(invulnerable := false) else p1
  }

  /** The gun's cooldown has run out. */
  predicate CanFire(p: PlayerState, now: int) {
    !(now - p.lastFired < p.fireRate)
  }

  /** `Pickup.collect` on the player's fields. The rapid-fire pickup's revert
      after ten seconds is a detached timer and not part of this rule. */
  function Collect(p: PlayerState, k: PickupKind, now: int): (r: PlayerState)
    ensures PlayerOk(p) ==> PlayerOk(r)
    ensures k != Health ==> r.health == p.health
  {
    match k
    case Health => p.(health := MinReal(p.health + p.maxHealth as real * 0.25, p.maxHealth as real))
    case ArmorPlate => p.(armor := p.armor + 5)
    case RapidFire => p.(fireRate := MaxInt(MinFireRate, p.fireRate - 20))
    case Shield => p.(invulnerable := true, invulnerableTime := now)
  }

  /** What every rule keeps true of the player: health between 0 and the
      maximum, special charge between 0 and 100. */
  predicate PlayerOk(p: PlayerState) {
    0 <= p.maxHealth && 0.0 <= p.health <= p.maxHealth as real &&
    0 <= p.specialCharge <= MaxSpecialCharge
  }

  /** Each player rule keeps `PlayerOk`; a new or reset player satisfies it. */
  lemma PlayerRulesKeepOk(p: PlayerState, l: Ledger, k: UpgradeKind, pk: PickupKind, amount: real, now: int)
    ensures PlayerOk(NewPlayer(l)) && PlayerOk(ResetStats(p, l))
    ensures PlayerOk(p) ==>
      PlayerOk(ApplyUpgrade(p, k, l)) && PlayerOk(Hurt(p, amount, now)) &&
      PlayerOk(Timers(p, now)) && PlayerOk(Collect(p, pk, now))
  {
  }

  // ---------------------------------------------------------------------------
  // Facts about the player rules.

  /** A fresh player and a reset player have the stats the levels dictate. */
  lemma StatsFollowLevels(p: PlayerState, l: Ledger)
    ensures var q := NewPlayer(l);
      q.maxHealth == 100 * l.maxHealth && q.health == q.maxHealth as real &&
      q.armor == 10 * l.armor && q.speed == 3.0 + 0.5 * l.speed as real &&
      q.fireRate == 150 - 10 * l.fireRate && q.damage == 10 * l.damage &&
      q.specialCharge == 0 && !q.invulnerable
    ensures var q := ResetStats(p, l);
      q.maxHealth == 100 * l.maxHealth && q.health == q.maxHealth as real &&
      q.armor == 10 * l.armor && q.speed == 3.0 + 0.5 * l.speed as real &&
      q.fireRate == 150 - 10 * l.fireRate && q.damage == 10 * l.damage &&
      q.specialCharge == 0 &&
      q.lastFired == p.lastFired && q.lastHit == p.lastHit && q.invulnerable == p.invulnerable &&
      q.invulnerableTime == p.invulnerableTime && q.isFiring == p.isFiring
  {
  }

  /** `takeDamage`: a shielded player is untouched; otherwise health falls by
      exactly max(1, amount - armor), stopping at 0, the hit time is recorded,
      and nothing else changes. The hit is fatal exactly when health ends at 0. */
  lemma HurtEffect(p: PlayerState, amount: real, now: int)
    ensures p.invulnerable ==> Hurt(p, amount, now) == p && !HurtKills(p, amount)
    ensures !p.invulnerable ==>
      var d := ArmoredDamage(amount, p.armor);
      var q := Hurt(p, amount, now);
      q == p.(health := q.health, lastHit := now) &&
      (q.health == p.health - d || (q.health == 0.0 && p.health - d <= 0.0)) &&
      q.health >= 0.0 && (q.health <= p.health - 1.0 || q.health == 0.0) &&
      (HurtKills(p, amount) <==> q.health == 0.0)
  {
  }

  /** Armor cannot make a hit free: with 10 armor a 5-damage hit still costs 1. */
  lemma ArmorFloorExample(p: PlayerState, now: int)
    requires !p.invulnerable && p.armor == 10 && p.health > 1.0
    ensures Hurt(p, 5.0, now).health == p.health - 1.0
  {
  }

  /** Once more than `RegenDelay` has passed since the last hit, health
      regains `RegenRate` up to the maximum (and so does regenerate whenever it
      is below the maximum); before that it stays. The shield lasts exactly
      until more than `ShieldDuration` has passed since it was raised. */
  lemma TimersEffect(p: PlayerState, now: int)
    requires p.health <= p.maxHealth as real
    ensures var q := Timers(p, now);
      p.health <= q.health <= p.maxHealth as real &&
      (now - p.lastHit > RegenDelay ==> q.health == MinReal(p.health + RegenRate, p.maxHealth as real)) &&
      (now - p.lastHit > RegenDelay && p.health < p.maxHealth as real ==> q.health > p.health) &&
      (now - p.lastHit <= RegenDelay ==> q.health == p.health) &&
      (q.invulnerable <==> p.invulnerable && now - p.invulnerableTime <= ShieldDuration) &&
      q == p.(health := q.health, invulnerable := q.invulnerable)
  {
  }

  /** Pickups, each touching one field only: a health pickup heals a quarter
      of the maximum, stopping at the maximum; armor rises by 5; the fire
      interval shortens by 20 but not below 50; a shield is raised at `now`. */
  lemma CollectEffect(p: PlayerState, k: PickupKind, now: int)
    requires 0 <= p.maxHealth && p.health <= p.maxHealth as real
    ensures var q := Collect(p, k, now);
      p.health <= q.health <= p.maxHealth as real &&
      (k == Health ==>
        q == p.(health := MinReal(p.health + p.maxHealth as real * 0.25, p.maxHealth as real)) &&
        (q.health == p.maxHealth as real || q.health == p.health + p.maxHealth as real / 4.0)) &&
      (k == ArmorPlate ==> q == p.(armor := p.armor + 5)) &&
      (k == RapidFire ==>
        q == p.(fireRate := MaxInt(MinFireRate, p.fireRate - 20)) &&
        q.fireRate >= MinFireRate && (p.fireRate >= MinFireRate + 20 ==> q.fireRate == p.fireRate - 20)) &&
      (k == Shield ==> q == p.(invulnerable := true, invulnerableTime := now))
  {
  }

  /** The rapid-fire pickup lengthens the fire interval once the fire-rate
      upgrade has reached level 11 (an interval of 40 ms becomes 50 ms). */
  lemma RapidFireCanSlowTheGun(p: PlayerState, l: Ledger, now: int)
    requires l.fireRate >= 11 && p.fireRate == FireRateAt(l.fireRate)
    ensures Collect(p, RapidFire, now).fireRate > p.fireRate
  {
  }
}
