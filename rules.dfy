/** The game's rules over the whole state: the upgrade purchase, the player's
    weapons and damage, enemy fire and death, the wave director and the screen
    transitions. Each function is one function of the source; geometry, random
    rolls and the clock come in as parameters. */
module Rules {
  import opened Wrappers
  import opened Upgrades
  import opened Archetypes
  import opened Loot
  import opened Combat
  import opened Removal
  import opened Entities

  // ---------------------------------------------------------------------------
  // Upgrade economy.

  /** Price of the next level of kind k at the current levels (`getUpgradeCost`). */
  function PriceOf(w: World, k: UpgradeKind): nat {
    Cost(k, w.ledger.Level(k))
  }

  predicate Affordable(w: World, k: UpgradeKind) {
    w.credits >= PriceOf(w, k)
  }

  /** `upgradestat`: an affordable purchase pays the price and raises the level. */
  function UpgradeStat(w: World, k: UpgradeKind): (r: World)
    ensures r == w.(credits := r.credits, ledger := r.ledger) && r.credits <= w.credits
  {
    if Affordable(w, k) then w.(credits := w.credits - PriceOf(w, k), ledger := w.ledger.Bump(k))
    else w
  }

  /** A hangar upgrade button: the purchase, then on success the new stat is
      applied to the player if one exists. */
  function UpgradeButton(w: World, k: UpgradeKind): (r: World)
    ensures r == UpgradeStat(w, k).(player := r.player)
    ensures !Affordable(w, k) ==> r == w
    ensures r.player.Some? <==> w.player.Some?
  {
    var w1 := UpgradeStat(w, k);
    if Affordable(w, k) && w1.player.Some?
    then w1.(player := Some(ApplyUpgrade(w1.player.value, k, w1.ledger)))
    else w1
  }

  /** The purchase is atomic: it succeeds exactly when the credits cover the
      price; then the credits fall by exactly that price and stay non-negative,
      and only that kind's level rises, by exactly one. On failure nothing
      changes. Nothing but credits and levels is touched either way. */
  lemma UpgradeStatEffect(w: World, k: UpgradeKind)
    ensures var r := UpgradeStat(w, k);
      (Affordable(w, k) <==> w.credits >= PriceOf(w, k)) &&
      (Affordable(w, k) ==>
        r.credits == w.credits - PriceOf(w, k) && r.credits >= 0 &&
        r.ledger.Level(k) == w.ledger.Level(k) + 1 &&
        (forall j :: j != k ==> r.ledger.Level(j) == w.ledger.Level(j))) &&
      (!Affordable(w, k) ==> r == w) &&
      r == w.(credits := r.credits, ledger := r.ledger)
  {
  }

  /** Buying with exactly the price leaves 0 credits; a second try at 0 credits
      fails and changes nothing (every price is at least 100). */
  lemma ExactCreditsPurchase(w: World, k: UpgradeKind)
    requires w.credits == PriceOf(w, k)
    ensures UpgradeStat(w, k).credits == 0
    ensures UpgradeStat(w, k).ledger.Level(k) == w.ledger.Level(k) + 1
    ensures UpgradeStat(UpgradeStat(w, k), k) == UpgradeStat(w, k)
  {
    var w1 := UpgradeStat(w, k);
    var l := w.ledger.Level(k);
    CostMonotone(k, StartLevel(k), l + 1);
    StartingCosts();
    assert PriceOf(w1, k) == Cost(k, l + 1);
    assert Cost(k, l + 1) >= 100;
  }

  /** A button press is the purchase plus, on success and with a player, the
      new stat: an unaffordable press changes nothing, the rest of the world is
      what the purchase leaves, and of the player only the bought stat changes
      (health is refilled with a maximum-health upgrade). */
  lemma UpgradeButtonEffect(w: World, k: UpgradeKind)
    ensures var r := UpgradeButton(w, k);
      r == UpgradeStat(w, k).(player := r.player) &&
      (!Affordable(w, k) ==> r == w) &&
      (w.player.None? ==> r.player.None?)
    ensures var r := UpgradeButton(w, k);
      Affordable(w, k) && w.player.Some? ==>
        var q := w.player.value; var l := r.ledger;
        r.player.Some? && l == w.ledger.Bump(k) &&
        (k == MaxHealth ==> r.player.value == q.(maxHealth := MaxHealthAt(l.maxHealth), health := MaxHealthAt(l.maxHealth) as real)) &&
        (k == Armor ==> r.player.value == q.(armor := ArmorAt(l.armor))) &&
        (k == Speed ==> r.player.value == q.(speed := SpeedAt(l.speed))) &&
        (k == FireRate ==> r.player.value == q.(fireRate := FireRateAt(l.fireRate))) &&
        (k == Damage ==> r.player.value == q.(damage := DamageAt(l.damage))) &&
        (k == Missiles ==> r.player.value == q)
  {
    UpgradeStatEffect(w, k);
  }

  // ---------------------------------------------------------------------------
  // The player.

  /** `player.takeDamage(amount)`, including the switch to game over. */
  function HitPlayer(w: World, amount: real, now: int): (r: World)
    requires w.player.Some?
    ensures r.player.Some? && r.enemies == w.enemies && r.bullets == w.bullets
    ensures r.missiles == w.missiles && r.bombs == w.bombs && r.pickups == w.pickups
    ensures PlayerOk(w.player.value) ==> PlayerOk(r.player.value)
  {
    var p := w.player.value;
    w.(player := Some(Hurt(p, amount, now)),
       state := if HurtKills(p, amount) then GameOver else w.state)
  }

  /** Health reaching 0 means game over; a shielded player is not affected at all. */
  lemma HitPlayerEffect(w: World, amount: real, now: int)
    requires w.player.Some?
    ensures var r := HitPlayer(w, amount, now);
      (w.player.value.invulnerable ==> r == w) &&
      (r.player.value.health == 0.0 && !w.player.value.invulnerable ==> r.state == GameOver) &&
      (r.state != w.state ==> r.state == GameOver) &&
      r == w.(player := r.player, state := r.state)
  {
  }

  /** `Player.fire`: nothing while the cooldown runs; otherwise the shot time is
      recorded and two player bullets with the player's damage are added. */
  function PlayerFire(w: World, now: int): (r: World)
    requires w.player.Some?
    ensures r.player.Some? && r.enemies == w.enemies && r.pickups == w.pickups && r.bombs == w.bombs
    ensures PlayerOk(w.player.value) ==> PlayerOk(r.player.value)
  {
    var p := w.player.value;
    if !CanFire(p, now) then w
    else w.(player := Some(p.(lastFired := now)),
            bullets := w.bullets + [Bullet(w.nextId, true, p.damage, now), Bullet(w.nextId + 1, true, p.damage, now)],
            nextId := w.nextId + 2)
  }

  lemma PlayerFireEffect(w: World, now: int)
    requires w.player.Some?
    ensures var p := w.player.value; var r := PlayerFire(w, now);
      (now - p.lastFired < p.fireRate ==> r == w) &&
      (now - p.lastFired >= p.fireRate ==>
        r.player == Some(p.(lastFired := now)) &&
        |r.bullets| == |w.bullets| + 2 && r.bullets[..|w.bullets|] == w.bullets &&
        (forall b :: b in r.bullets[|w.bullets|..] ==> b.isPlayer && b.damage == p.damage) &&
        r == w.(player := r.player, bullets := r.bullets, nextId := r.nextId))
  {
    var r := PlayerFire(w, now);
    if now - w.player.value.lastFired >= w.player.value.fireRate {
      assert r.bullets[|w.bullets|..] == [Bullet(w.nextId, true, w.player.value.damage, now), Bullet(w.nextId + 1, true, w.player.value.damage, now)];
    }
  }

  /** The timer part of `Player.update`, then a shot if the trigger is held. */
  function PlayerUpdate(w: World, now: int): (r: World)
    requires w.player.Some?
    ensures r.player.Some? && r.enemies == w.enemies && r.pickups == w.pickups && r.bombs == w.bombs
    ensures PlayerOk(w.player.value) ==> PlayerOk(r.player.value)
  {
    var w1 := w.(player := Some(Timers(w.player.value, now)));
    if w1.player.value.isFiring then PlayerFire(w1, now) else w1
  }

  /** Distance from the player to an enemy, looked up by its identity. */
  function EnemyDistance(dist: int -> Distance): Enemy -> real {
    (e: Enemy) => dist(e.id) as real
  }

  /** The id of the enemy `fireSpecial` aims at: the first nearest one, or none. */
  function SpecialTarget(enemies: seq<Enemy>, dist: int -> Distance): Option<int> {
    match Nearest(enemies, EnemyDistance(dist))
    case None => None
    case Some(i) => Some(enemies[i].id)
  }

  /** `count` missiles with consecutive ids aimed at `target`. */
  function Salvo(firstId: int, count: nat, target: Option<int>, now: int): (s: seq<Missile>)
    ensures |s| == count
  {
    seq(count, i => Missile(firstId + i, target, now))
  }

  /** `Player.fireSpecial`: needs a full charge and an unlocked missile level;
      empties the charge and fires 2 + level missiles at the nearest enemy. */
  function FireSpecial(w: World, now: int, dist: int -> Distance): (r: World)
    requires w.player.Some?
    ensures r.player.Some?
    ensures PlayerOk(w.player.value) ==> PlayerOk(r.player.value)
  {
    var p := w.player.value;
    if p.specialCharge < MaxSpecialCharge then w
    else if w.ledger.missiles == 0 then w
    else
      var count := 2 + w.ledger.missiles;
      w.(player := Some(p.(specialCharge := 0)),
         missiles := w.missiles + Salvo(w.nextId, count, SpecialTarget(w.enemies, dist), now),
         nextId := w.nextId + count)
  }

  lemma FireSpecialEffect(w: World, now: int, dist: int -> Distance)
    requires w.player.Some?
    ensures var p := w.player.value; var r := FireSpecial(w, now, dist);
      (p.specialCharge < MaxSpecialCharge || w.ledger.missiles == 0 ==> r == w) &&
      (p.specialCharge >= MaxSpecialCharge && w.ledger.missiles > 0 ==>
        r.player.value == p.(specialCharge := 0) &&
        |r.missiles| == |w.missiles| + 2 + w.ledger.missiles &&
        r.missiles[..|w.missiles|] == w.missiles &&
        r.nextId == w.nextId + 2 + w.ledger.missiles &&
        r == w.(player := r.player, missiles := r.missiles, nextId := r.nextId) &&
        (forall m :: m in r.missiles[|w.missiles|..] ==>
           (w.enemies == [] ==> m.target == None) &&
           (w.enemies != [] ==> exists i: nat :: IsFirstNearest(w.enemies, EnemyDistance(dist), i) &&
                                            m.target == Some(w.enemies[i].id))))
  {
    var p := w.player.value;
    var r := FireSpecial(w, now, dist);
    if p.specialCharge >= MaxSpecialCharge && w.ledger.missiles > 0 {
      var t := SpecialTarget(w.enemies, dist);
      assert r.missiles[|w.missiles|..] == Salvo(w.nextId, 2 + w.ledger.missiles, t, now);
      forall m | m in r.missiles[|w.missiles|..]
        ensures (w.enemies == [] ==> m.target == None) &&
                (w.enemies != [] ==> exists i: nat :: IsFirstNearest(w.enemies, EnemyDistance(dist), i) &&
                                                 m.target == Some(w.enemies[i].id))
      {
        assert m.target == t;
        if w.enemies != [] {
          var i := Nearest(w.enemies, EnemyDistance(dist)).value;
          assert IsFirstNearest(w.enemies, EnemyDistance(dist), i);
        }
      }
    }
  }

  // ---------------------------------------------------------------------------
  // Enemies.

  /** `Enemy.fire` for the enemy at index k: nothing while its cooldown runs;
      otherwise a bomber drops one bomb and the others add 1 bullet, or 3 for an ace. */
  function EnemyFire(w: World, k: nat, now: int): (r: World)
    requires k < |w.enemies|
    ensures |r.enemies| == |w.enemies| && r.player == w.player && r.pickups == w.pickups
  {
    var e := w.enemies[k];
    var st := StatsOf(e.kind);
    if now - e.lastFired < st.fireRate then w
    else
      var w1 := w.(enemies := w.enemies[k := e.(lastFired := now)]);
      match VolleyOf(e.kind)
      case DropBomb =>
        w1.(bombs := w.bombs + [Bomb(w.nextId, false, now + BombArmDelay)], nextId := w.nextId + 1)
      case Bullets(n) =>
        w1.(bullets := w.bullets + Shots(w.nextId, n, st.damage, now), nextId := w.nextId + n)
  }

  /** `count` enemy bullets with consecutive ids and the enemy's damage. */
  function Shots(firstId: int, count: nat, damage: int, now: int): (s: seq<Bullet>)
    ensures |s| == count
    ensures forall b :: b in s ==> !b.isPlayer && b.damage == damage
  {
    seq(count, i => Bullet(firstId + i, false, damage, now))
  }

  lemma EnemyFireEffect(w: World, k: nat, now: int)
    requires k < |w.enemies|
    ensures var e := w.enemies[k]; var r := EnemyFire(w, k, now);
      (now - e.lastFired < StatsOf(e.kind).fireRate ==> r == w) &&
      (now - e.lastFired >= StatsOf(e.kind).fireRate ==>
        r.enemies == w.enemies[k := e.(lastFired := now)] &&
        (e.kind == Bomber ==> r.bullets == w.bullets && |r.bombs| == |w.bombs| + 1 &&
                              r.bombs[..|w.bombs|] == w.bombs && !r.bombs[|w.bombs|].armed &&
                              r.bombs[|w.bombs|].armTime == now + BombArmDelay) &&
        (e.kind != Bomber ==> r.bombs == w.bombs &&
                              |r.bullets| == |w.bullets| + (if e.kind == Ace then 3 else 1) &&
                              r.bullets[..|w.bullets|] == w.bullets &&
                              (forall b :: b in r.bullets[|w.bullets|..] ==>
                                 !b.isPlayer && b.damage == StatsOf(e.kind).damage)))
  {
  }

  /** `Enemy.die` for the enemy at index k: its credits are paid, both kill
      counters rise, the special charge gains 10 up to 100, a pickup may drop,
      and the enemy leaves the list. */
  function Die(w: World, k: nat, loot: int -> LootRoll): (r: World)
    requires k < |w.enemies| && w.player.Some?
    ensures r.player.Some? && r.bullets == w.bullets && r.missiles == w.missiles && r.bombs == w.bombs
    ensures r.enemies == RemoveAt(w.enemies, k)
    ensures r.waveKills + |r.enemies| == w.waveKills + |w.enemies|
    ensures r.state == w.state && r.wave == w.wave && r.enemiesToSpawn == w.enemiesToSpawn
    ensures PlayerOk(w.player.value) ==> PlayerOk(r.player.value)
  {
    var e := w.enemies[k];
    var p := w.player.value;
    var drop := DropOf(loot(e.id));
    w.(credits := w.credits + StatsOf(e.kind).credits,
       kills := w.kills + 1, waveKills := w.waveKills + 1,
       player := Some(p.(specialCharge := MinInt(p.specialCharge + ChargePerKill, MaxSpecialCharge))),
       pickups := if drop.Some? then w.pickups + [Pickup(w.nextId, drop.value)] else w.pickups,
       nextId := if drop.Some? then w.nextId + 1 else w.nextId,
       enemies := RemoveAt(w.enemies, k))
  }

  /** `Enemy.takeDamage` for the enemy at index k, with `die` when its health
      reaches 0. */
  function EnemyHit(w: World, k: nat, amount: int, loot: int -> LootRoll): (r: World)
    requires k < |w.enemies| && w.player.Some?
    ensures r.player.Some? && r.bullets == w.bullets && r.missiles == w.missiles && r.bombs == w.bombs
    ensures r.player.value == w.player.value.(specialCharge := r.player.value.specialCharge)
    ensures EnemyIds(r.enemies) <= EnemyIds(w.enemies)
    ensures r.waveKills + |r.enemies| == w.waveKills + |w.enemies|
    ensures r.state == w.state && r.wave == w.wave && r.enemiesToSpawn == w.enemiesToSpawn
    ensures PlayerOk(w.player.value) ==> PlayerOk(r.player.value)
  {
    var e := w.enemies[k].(health := w.enemies[k].health - amount);
    var w1 := w.(enemies := w.enemies[k := e]);
    if e.health <= 0 then Die(w1, k, loot) else w1
  }

  /** The enemy at index k loses exactly `amount`; if that leaves it at 0 or
      below it is removed (the others keep their order) and its kill is booked;
      no other enemy changes. */
  lemma EnemyHitEffect(w: World, k: nat, amount: int, loot: int -> LootRoll)
    requires k < |w.enemies| && w.player.Some?
    ensures var e := w.enemies[k]; var r := EnemyHit(w, k, amount, loot);
      (e.health - amount > 0 ==>
        r == w.(enemies := w.enemies[k := e.(health := e.health - amount)])) &&
      (e.health - amount <= 0 ==>
        r.enemies == w.enemies[..k] + w.enemies[k + 1..] &&
        r.credits == w.credits + StatsOf(e.kind).credits &&
        r.kills == w.kills + 1 && r.waveKills == w.waveKills + 1 &&
        r.player.value.specialCharge == MinInt(w.player.value.specialCharge + 10, 100) &&
        r.state == w.state && r.enemiesToSpawn == w.enemiesToSpawn &&
        |r.pickups| <= |w.pickups| + 1 && r.pickups[..|w.pickups|] == w.pickups)
  {
  }

  /** The special charge stays within [0, 100] through any kill. */
  lemma DieKeepsChargeInRange(w: World, k: nat, loot: int -> LootRoll)
    requires k < |w.enemies| && w.player.Some?
    requires 0 <= w.player.value.specialCharge <= MaxSpecialCharge
    ensures 0 <= Die(w, k, loot).player.value.specialCharge <= MaxSpecialCharge
  {
  }

  // ---------------------------------------------------------------------------
  // Wave director.

  /** `startWave`: the per-wave kill counter and spawn timer restart and the
      quota becomes 5 + 3 * wave. */
  function StartWave(w: World): (r: World)
    ensures r.player == w.player && r.enemies == w.enemies && r.state == w.state
  {
    w.(waveKills := 0, spawnTimer := 0, enemiesToSpawn := 5 + w.wave * 3)
  }

  /** `spawnEnemy`: while the quota is positive, one enemy of the wave's
      banded type joins the list at full health and the quota falls by one. */
  function SpawnEnemy(w: World, roll: real): (r: World)
    ensures r.player == w.player && r.waveKills == w.waveKills && r.spawnTimer == w.spawnTimer
    ensures r.enemiesToSpawn + |r.enemies| == w.enemiesToSpawn + |w.enemies|
    ensures |w.enemies| <= |r.enemies| <= |w.enemies| + 1 && r.enemies[..|w.enemies|] == w.enemies
  {
    if w.enemiesToSpawn <= 0 then w
    else
      var a := Choose(w.wave, roll);
      w.(enemies := w.enemies + [Enemy(w.nextId, a, StatsOf(a).maxHealth, 0)],
         nextId := w.nextId + 1,
         enemiesToSpawn := w.enemiesToSpawn - 1)
  }

  /** The spawn cadence of the game loop: one spawn attempt every 60th tick. */
  function SpawnTick(w: World, roll: real): (r: World)
    ensures r.player == w.player && r.spawnTimer == w.spawnTimer + 1
    ensures r.spawnTimer % SpawnInterval != 0 ==> r == w.(spawnTimer := r.spawnTimer)
  {
    var w1 := w.(spawnTimer := w.spawnTimer + 1);
    if w1.spawnTimer % SpawnInterval == 0 then SpawnEnemy(w1, roll) else w1
  }

  /** `n` consecutive spawn ticks; the i-th one draws the spawn roll `rolls(i)`. */
  function SpawnTicks(w: World, n: nat, rolls: nat -> real): World
    decreases n
  {
    if n == 0 then w else SpawnTick(SpawnTicks(w, n - 1, rolls), rolls(n - 1))
  }

  lemma DueStep(t: int)
    requires t >= 0
    ensures (t + 1) / SpawnInterval == t / SpawnInterval + (if (t + 1) % SpawnInterval == 0 then 1 else 0)
  {
  }

  /** Spawning runs once a second: over `n` ticks an enemy spawns at every tick
      that brings the timer to a multiple of 60, until the quota runs out. The
      quota falls by the number of spawns, the enemy list grows by the same
      number, and the enemies already alive stay in front. */
  lemma {:induction false} SpawnCadence(w: World, n: nat, rolls: nat -> real)
    requires w.spawnTimer >= 0 && w.enemiesToSpawn >= 0
    ensures var r := SpawnTicks(w, n, rolls);
      var spawned := MinInt((w.spawnTimer + n) / SpawnInterval - w.spawnTimer / SpawnInterval, w.enemiesToSpawn);
      r.spawnTimer == w.spawnTimer + n &&
      r.enemiesToSpawn == w.enemiesToSpawn - spawned &&
      |r.enemies| == |w.enemies| + spawned && r.enemies[..|w.enemies|] == w.enemies &&
      r.player == w.player && r.waveKills == w.waveKills
    decreases n
  {
    if n > 0 {
      SpawnCadence(w, n - 1, rolls);
      var r1 := SpawnTicks(w, n - 1, rolls);
      var t := w.spawnTimer + n - 1;
      DueStep(t);
      assert t / SpawnInterval >= w.spawnTimer / SpawnInterval;
      var r := SpawnTick(r1, rolls(n - 1));
      assert r.enemies[..|r1.enemies|] == r1.enemies;
      assert r.enemies[..|w.enemies|] == r1.enemies[..|w.enemies|];
    }
  }

  /** From a fresh wave (timer 0), `n` ticks spawn exactly min(n / 60, quota) enemies. */
  lemma SpawnsPerSecond(w: World, n: nat, rolls: nat -> real)
    requires w.spawnTimer == 0 && w.enemiesToSpawn >= 0
    ensures var r := SpawnTicks(w, n, rolls);
      r.enemiesToSpawn == w.enemiesToSpawn - MinInt(n / SpawnInterval, w.enemiesToSpawn) &&
      |r.enemies| == |w.enemies| + MinInt(n / SpawnInterval, w.enemiesToSpawn)
  {
    SpawnCadence(w, n, rolls);
  }

  /** `checkWaveComplete`: the wave ends exactly when nothing is left to spawn
      and no enemy is alive. The current screen is not consulted. */
  function CheckWaveComplete(w: World): (r: World)
    ensures r == w.(state := r.state)
  {
    if w.enemiesToSpawn == 0 && |w.enemies| == 0 then w.(state := WaveComplete) else w
  }

  /** `startWave` clears the wave's kills, restarts the spawn timer and sets
      the quota from the wave number; nothing else changes. */
  lemma StartWaveEffect(w: World)
    ensures StartWave(w).waveKills == 0 && StartWave(w).enemiesToSpawn == 5 + 3 * w.wave
    ensures StartWave(w) == w.(waveKills := 0, spawnTimer := 0, enemiesToSpawn := 5 + 3 * w.wave)
    ensures w.wave >= 1 ==> StartWave(w).enemiesToSpawn >= 8
  {
  }

  /** A spawn is a no-op on an exhausted quota; otherwise exactly one enemy of
      the chosen type, at full health, is appended and the quota drops by one.
      So a non-negative quota never goes negative. */
  lemma SpawnEnemyEffect(w: World, roll: real)
    ensures var r := SpawnEnemy(w, roll);
      (w.enemiesToSpawn <= 0 ==> r == w) &&
      (w.enemiesToSpawn > 0 ==>
        r.enemiesToSpawn == w.enemiesToSpawn - 1 &&
        |r.enemies| == |w.enemies| + 1 && r.enemies[..|w.enemies|] == w.enemies &&
        r.enemies[|w.enemies|].kind == Choose(w.wave, roll) &&
        r.enemies[|w.enemies|].health == StatsOf(Choose(w.wave, roll)).maxHealth) &&
      (w.enemiesToSpawn >= 0 ==> r.enemiesToSpawn >= 0)
  {
    var r := SpawnEnemy(w, roll);
    if w.enemiesToSpawn > 0 {
      assert r.enemies[..|w.enemies|] == w.enemies;
    }
  }

  lemma CheckWaveCompleteEffect(w: World)
    ensures CheckWaveComplete(w).state == WaveComplete <==>
              (w.enemiesToSpawn == 0 && |w.enemies| == 0) || w.state == WaveComplete
    ensures CheckWaveComplete(w) == w.(state := CheckWaveComplete(w).state)
  {
  }

  /** The level-triggered check ignores the screen: a player killed in the same
      tick in which the last enemy died still gets the wave-complete screen. */
  lemma DeadPlayerCanCompleteWave(w: World)
    requires w.state == GameOver && w.enemiesToSpawn == 0 && w.enemies == []
    requires w.player.Some? && w.player.value.health == 0.0
    ensures CheckWaveComplete(w).state == WaveComplete
  {
  }

  // ---------------------------------------------------------------------------
  // Screen transitions.

  /** `startGame`: play begins; the player is created, or its stats are reset
      from the levels; all live arrays are emptied; a wave starts. Credits, the
      wave number and the kill total carry over. */
  function StartGame(w: World): (r: World)
    ensures r.player.Some?
  {
    StartWave(w.(state := Playing, player := Some(StartingPlayer(w)),
                 enemies := [], bullets := [], missiles := [], bombs := [], pickups := []))
  }

  /** The player a new game starts with: created on the first game, reset
      from the levels after that. */
  function StartingPlayer(w: World): PlayerState {
    if w.player.None? then NewPlayer(w.ledger) else ResetStats(w.player.value, w.ledger)
  }

  /** `gameOver`, `returnToMenu` and `openHangar` switch the screen and touch
      nothing else: the player, the arrays and the accounting stay. */
  function EndGame(w: World): (r: World)
    ensures r.state == GameOver && r == w.(state := r.state)
  {
    w.(state := GameOver)
  }

  function ReturnToMenu(w: World): (r: World)
    ensures r.state == Menu && r == w.(state := r.state)
  {
    w.(state := Menu)
  }

  function OpenHangar(w: World): (r: World)
    ensures r.state == Hangar && r == w.(state := r.state)
  {
    w.(state := Hangar)
  }

  /** `nextWave`: the wave number rises and the next wave starts; entities
      left over from the last wave stay. */
  function NextWave(w: World): (r: World)
    ensures r.wave == w.wave + 1 && r.state == Playing && r.enemies == w.enemies && r.player == w.player
  {
    StartWave(w.(wave := w.wave + 1, state := Playing))
  }

  /** `retry`: back to wave 1 with the kill total cleared, then `startGame`. */
  function Retry(w: World): (r: World)
    ensures r.wave == 1 && r.kills == 0 && r.state == Playing && r.enemies == [] && r.credits == w.credits
  {
    StartGame(w.(wave := 1, kills := 0))
  }

  lemma StartGameEffect(w: World)
    ensures var r := StartGame(w);
      r.state == Playing && r.enemies == [] && r.bullets == [] && r.missiles == [] &&
      r.bombs == [] && r.pickups == [] && r.waveKills == 0 &&
      r.enemiesToSpawn == 5 + 3 * w.wave &&
      r.credits == w.credits && r.wave == w.wave && r.kills == w.kills && r.ledger == w.ledger &&
      r.player.value.health == r.player.value.maxHealth as real &&
      r.player.value.maxHealth == MaxHealthAt(w.ledger.maxHealth) &&
      r.player.value.specialCharge == 0
    ensures var r := StartGame(w);
      r.spawnTimer == 0 &&
      r == w.(state := Playing, player := r.player, enemies := [], bullets := [], missiles := [],
              bombs := [], pickups := [], waveKills := 0, spawnTimer := 0,
              enemiesToSpawn := 5 + 3 * w.wave)
  {
  }

  lemma RetryEffect(w: World)
    ensures Retry(w).wave == 1 && Retry(w).kills == 0 && Retry(w).enemiesToSpawn == 8
    ensures Retry(w).state == Playing && Retry(w).credits == w.credits
    ensures Retry(w).spawnTimer == 0
  {
  }

  lemma NextWaveEffect(w: World)
    ensures var r := NextWave(w);
      r.wave == w.wave + 1 && r.state == Playing && r.enemiesToSpawn == 5 + 3 * (w.wave + 1) &&
      r.waveKills == 0 && r.enemies == w.enemies && r.bullets == w.bullets && r.credits == w.credits
    ensures NextWave(w).spawnTimer == 0
    ensures NextWave(w) == w.(wave := w.wave + 1, state := Playing, waveKills := 0, spawnTimer := 0,
                              enemiesToSpawn := 5 + 3 * (w.wave + 1))
  {
  }

  /** Every wave start restarts the spawn timer, so the once-a-second rate
      holds from the first frame of a wave: after `n` frames a new game has
      min(n / 60, 5 + 3·wave) enemies, and the next wave adds
      min(n / 60, 5 + 3·(wave + 1)) to those still alive. */
  lemma WaveStartSpawns(w: World, n: nat, rolls: nat -> real)
    requires w.wave >= 0
    ensures |SpawnTicks(StartGame(w), n, rolls).enemies| == MinInt(n / SpawnInterval, 5 + 3 * w.wave)
    ensures |SpawnTicks(NextWave(w), n, rolls).enemies| ==
            |w.enemies| + MinInt(n / SpawnInterval, 5 + 3 * (w.wave + 1))
    ensures |SpawnTicks(Retry(w), n, rolls).enemies| == MinInt(n / SpawnInterval, 8)
  {
    StartGameEffect(w);
    NextWaveEffect(w);
    StartGameEffect(w.(wave := 1, kills := 0));
    SpawnsPerSecond(StartGame(w), n, rolls);
    SpawnsPerSecond(NextWave(w), n, rolls);
    SpawnsPerSecond(Retry(w), n, rolls);
  }
}
