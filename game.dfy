/** The game's mutable objects: the `Player` object, and the globals of the
    script (the `game` record, the `upgrades` table, the entity arrays, the
    wave counters) gathered in `Game`. Each method does in place what the
    source does and is proved to produce the world that the corresponding
    function of `Rules`, `Collisions` or `GameLoop` describes. */
module Sim {
  import opened Wrappers
  import opened Upgrades
  import opened Archetypes
  import opened Loot
  import opened Combat
  import opened Removal
  import opened Entities
  import Rules
  import Collisions
  import GameLoop

  class Player {
    var health: real
    var maxHealth: int
    var armor: int
    var speed: real
    var fireRate: int
    var damage: int
    var lastFired: int
    var isFiring: bool
    var specialCharge: int
    var lastHit: int
    var invulnerable: bool
    var invulnerableTime: int

    /** The gameplay fields as a value. */
    function State(): PlayerState
      reads this
    {
      PlayerState(health, maxHealth, armor, speed, fireRate, damage, lastFired, isFiring,
                  specialCharge, lastHit, invulnerable, invulnerableTime)
    }

    /** `new Player()`: stats from the upgrade levels. */
    constructor (l: Ledger)
      ensures State() == NewPlayer(l)
      ensures PlayerOk(State())
    {
      var mh := 100 * l.maxHealth;
      maxHealth := mh;
      health := mh as real;
      armor := 10 * l.armor;
      speed := 3.0 + l.speed as real * 0.5;
      fireRate := 150 - l.fireRate * 10;
      damage := 10 * l.damage;
      lastFired := 0;
      isFiring := false;
      specialCharge := 0;
      lastHit := 0;
      invulnerable := false;
      invulnerableTime := 0;
    }

    /** `takeDamage`; reports whether the hit was fatal (the source then calls
        `gameOver`). */
    method TakeDamage(amount: real, now: int) returns (fatal: bool)
      modifies this
      ensures State() == Hurt(old(State()), amount, now)
      ensures fatal == HurtKills(old(State()), amount)
    {
      if invulnerable {
        return false;
      }
      var actual := ArmoredDamage(amount, armor);
      health := health - actual;
      lastHit := now;
      fatal := false;
      if health <= 0.0 {
        health := 0.0;
        fatal := true;
      }
    }

    /** The regeneration and shield-expiry part of `update`. */
    method UpdateTimers(now: int)
      modifies this
      ensures State() == Timers(old(State()), now)
    {
      if now - lastHit > RegenDelay {
        health := MinReal(health + RegenRate, maxHealth as real);
      }
      if invulnerable && now - invulnerableTime > ShieldDuration {
        invulnerable := false;
      }
    }

    /** The stat reset of `startGame`. */
    method ResetStats(l: Ledger)
      modifies this
      ensures State() == Entities.ResetStats(old(State()), l)
    {
      maxHealth := 100 * l.maxHealth;
      health := maxHealth as real;
      armor := 10 * l.armor;
      speed := 3.0 + l.speed as real * 0.5;
      fireRate := 150 - l.fireRate * 10;
      damage := 10 * l.damage;
      specialCharge := 0;
    }

    /** What a successful upgrade button does to the player. */
    method ApplyUpgrade(k: UpgradeKind, l: Ledger)
      modifies this
      ensures State() == Entities.ApplyUpgrade(old(State()), k, l)
    {
      match k
      case MaxHealth =>
        maxHealth := 100 * l.maxHealth;
        health := maxHealth as real;
      case Armor => armor := 10 * l.armor;
      case Speed => speed := 3.0 + l.speed as real * 0.5;
      case FireRate => fireRate := 150 - l.fireRate * 10;
      case Damage => damage := 10 * l.damage;
      case Missiles =>
    }

    /** The effect of `Pickup.collect` on the player. */
    method Collect(k: PickupKind, now: int)
      modifies this
      ensures State() == Entities.Collect(old(State()), k, now)
    {
      match k
      case Health => health := MinReal(health + maxHealth as real * 0.25, maxHealth as real);
      case ArmorPlate => armor := armor + 5;
      case RapidFire => fireRate := MaxInt(MinFireRate, fireRate - 20);
      case Shield =>
        invulnerable := true;
        invulnerableTime := now;
    }
  }

  /** The script's globals. `player` is null until the first game starts. */
  class Game {
    var state: GameState
    var wave: int
    var credits: nat
    var kills: nat
    var waveKills: nat
    var ledger: Ledger
    var player: Player?
    var enemies: seq<Enemy>
    var bullets: seq<Bullet>
    var missiles: seq<Missile>
    var bombs: seq<Bomb>
    var pickups: seq<Pickup>
    var enemiesToSpawn: int
    var spawnTimer: int
    var nextId: int

    /** The whole state as a value. */
    function Snapshot(): World
      reads this, player
    {
      World(state, wave, credits, kills, waveKills, ledger,
            if player == null then None else Some(player.State()),
            enemies, bullets, missiles, bombs, pickups, enemiesToSpawn, spawnTimer, nextId)
    }

    /** The state when the script has loaded. */
    constructor ()
      ensures Snapshot() == InitialWorld()
      ensures GameLoop.Consistent(Snapshot())
    {
      state, wave, credits, kills, waveKills := Menu, 1, 0, 0, 0;
      ledger := Ledger(1, 1, 1, 1, 1, 0);
      player := null;
      enemies, bullets, missiles, bombs, pickups := [], [], [], [], [];
      enemiesToSpawn, spawnTimer, nextId := 0, 0, 0;
    }

    // -------------------------------------------------------------------------
    // Upgrades.

    /** `upgradestat`: buys the next level of k if the credits cover its price. */
    method UpgradeStat(k: UpgradeKind) returns (bought: bool)
      modifies this
      ensures Snapshot() == Rules.UpgradeStat(old(Snapshot()), k)
      ensures bought == Rules.Affordable(old(Snapshot()), k)
      ensures player == old(player)
    {
      var cost := Cost(k, ledger.Level(k));
      if credits >= cost {
        credits := credits - cost;
        ledger := ledger.Bump(k);
        return true;
      }
      return false;
    }

    /** A hangar upgrade button. */
    method UpgradeButton(k: UpgradeKind)
      modifies this, player
      ensures Snapshot() == Rules.UpgradeButton(old(Snapshot()), k)
      ensures player == old(player)
    {
      var bought := UpgradeStat(k);
      if bought && player != null {
        player.ApplyUpgrade(k, ledger);
      }
    }

    // -------------------------------------------------------------------------
    // The player.

    /** `player.takeDamage(amount)`, with `gameOver` on a fatal hit. */
    method HitPlayer(amount: real, now: int)
      requires player != null
      modifies this, player
      ensures Snapshot() == Rules.HitPlayer(old(Snapshot()), amount, now)
      ensures player == old(player)
    {
      var fatal := player.TakeDamage(amount, now);
      if fatal {
        EndGame();
      }
    }

    /** `Player.fire`. */
    method PlayerFire(now: int)
      requires player != null
      modifies this, player
      ensures Snapshot() == Rules.PlayerFire(old(Snapshot()), now)
      ensures player == old(player)
    {
      if now - player.lastFired < player.fireRate {
        return;
      }
      player.lastFired := now;
      bullets := bullets + [Bullet(nextId, true, player.damage, now)];
      bullets := bullets + [Bullet(nextId + 1, true, player.damage, now)];
      nextId := nextId + 2;
    }

    /** `Player.update` without the movement. */
    method PlayerUpdate(now: int)
      requires player != null
      modifies this, player
      ensures Snapshot() == Rules.PlayerUpdate(old(Snapshot()), now)
      ensures player == old(player)
    {
      player.UpdateTimers(now);
      if player.isFiring {
        PlayerFire(now);
      }
    }

    /** `Player.fireSpecial`: finds the nearest enemy with the source's scan and
        pushes the missiles one by one. */
    method FireSpecial(now: int, dist: int -> Distance)
      requires player != null
      modifies this, player
      ensures Snapshot() == Rules.FireSpecial(old(Snapshot()), now, dist)
      ensures player == old(player)
    {
      if player.specialCharge < MaxSpecialCharge {
        return;
      }
      if ledger.missiles == 0 {
        return;
      }
      player.specialCharge := 0;
      var nearest := FindNearest(enemies, Rules.EnemyDistance(dist));
      var target := if nearest.Some? then Some(enemies[nearest.value].id) else None;
      assert target == Rules.SpecialTarget(enemies, dist);
      Launch(2 + ledger.missiles, target, now);
    }

    /** The `for` loop of `fireSpecial`: one missile per pass, each with the
        next identity. */
    method Launch(count: nat, target: Option<int>, now: int)
      modifies this
      ensures Snapshot() == old(Snapshot()).(missiles := old(missiles) + Rules.Salvo(old(nextId), count, target, now),
                                             nextId := old(nextId) + count)
      ensures player == old(player)
    {
      ghost var w0 := Snapshot();
      var i := 0;
      while i < count
        invariant 0 <= i <= count && player == old(player)
        invariant Snapshot() == w0.(missiles := w0.missiles + Rules.Salvo(w0.nextId, i, target, now), nextId := w0.nextId + i)
      {
        assert Rules.Salvo(w0.nextId, i + 1, target, now) == Rules.Salvo(w0.nextId, i, target, now) + [Missile(w0.nextId + i, target, now)];
        missiles := missiles + [Missile(nextId, target, now)];
        nextId := nextId + 1;
        i := i + 1;
      }
    }

    // -------------------------------------------------------------------------
    // Enemies.

    /** `Enemy.fire` for the enemy at index k. */
    method EnemyFire(k: nat, now: int)
      requires k < |enemies|
      modifies this
      ensures Snapshot() == Rules.EnemyFire(old(Snapshot()), k, now)
      ensures player == old(player)
    {
      var e := enemies[k];
      var st := StatsOf(e.kind);
      if now - e.lastFired < st.fireRate {
        return;
      }
      enemies := enemies[k := e.(lastFired := now)];
      if e.kind == Bomber {
        bombs := bombs + [Bomb(nextId, false, now + BombArmDelay)];
        nextId := nextId + 1;
      } else {
        FireShots(if e.kind == Ace then 3 else 1, st.damage, now);
      }
    }

    /** The shot loop of `Enemy.fire`: one bullet per pass, each with the next
        identity. */
    method FireShots(count: nat, damage: int, now: int)
      modifies this
      ensures Snapshot() == old(Snapshot()).(bullets := old(bullets) + Rules.Shots(old(nextId), count, damage, now),
                                             nextId := old(nextId) + count)
      ensures player == old(player)
    {
      ghost var w0 := Snapshot();
      var i := 0;
      while i < count
        invariant 0 <= i <= count && player == old(player)
        invariant Snapshot() == w0.(bullets := w0.bullets + Rules.Shots(w0.nextId, i, damage, now), nextId := w0.nextId + i)
      {
        assert Rules.Shots(w0.nextId, i + 1, damage, now) == Rules.Shots(w0.nextId, i, damage, now) + [Bullet(w0.nextId + i, false, damage, now)];
        bullets := bullets + [Bullet(nextId, false, damage, now)];
        nextId := nextId + 1;
        i := i + 1;
      }
    }

    /** `Enemy.die` for the enemy at index k (its `indexOf`). */
    method Die(k: nat, loot: int -> LootRoll)
      requires k < |enemies| && player != null
      modifies this, player
      ensures Snapshot() == Rules.Die(old(Snapshot()), k, loot)
      ensures player == old(player)
    {
      ghost var w := Snapshot();
      ghost var r := Rules.Die(w, k, loot);
      var e := enemies[k];
      credits := credits + StatsOf(e.kind).credits;
      kills := kills + 1;
      waveKills := waveKills + 1;
      player.specialCharge := MinInt(player.specialCharge + ChargePerKill, MaxSpecialCharge);
      assert Snapshot() == r.(pickups := w.pickups, nextId := w.nextId, enemies := w.enemies);
      var drop := DropOf(loot(e.id));
      if drop.Some? {
        pickups := pickups + [Pickup(nextId, drop.value)];
        nextId := nextId + 1;
      }
      enemies := RemoveAt(enemies, k);
      assert pickups == r.pickups && nextId == r.nextId && enemies == r.enemies;
    }

    /** `Enemy.takeDamage` for the enemy at index k. */
    method EnemyTakeDamage(k: nat, amount: int, loot: int -> LootRoll)
      requires k < |enemies| && player != null
      modifies this, player
      ensures Snapshot() == Rules.EnemyHit(old(Snapshot()), k, amount, loot)
      ensures player == old(player) && |enemies| <= old(|enemies|)
    {
      enemies := enemies[k := enemies[k].(health := enemies[k].health - amount)];
      if enemies[k].health <= 0 {
        Die(k, loot);
      }
    }

    // -------------------------------------------------------------------------
    // Waves.

    method StartWave()
      modifies this
      ensures Snapshot() == Rules.StartWave(old(Snapshot()))
      ensures player == old(player)
    {
      waveKills := 0;
      spawnTimer := 0;
      enemiesToSpawn := 5 + wave * 3;
    }

    /** `spawnEnemy`: the type is chosen by the source's sequence of overrides. */
    method SpawnEnemy(roll: real)
      modifies this
      ensures Snapshot() == Rules.SpawnEnemy(old(Snapshot()), roll)
      ensures player == old(player)
    {
      if enemiesToSpawn <= 0 {
        return;
      }
      var kind := Scout;
      if wave >= 3 && roll < 0.3 {
        kind := Fighter;
      }
      if wave >= 5 && roll < 0.15 {
        kind := Bomber;
      }
      if wave >= 8 && roll < 0.05 {
        kind := Ace;
      }
      enemies := enemies + [Enemy(nextId, kind, StatsOf(kind).maxHealth, 0)];
      nextId := nextId + 1;
      enemiesToSpawn := enemiesToSpawn - 1;
    }

    /** The spawn cadence of the game loop. */
    method SpawnTick(roll: real)
      modifies this
      ensures Snapshot() == Rules.SpawnTick(old(Snapshot()), roll)
      ensures player == old(player)
    {
      spawnTimer := spawnTimer + 1;
      if spawnTimer % SpawnInterval == 0 {
        SpawnEnemy(roll);
      }
    }

    method CheckWaveComplete()
      modifies this
      ensures Snapshot() == Rules.CheckWaveComplete(old(Snapshot()))
      ensures player == old(player)
    {
      if enemiesToSpawn == 0 && |enemies| == 0 {
        state := WaveComplete;
      }
    }

    // -------------------------------------------------------------------------
    // Screen transitions.

    /** `startGame`: the player is created on the first game and reset after. */
    method StartGame()
      modifies this, player
      ensures Snapshot() == Rules.StartGame(old(Snapshot()))
      ensures player != null && (old(player) != null ==> player == old(player))
      ensures old(player) == null ==> fresh(player)
    {
      state := Playing;
      SetUpPlayer();
      ClearArrays();
      StartWave();
    }

    /** The array clearing of `startGame`. */
    method ClearArrays()
      modifies this
      ensures Snapshot() == old(Snapshot()).(enemies := [], bullets := [], missiles := [], bombs := [], pickups := [])
      ensures player == old(player)
    {
      bullets, missiles, bombs, enemies, pickups := [], [], [], [], [];
    }

    /** The player part of `startGame`. */
    method SetUpPlayer()
      modifies this, player
      ensures Snapshot() == old(Snapshot()).(player := Some(Rules.StartingPlayer(old(Snapshot()))))
      ensures player != null && (old(player) != null ==> player == old(player))
      ensures old(player) == null ==> fresh(player)
    {
      if player == null {
        player := new Player(ledger);
      } else {
        player.ResetStats(ledger);
      }
    }

    /** `gameOver`. */
    method EndGame()
      modifies this
      ensures Snapshot() == Rules.EndGame(old(Snapshot()))
      ensures player == old(player)
    {
      state := GameOver;
    }

    method ReturnToMenu()
      modifies this
      ensures Snapshot() == Rules.ReturnToMenu(old(Snapshot()))
      ensures player == old(player)
    {
      state := Menu;
    }

    method OpenHangar()
      modifies this
      ensures Snapshot() == Rules.OpenHangar(old(Snapshot()))
      ensures player == old(player)
    {
      state := Hangar;
    }

    method NextWave()
      modifies this
      ensures Snapshot() == Rules.NextWave(old(Snapshot()))
      ensures player == old(player)
    {
      wave := wave + 1;
      state := Playing;
      StartWave();
    }

    method Retry()
      modifies this, player
      ensures Snapshot() == Rules.Retry(old(Snapshot()))
      ensures player != null && (old(player) != null ==> player == old(player))
    {
      wave := 1;
      kills := 0;
      StartGame();
    }

    // -------------------------------------------------------------------------
    // `checkCollisions`.

    /** Pass 1, the visit of bullet i: the `for...of` over enemies stops at the
        first one the bullet overlaps. */
    method BulletStep(i: nat, geo: Collisions.Geometry, loot: int -> LootRoll)
      requires i < |bullets| && player != null
      modifies this, player
      ensures Snapshot() == Collisions.BulletStep(old(Snapshot()), i, geo, loot)
      ensures player == old(player)
    {
      var b := bullets[i];
      if !b.isPlayer {
        return;
      }
      var hit := FirstMatch(enemies, Collisions.Overlaps(geo.bulletHitsEnemy, b.id));
      if hit.Some? {
        EnemyTakeDamage(hit.value, b.damage, loot);
        bullets := RemoveAt(bullets, i);
      }
    }

    /** Pass 2, the visit of missile i. */
    method MissileStep(i: nat, geo: Collisions.Geometry, loot: int -> LootRoll)
      requires i < |missiles| && player != null
      modifies this, player
      ensures Snapshot() == Collisions.MissileStep(old(Snapshot()), i, geo, loot)
      ensures player == old(player)
    {
      var m := missiles[i];
      var hit := FirstMatch(enemies, Collisions.Overlaps(geo.missileHitsEnemy, m.id));
      if hit.Some? {
        EnemyTakeDamage(hit.value, MissileDamage, loot);
        missiles := RemoveAt(missiles, i);
      }
    }

    /** Pass 1: player bullets against enemies, walking the bullets backwards. */
    method BulletHits(geo: Collisions.Geometry, loot: int -> LootRoll)
      requires player != null
      modifies this, player
      ensures Snapshot() == Collisions.BulletPass(old(Snapshot()), |old(bullets)| - 1, geo, loot)
      ensures player == old(player)
    {
      ghost var w0 := Snapshot();
      var i := |bullets| - 1;
      while i >= 0
        invariant i < |bullets| && player == old(player)
        invariant Collisions.BulletPass(Snapshot(), i, geo, loot) == Collisions.BulletPass(w0, |w0.bullets| - 1, geo, loot)
        decreases i + 1
      {
        BulletStep(i, geo, loot);
        i := i - 1;
      }
    }

    /** Pass 2: missiles against enemies, backwards. */
    method MissileHits(geo: Collisions.Geometry, loot: int -> LootRoll)
      requires player != null
      modifies this, player
      ensures Snapshot() == Collisions.MissilePass(old(Snapshot()), |old(missiles)| - 1, geo, loot)
      ensures player == old(player)
    {
      ghost var w0 := Snapshot();
      var i := |missiles| - 1;
      while i >= 0
        invariant i < |missiles| && player == old(player)
        invariant Collisions.MissilePass(Snapshot(), i, geo, loot) == Collisions.MissilePass(w0, |w0.missiles| - 1, geo, loot)
        decreases i + 1
      {
        MissileStep(i, geo, loot);
        i := i - 1;
      }
    }

    /** Pass 3, the visit of bullet i: an enemy bullet over the player hurts
        the player and is spliced out. */
    method PlayerHitStep(i: nat, geo: Collisions.Geometry, now: int)
      requires i < |bullets| && player != null
      modifies this, player
      ensures Snapshot() == Collisions.PlayerHitStep(old(Snapshot()), i, geo, now)
      ensures player == old(player)
    {
      var b := bullets[i];
      if !b.isPlayer && geo.bulletHitsPlayer(b.id) {
        HitPlayer(b.damage as real, now);
        bullets := RemoveAt(bullets, i);
      }
    }

    /** Pass 3: enemy bullets against the player, backwards, with no early exit. */
    method PlayerHits(geo: Collisions.Geometry, now: int)
      requires player != null
      modifies this, player
      ensures Snapshot() == Collisions.PlayerHitPass(old(Snapshot()), |old(bullets)| - 1, geo, now)
      ensures player == old(player)
    {
      ghost var w0 := Snapshot();
      var i := |bullets| - 1;
      while i >= 0
        invariant i < |bullets| && player == old(player)
        invariant Collisions.PlayerHitPass(Snapshot(), i, geo, now) == Collisions.PlayerHitPass(w0, |w0.bullets| - 1, geo, now)
        decreases i + 1
      {
        PlayerHitStep(i, geo, now);
        i := i - 1;
      }
    }

    /** Pass 4, the visit of enemy k: a touching enemy deals contact damage to
        the player and takes contact damage; the walk then goes on at k + 1. */
    method ContactStep(k: nat, geo: Collisions.Geometry, now: int, loot: int -> LootRoll)
      requires k < |enemies| && player != null
      modifies this, player
      ensures player == old(player) && |enemies| <= old(|enemies|)
      ensures Collisions.ContactPass(Snapshot(), k + 1, geo, now, loot) == Collisions.ContactPass(old(Snapshot()), k, geo, now, loot)
    {
      if geo.touchesPlayer(enemies[k].id) {
        HitPlayer(ContactDamageToPlayer, now);
        EnemyTakeDamage(k, ContactDamageToEnemy, loot);
      }
    }

    /** Pass 4: body contact, a `for...of` over the live enemy list. */
    method ContactHits(geo: Collisions.Geometry, now: int, loot: int -> LootRoll)
      requires player != null
      modifies this, player
      ensures Snapshot() == Collisions.ContactPass(old(Snapshot()), 0, geo, now, loot)
      ensures player == old(player)
    {
      ghost var w0 := Snapshot();
      var k := 0;
      while k < |enemies|
        invariant player == old(player)
        invariant Collisions.ContactPass(Snapshot(), k, geo, now, loot) == Collisions.ContactPass(w0, 0, geo, now, loot)
        decreases |enemies| - k
      {
        ContactStep(k, geo, now, loot);
        k := k + 1;
      }
    }

    method CheckCollisions(geo: Collisions.Geometry, now: int, loot: int -> LootRoll)
      requires player != null
      modifies this, player
      ensures Snapshot() == Collisions.CheckCollisions(old(Snapshot()), geo, now, loot)
      ensures player == old(player)
    {
      ghost var w0 := Snapshot();
      BulletHits(geo, loot);
      ghost var w1 := Snapshot();
      assert w1 == Collisions.BulletPass(w0, |w0.bullets| - 1, geo, loot);
      MissileHits(geo, loot);
      ghost var w2 := Snapshot();
      assert w2 == Collisions.MissilePass(w1, |w1.missiles| - 1, geo, loot);
      PlayerHits(geo, now);
      ghost var w3 := Snapshot();
      assert w3 == Collisions.PlayerHitPass(w2, |w2.bullets| - 1, geo, now);
      ContactHits(geo, now, loot);
    }

    // -------------------------------------------------------------------------
    // The `forEach` passes of the game loop.

    method EnemyPass(inRange: int -> bool, now: int)
      modifies this
      ensures Snapshot() == GameLoop.EnemyPass(old(Snapshot()), 0, inRange, now)
      ensures player == old(player)
    {
      ghost var w0 := Snapshot();
      var k := 0;
      while k < |enemies|
        invariant player == old(player)
        invariant GameLoop.EnemyPass(Snapshot(), k, inRange, now) == GameLoop.EnemyPass(w0, 0, inRange, now)
        decreases |enemies| - k
      {
        if inRange(enemies[k].id) {
          EnemyFire(k, now);
        }
        k := k + 1;
      }
    }

    /** `bullets.forEach(b => b.update())`: an expired bullet splices itself out
        and the walk moves on to the next index. */
    method UpdateBullets(now: int)
      modifies this
      ensures Snapshot() == GameLoop.UpdateBullets(old(Snapshot()), now)
      ensures player == old(player)
    {
      var k := 0;
      while k < |bullets|
        invariant Snapshot() == old(Snapshot()).(bullets := bullets) && player == old(player)
        invariant ForwardSweep(bullets, k, GameLoop.BulletExpired(now)) == ForwardSweep(old(bullets), 0, GameLoop.BulletExpired(now))
        decreases |bullets| - k
      {
        if now - bullets[k].created > BulletLifetime {
          bullets := RemoveAt(bullets, k);
        }
        k := k + 1;
      }
    }

    method UpdateMissiles(now: int)
      modifies this
      ensures Snapshot() == GameLoop.UpdateMissiles(old(Snapshot()), now)
      ensures player == old(player)
    {
      var k := 0;
      while k < |missiles|
        invariant Snapshot() == old(Snapshot()).(missiles := missiles) && player == old(player)
        invariant ForwardSweep(missiles, k, GameLoop.MissileExpired(now)) == ForwardSweep(old(missiles), 0, GameLoop.MissileExpired(now))
        decreases |missiles| - k
      {
        if now - missiles[k].created > MissileLifetime {
          missiles := RemoveAt(missiles, k);
        }
        k := k + 1;
      }
    }

    /** The update of bomb k: it arms once `now` is past its arm time, and an
        armed bomb within the blast radius explodes. */
    method BombStep(k: nat, dist: int -> Distance, now: int)
      requires k < |bombs| && player != null
      modifies this, player
      ensures player == old(player) && |bombs| <= old(|bombs|)
      ensures GameLoop.BombPass(Snapshot(), k + 1, dist, now) == GameLoop.BombPass(old(Snapshot()), k, dist, now)
    {
      ghost var w := Snapshot();
      bombs := bombs[k := GameLoop.Arm(now)(bombs[k])];
      ghost var w1 := Snapshot();
      assert w1 == w.(bombs := w.bombs[k := GameLoop.Arm(now)(w.bombs[k])]);
      if bombs[k].armed && dist(bombs[k].id) < BlastRadius {
        assert RemoveAt(w1.bombs, k) == RemoveAt(w.bombs, k);
        Explode(k, dist, now);
      }
    }

    /** `bombs.forEach(b => b.update())`. */
    method BombPass(dist: int -> Distance, now: int)
      requires player != null
      modifies this, player
      ensures Snapshot() == GameLoop.BombPass(old(Snapshot()), 0, dist, now)
      ensures player == old(player)
    {
      ghost var w0 := Snapshot();
      var k := 0;
      while k < |bombs|
        invariant player == old(player)
        invariant GameLoop.BombPass(Snapshot(), k, dist, now) == GameLoop.BombPass(w0, 0, dist, now)
        decreases |bombs| - k
      {
        BombStep(k, dist, now);
        k := k + 1;
      }
    }

    /** `Bomb.explode` for the bomb at index k. */
    method Explode(k: nat, dist: int -> Distance, now: int)
      requires k < |bombs| && player != null
      modifies this, player
      ensures Snapshot() == GameLoop.Explode(old(Snapshot()), k, dist, now)
      ensures player == old(player)
    {
      var d := dist(bombs[k].id);
      if d < BlastRadius {
        HitPlayer(BlastDamage(d), now);
      }
      bombs := RemoveAt(bombs, k);
    }

    /** `pickups.forEach(p => p.update())`. */
    method PickupPass(touches: int -> bool, now: int)
      requires player != null
      modifies this, player
      ensures Snapshot() == GameLoop.PickupPass(old(Snapshot()), 0, touches, now)
      ensures player == old(player)
    {
      ghost var w0 := Snapshot();
      var k := 0;
      while k < |pickups|
        invariant player == old(player)
        invariant GameLoop.PickupPass(Snapshot(), k, touches, now) == GameLoop.PickupPass(w0, 0, touches, now)
        decreases |pickups| - k
      {
        if touches(pickups[k].id) {
          player.Collect(pickups[k].kind, now);
          pickups := RemoveAt(pickups, k);
        }
        k := k + 1;
      }
    }

    /** One frame of `gameLoop`. */
    method Tick(input: GameLoop.Inputs)
      requires GameLoop.Consistent(Snapshot())
      modifies this, player
      ensures Snapshot() == GameLoop.Tick(old(Snapshot()), input)
      ensures player == old(player)
    {
      if state != Playing {
        return;
      }
      PlayerUpdate(input.now);
      SpawnTick(input.spawnRoll);
      EnemyPass(input.inFiringRange, input.now);
      UpdateBullets(input.now);
      UpdateMissiles(input.now);
      BombPass(input.bombDistance, input.now);
      PickupPass(input.pickupTouches, input.now);
      CheckCollisions(input.geo, input.now, input.loot);
      CheckWaveComplete();
    }
  }
}
