/** One frame of `gameLoop` while a wave is being played: the player's
    update, the spawn cadence, the `forEach` update passes over enemies,
    bullets, missiles, bombs and pickups, the collision check and the
    wave-complete check. Also the invariant the frame and the screen
    transitions keep. */
module GameLoop {
  import opened Wrappers
  import opened Upgrades
  import opened Loot
  import opened Combat
  import opened Removal
  import opened Entities
  import opened Rules
  import opened Collisions

  // ---------------------------------------------------------------------------
  // Projectile expiry: `bullets.forEach(b => b.update())` and the same for
  // missiles; an expired projectile splices itself out, so the walk skips the
  // projectile after it.

  function BulletExpired(now: int): Bullet -> bool {
    (b: Bullet) => now - b.created > BulletLifetime
  }

  function MissileExpired(now: int): Missile -> bool {
    (m: Missile) => now - m.created > MissileLifetime
  }

  function UpdateBullets(w: World, now: int): (r: World)
    ensures r == w.(bullets := r.bullets)
    ensures r.bullets == Skipping(w.bullets, BulletExpired(now))
  {
    ForwardSweepIsSkipping(w.bullets, BulletExpired(now));
    w.(bullets := ForwardSweep(w.bullets, 0, BulletExpired(now)))
  }

  function UpdateMissiles(w: World, now: int): (r: World)
    ensures r == w.(missiles := r.missiles)
    ensures r.missiles == Skipping(w.missiles, MissileExpired(now))
  {
    ForwardSweepIsSkipping(w.missiles, MissileExpired(now));
    w.(missiles := ForwardSweep(w.missiles, 0, MissileExpired(now)))
  }

  /** Every live bullet survives the expiry pass in order and nothing is
      duplicated; the expired ones all go exactly when no two of them are
      neighbours, and otherwise some expired bullet lives one more frame. Of
      two expired bullets alone in the list, the second survives. */
  lemma BulletExpiryEffect(w: World, now: int)
    ensures var r := UpdateBullets(w, now); var gone := BulletExpired(now);
      Filter(r.bullets, Not(gone)) == Filter(w.bullets, Not(gone)) &&
      multiset(r.bullets) <= multiset(w.bullets) &&
      (r.bullets == Filter(w.bullets, Not(gone)) <==> NoAdjacentDeaths(w.bullets, gone)) &&
      (!NoAdjacentDeaths(w.bullets, gone) ==> |r.bullets| > |Filter(w.bullets, Not(gone))|)
    ensures forall a, b :: w.bullets == [a, b] && BulletExpired(now)(a) && BulletExpired(now)(b) ==>
      UpdateBullets(w, now).bullets == [b]
  {
    SkippingKeepsSurvivors(w.bullets, BulletExpired(now));
    SkippingExactWhenIsolated(w.bullets, BulletExpired(now));
    forall a, b | w.bullets == [a, b] && BulletExpired(now)(a) && BulletExpired(now)(b)
      ensures UpdateBullets(w, now).bullets == [b]
    {
      SkipExample(a, b, BulletExpired(now));
    }
  }

  /** The same guarantees for missiles. */
  lemma MissileExpiryEffect(w: World, now: int)
    ensures var r := UpdateMissiles(w, now); var gone := MissileExpired(now);
      Filter(r.missiles, Not(gone)) == Filter(w.missiles, Not(gone)) &&
      multiset(r.missiles) <= multiset(w.missiles) &&
      (r.missiles == Filter(w.missiles, Not(gone)) <==> NoAdjacentDeaths(w.missiles, gone)) &&
      (!NoAdjacentDeaths(w.missiles, gone) ==> |r.missiles| > |Filter(w.missiles, Not(gone))|)
    ensures forall a, b :: w.missiles == [a, b] && MissileExpired(now)(a) && MissileExpired(now)(b) ==>
      UpdateMissiles(w, now).missiles == [b]
  {
    SkippingKeepsSurvivors(w.missiles, MissileExpired(now));
    SkippingExactWhenIsolated(w.missiles, MissileExpired(now));
    forall a, b | w.missiles == [a, b] && MissileExpired(now)(a) && MissileExpired(now)(b)
      ensures UpdateMissiles(w, now).missiles == [b]
    {
      SkipExample(a, b, MissileExpired(now));
    }
  }

  // ---------------------------------------------------------------------------
  // Enemies: `enemies.forEach(e => e.update())`; an enemy within firing range
  // of the player fires. Nothing is removed here.

  function EnemyPass(w: World, k: nat, inRange: int -> bool, now: int): (r: World)
    ensures r.player == w.player && r.pickups == w.pickups && r.missiles == w.missiles
    ensures r.state == w.state && r.waveKills == w.waveKills && r.wave == w.wave
    ensures r.enemiesToSpawn == w.enemiesToSpawn && r.credits == w.credits
    ensures |r.enemies| == |w.enemies|
    ensures forall j :: 0 <= j < |r.enemies| ==> r.enemies[j] == w.enemies[j].(lastFired := r.enemies[j].lastFired)
    ensures |r.bullets| >= |w.bullets| && r.bullets[..|w.bullets|] == w.bullets
    ensures |r.bombs| >= |w.bombs| && r.bombs[..|w.bombs|] == w.bombs
    decreases |w.enemies| - k
  {
    if k >= |w.enemies| then w
    else
      var w1 := if inRange(w.enemies[k].id) then EnemyFire(w, k, now) else w;
      EnemyFireEffect(w, k, now);
      var r := EnemyPass(w1, k + 1, inRange, now);
      assert r.bullets[..|w.bullets|] == r.bullets[..|w1.bullets|][..|w.bullets|];
      assert r.bombs[..|w.bombs|] == r.bombs[..|w1.bombs|][..|w.bombs|];
      r
  }

  // ---------------------------------------------------------------------------
  // Bombs: `bombs.forEach(b => b.update())`. A bomb arms once `now` is past
  // its arm time; an armed bomb within the blast radius of the player
  // explodes and splices itself out.

  function Arm(now: int): Bomb -> Bomb {
    (b: Bomb) => if now > b.armTime then b.(armed := true) else b
  }

  function Detonates(now: int, dist: int -> Distance): Bomb -> bool {
    (b: Bomb) => Arm(now)(b).armed && dist(b.id) < BlastRadius
  }

  /** `Bomb.explode` for the bomb at index k: the player within the radius takes
      the linearly falling blast damage; the bomb leaves the list. */
  function Explode(w: World, k: nat, dist: int -> Distance, now: int): (r: World)
    requires k < |w.bombs| && w.player.Some?
    ensures r.player.Some? && r.bombs == RemoveAt(w.bombs, k)
    ensures PlayerOk(w.player.value) ==> PlayerOk(r.player.value)
  {
    var d := dist(w.bombs[k].id);
    var w1 := if d < BlastRadius then HitPlayer(w, BlastDamage(d), now) else w;
    w1.(bombs := RemoveAt(w.bombs, k))
  }

  function BombPass(w: World, k: nat, dist: int -> Distance, now: int): (r: World)
    requires w.player.Some?
    ensures r.player.Some? && r.bombs == ForwardUpdate(w.bombs, k, Detonates(now, dist), Arm(now))
    ensures r == w.(player := r.player, state := r.state, bombs := r.bombs)
    ensures r.state == w.state || r.state == GameOver
    ensures PlayerOk(w.player.value) ==> PlayerOk(r.player.value)
    decreases |w.bombs| - k
  {
    if k >= |w.bombs| then w
    else
      var b := Arm(now)(w.bombs[k]);
      var w1 := w.(bombs := w.bombs[k := b]);
      if b.armed && dist(b.id) < BlastRadius then
        assert RemoveAt(w1.bombs, k) == RemoveAt(w.bombs, k);
        BombPass(Explode(w1, k, dist, now), k + 1, dist, now)
      else BombPass(w1, k + 1, dist, now)
  }

  /** A bomb goes off only once armed, and it arms only after its arm time:
      a bomb dropped at t cannot detonate at any time up to t + 500. There is
      no timed detonation: a bomb out of the player's range stays. */
  lemma BombArming(b: Bomb, now: int, dist: int -> Distance, t: int)
    ensures Detonates(now, dist)(b) ==> b.armed || now > b.armTime
    ensures b == Bomb(b.id, false, t + BombArmDelay) && now <= t + BombArmDelay ==> !Detonates(now, dist)(b)
    ensures dist(b.id) >= BlastRadius ==> !Detonates(now, dist)(b)
  {
    assert Detonates(now, dist)(b) == (Arm(now)(b).armed && dist(b.id) < BlastRadius);
    assert Arm(now)(b).armed == (b.armed || now > b.armTime);
  }

  /** A detonation costs the unshielded player the armored blast damage. */
  lemma ExplodeDamage(w: World, k: nat, dist: int -> Distance, now: int)
    requires k < |w.bombs| && w.player.Some? && !w.player.value.invulnerable
    requires dist(w.bombs[k].id) < BlastRadius
    ensures var p := w.player.value; var r := Explode(w, k, dist, now);
      var loss := ArmoredDamage(BlastDamage(dist(w.bombs[k].id)), p.armor);
      r.player.value.health == (if p.health - loss <= 0.0 then 0.0 else p.health - loss) &&
      loss >= 1.0 && BlastDamage(dist(w.bombs[k].id)) <= BombDamage
  {
    BlastDamageRange(dist(w.bombs[k].id));
  }

  // ---------------------------------------------------------------------------
  // Pickups: `pickups.forEach(p => p.update())`; a pickup touching the player
  // is collected and splices itself out.

  function Touching(touches: int -> bool): Pickup -> bool {
    (p: Pickup) => touches(p.id)
  }

  /** `Pickup.collect` for the pickup at index k. */
  function CollectAt(w: World, k: nat, now: int): (r: World)
    requires k < |w.pickups| && w.player.Some?
    ensures r.player.Some? && r.pickups == RemoveAt(w.pickups, k)
    ensures r == w.(player := r.player, pickups := r.pickups)
    ensures PlayerOk(w.player.value) ==> PlayerOk(r.player.value)
  {
    PlayerRulesKeepOk(w.player.value, w.ledger, MaxHealth, w.pickups[k].kind, 0.0, now);
    w.(player := Some(Collect(w.player.value, w.pickups[k].kind, now)), pickups := RemoveAt(w.pickups, k))
  }

  function PickupPass(w: World, k: nat, touches: int -> bool, now: int): (r: World)
    requires w.player.Some?
    ensures r.player.Some? && r.pickups == ForwardSweep(w.pickups, k, Touching(touches))
    ensures r == w.(player := r.player, pickups := r.pickups)
    ensures PlayerOk(w.player.value) ==> PlayerOk(r.player.value)
    decreases |w.pickups| - k
  {
    if k >= |w.pickups| then w
    else if touches(w.pickups[k].id) then PickupPass(CollectAt(w, k, now), k + 1, touches, now)
    else PickupPass(w, k + 1, touches, now)
  }

  // ---------------------------------------------------------------------------
  // The frame.

  /** Everything a frame takes from outside the model: the clock, the spawn
      roll, the distance tests of each pass and the loot rolls of enemies that
      die. */
  datatype Inputs = Inputs(
    now: int, spawnRoll: real,
    inFiringRange: int -> bool,       // enemy id: within 600 of the player
    bombDistance: int -> Distance,    // bomb id: distance to the player
    pickupTouches: int -> bool,       // pickup id: touching the player
    geo: Geometry,
    loot: int -> LootRoll)

  /** The invariant of the world between frames and screen changes: the
      screens of a game in progress have a player in a sane state; while a
      wave is played its kills, pending spawns and live enemies add up to the
      quota; a completed wave has no enemies and nothing left to spawn, and
      its kills are the full quota. */
  predicate Consistent(w: World) {
    w.wave >= 1 &&
    ((w.state == Playing || w.state == WaveComplete || w.state == GameOver) ==> w.player.Some?) &&
    (w.player.Some? ==> PlayerOk(w.player.value)) &&
    (w.state == Playing ==> Balanced(w)) &&
    (w.state == WaveComplete ==> w.enemies == [] && w.enemiesToSpawn == 0 && Balanced(w))
  }

  predicate Balanced(w: World) {
    w.waveKills + w.enemiesToSpawn + |w.enemies| == 5 + 3 * w.wave && w.enemiesToSpawn >= 0
  }

  /** One pass of `gameLoop`'s body; only the playing screen runs it. */
  function Tick(w: World, input: Inputs): (r: World)
    requires Consistent(w)
    ensures w.state != Playing ==> r == w
  {
    if w.state != Playing then w
    else
      var w1 := PlayerUpdate(w, input.now);
      var w2 := SpawnTick(w1, input.spawnRoll);
      var w3 := EnemyPass(w2, 0, input.inFiringRange, input.now);
      var w4 := UpdateBullets(w3, input.now);
      var w5 := UpdateMissiles(w4, input.now);
      var w6 := BombPass(w5, 0, input.bombDistance, input.now);
      var w7 := PickupPass(w6, 0, input.pickupTouches, input.now);
      var w8 := CheckCollisions(w7, input.geo, input.now, input.loot);
      CheckWaveComplete(w8)
  }

  /** The update passes before the collision check keep the wave balanced,
      the wave number and a sane player, and can only end the game. */
  lemma UpdatesKeepBalance(w: World, input: Inputs)
    requires Consistent(w) && w.state == Playing
    ensures var w1 := PlayerUpdate(w, input.now);
      var w2 := SpawnTick(w1, input.spawnRoll);
      var w3 := EnemyPass(w2, 0, input.inFiringRange, input.now);
      var w4 := UpdateBullets(w3, input.now);
      var w5 := UpdateMissiles(w4, input.now);
      var w6 := BombPass(w5, 0, input.bombDistance, input.now);
      var w7 := PickupPass(w6, 0, input.pickupTouches, input.now);
      w7.player.Some? && Balanced(w7) && w7.wave == w.wave && PlayerOk(w7.player.value) &&
      (w7.state == Playing || w7.state == GameOver)
  {
    var w1 := PlayerUpdate(w, input.now);
    var w2 := SpawnTick(w1, input.spawnRoll);
    SpawnEnemyEffect(w1.(spawnTimer := w1.spawnTimer + 1), input.spawnRoll);
    assert Balanced(w2);
  }

  /** A frame keeps the invariant, and a wave completes only once all of its
      5 + 3 * wave enemies have been killed (8 on wave 1). */
  lemma TickKeepsConsistent(w: World, input: Inputs)
    requires Consistent(w)
    ensures Consistent(Tick(w, input))
    ensures w.state == Playing && Tick(w, input).state == WaveComplete ==>
      Tick(w, input).waveKills == 5 + 3 * w.wave && Tick(w, input).wave == w.wave
  {
    if w.state == Playing {
      UpdatesKeepBalance(w, input);
      var w1 := PlayerUpdate(w, input.now);
      var w2 := SpawnTick(w1, input.spawnRoll);
      var w3 := EnemyPass(w2, 0, input.inFiringRange, input.now);
      var w4 := UpdateBullets(w3, input.now);
      var w5 := UpdateMissiles(w4, input.now);
      var w6 := BombPass(w5, 0, input.bombDistance, input.now);
      var w7 := PickupPass(w6, 0, input.pickupTouches, input.now);
      var w8 := CheckCollisions(w7, input.geo, input.now, input.loot);
      assert Balanced(w8) && w8.wave == w.wave && PlayerOk(w8.player.value);
      CheckWaveCompleteEffect(w8);
      assert Tick(w, input) == CheckWaveComplete(w8);
    }
  }

  /** The screen transitions keep the invariant; `nextWave` is offered only on
      the wave-complete screen and `gameOver` only with a player. */
  lemma TransitionsKeepConsistent(w: World, k: UpgradeKind, now: int, dist: int -> Distance)
    requires Consistent(w)
    ensures Consistent(StartGame(w)) && Consistent(Retry(w))
    ensures Consistent(ReturnToMenu(w)) && Consistent(OpenHangar(w))
    ensures Consistent(UpgradeButton(w, k))
    ensures w.state == WaveComplete ==> Consistent(NextWave(w))
    ensures w.player.Some? ==> Consistent(EndGame(w))
    ensures w.player.Some? ==> Consistent(FireSpecial(w, now, dist))
  {
    PlayerRulesKeepOk(if w.player.Some? then w.player.value else NewPlayer(w.ledger), w.ledger, k, Health, 0.0, 0);
    if w.player.Some? {
      var w1 := UpgradeStat(w, k);
      PlayerRulesKeepOk(w.player.value, w1.ledger, k, Health, 0.0, 0);
    }
  }

  /** The page starts consistent. */
  lemma InitialConsistent()
    ensures Consistent(InitialWorld())
  {
  }
}
