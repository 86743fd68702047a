/** `checkCollisions`: four passes in a fixed order over the live arrays.
    1. player bullets against enemies, walking the bullets backwards; a bullet
       hits the first enemy it overlaps in list order and is spliced out;
    2. missiles against enemies, the same way;
    3. enemy bullets against the player, backwards, with no early exit;
    4. body contact, a `for...of` over the live enemy list, in which an enemy
       killed by the contact splices itself out.
    The distance tests come in as overlap predicates on entity identities. */
module Collisions {
  import opened Wrappers
  import opened Loot
  import opened Combat
  import opened Removal
  import opened Entities
  import opened Rules

  /** The overlap tests of one collision check. */
  datatype Geometry = Geometry(
    bulletHitsEnemy: (int, int) -> bool,   // (bullet id, enemy id): centre within the enemy's size
    missileHitsEnemy: (int, int) -> bool,  // (missile id, enemy id): within both sizes
    bulletHitsPlayer: int -> bool,         // bullet id: within the player's size
    touchesPlayer: int -> bool)            // enemy id: within both sizes

  /** The enemies that the projectile with id `pid` overlaps. */
  function Overlaps(hits: (int, int) -> bool, pid: int): Enemy -> bool {
    (e: Enemy) => hits(pid, e.id)
  }

  /** What the passes never change: the wave accounting (every kill moves one
      enemy from the list to the wave's kill count) and the identities present. */
  predicate SameWave(w: World, r: World) {
    r.waveKills + |r.enemies| == w.waveKills + |w.enemies| &&
    r.enemiesToSpawn == w.enemiesToSpawn && r.wave == w.wave &&
    EnemyIds(r.enemies) <= EnemyIds(w.enemies)
  }

  // ---------------------------------------------------------------------------
  // Pass 1: player bullets against enemies.

  /** The visit of bullet i: an enemy bullet is skipped; a player bullet
      damages the first enemy it overlaps and is spliced out. */
  function BulletStep(w: World, i: nat, geo: Geometry, loot: int -> LootRoll): (r: World)
    requires i < |w.bullets| && w.player.Some?
    ensures r.player.Some? && SameWave(w, r) && r.missiles == w.missiles
    ensures r.bullets == w.bullets || r.bullets == RemoveAt(w.bullets, i)
    ensures PlayerOk(w.player.value) ==> PlayerOk(r.player.value)
    ensures r.state == w.state || r.state == GameOver
  {
    var b := w.bullets[i];
    if !b.isPlayer then w
    else match FirstIndex(w.enemies, Overlaps(geo.bulletHitsEnemy, b.id))
      case None => w
      case Some(k) => EnemyHit(w, k, b.damage, loot).(bullets := RemoveAt(w.bullets, i))
  }

  /** Visits bullets i, i-1, ..., 0. */
  function BulletPass(w: World, i: int, geo: Geometry, loot: int -> LootRoll): (r: World)
    requires i < |w.bullets| && w.player.Some?
    ensures r.player.Some? && SameWave(w, r) && r.missiles == w.missiles
    ensures |r.bullets| <= |w.bullets|
    decreases i + 1
    ensures PlayerOk(w.player.value) ==> PlayerOk(r.player.value)
    ensures r.state == w.state || r.state == GameOver
  {
    if i < 0 then w else BulletPass(BulletStep(w, i, geo, loot), i - 1, geo, loot)
  }

  /** A bullet is hit-tested once: it overlaps no enemy at all, or the enemy
      at index k is the first it overlaps, that enemy alone takes the bullet's
      damage and the bullet is removed. Enemy bullets are left alone. */
  lemma BulletStepEffect(w: World, i: nat, geo: Geometry, loot: int -> LootRoll)
    requires i < |w.bullets| && w.player.Some?
    ensures var b := w.bullets[i]; var r := BulletStep(w, i, geo, loot);
      ((!b.isPlayer || forall e :: e in w.enemies ==> !geo.bulletHitsEnemy(b.id, e.id)) ==> r == w) &&
      ((b.isPlayer && exists e :: e in w.enemies && geo.bulletHitsEnemy(b.id, e.id)) ==>
        exists k :: 0 <= k < |w.enemies| && geo.bulletHitsEnemy(b.id, w.enemies[k].id) &&
          (forall j :: 0 <= j < k ==> !geo.bulletHitsEnemy(b.id, w.enemies[j].id)) &&
          r == EnemyHit(w, k, b.damage, loot).(bullets := RemoveAt(w.bullets, i)))
  {
    var b := w.bullets[i];
    if b.isPlayer && exists e :: e in w.enemies && geo.bulletHitsEnemy(b.id, e.id) {
      var e :| e in w.enemies && geo.bulletHitsEnemy(b.id, e.id);
      var j :| 0 <= j < |w.enemies| && w.enemies[j] == e;
      assert Overlaps(geo.bulletHitsEnemy, b.id)(w.enemies[j]);
    } else if b.isPlayer {
      assert forall j :: 0 <= j < |w.enemies| ==> !Overlaps(geo.bulletHitsEnemy, b.id)(w.enemies[j]);
    }
  }

  /** A bullet pass 1 cannot remove: an enemy bullet, or a player bullet that
      overlaps none of the enemies with an identity in `ids`. */
  predicate Harmless(hits: (int, int) -> bool, ids: set<int>, b: Bullet) {
    !b.isPlayer || forall id :: id in ids ==> !hits(b.id, id)
  }

  function HarmlessTo(hits: (int, int) -> bool, ids: set<int>): Bullet -> bool {
    (b: Bullet) => Harmless(hits, ids, b)
  }

  lemma {:induction false} BulletPassKeepsHarmless(w: World, i: int, ids: set<int>, geo: Geometry, loot: int -> LootRoll)
    requires i < |w.bullets| && w.player.Some? && EnemyIds(w.enemies) <= ids
    ensures var r := BulletPass(w, i, geo, loot);
      Filter(r.bullets, HarmlessTo(geo.bulletHitsEnemy, ids)) == Filter(w.bullets, HarmlessTo(geo.bulletHitsEnemy, ids)) &&
      multiset(r.bullets) <= multiset(w.bullets)
    decreases i + 1
  {
    if i >= 0 {
      var w1 := BulletStep(w, i, geo, loot);
      var b := w.bullets[i];
      if b.isPlayer {
        match FirstIndex(w.enemies, Overlaps(geo.bulletHitsEnemy, b.id)) {
          case None =>
          case Some(k) =>
            assert w.enemies[k].id in EnemyIds(w.enemies);
            assert !Harmless(geo.bulletHitsEnemy, ids, b);
            FilterRemoveAt(w.bullets, i, HarmlessTo(geo.bulletHitsEnemy, ids));
        }
      }
      BulletPassKeepsHarmless(w1, i - 1, ids, geo, loot);
    }
  }

  /** Over the whole pass: every enemy bullet and every player bullet that
      overlaps none of the enemies alive at the start is still there, in the
      same order, and no bullet is added or duplicated. */
  lemma BulletPassEffect(w: World, geo: Geometry, loot: int -> LootRoll)
    requires w.player.Some?
    ensures var r := BulletPass(w, |w.bullets| - 1, geo, loot);
      var keep := HarmlessTo(geo.bulletHitsEnemy, EnemyIds(w.enemies));
      Filter(r.bullets, keep) == Filter(w.bullets, keep) &&
      multiset(r.bullets) <= multiset(w.bullets) &&
      (forall b :: b in w.bullets && !b.isPlayer ==> b in r.bullets) &&
      (forall b :: b in w.bullets && Harmless(geo.bulletHitsEnemy, EnemyIds(w.enemies), b) ==> b in r.bullets)
  {
    var r := BulletPass(w, |w.bullets| - 1, geo, loot);
    var keep := HarmlessTo(geo.bulletHitsEnemy, EnemyIds(w.enemies));
    BulletPassKeepsHarmless(w, |w.bullets| - 1, EnemyIds(w.enemies), geo, loot);
    forall b | b in w.bullets && Harmless(geo.bulletHitsEnemy, EnemyIds(w.enemies), b)
      ensures b in r.bullets
    {
      FilterMember(w.bullets, keep, b);
      FilterMember(r.bullets, keep, b);
    }
  }

  // ---------------------------------------------------------------------------
  // Pass 2: missiles against enemies.

  function MissileStep(w: World, i: nat, geo: Geometry, loot: int -> LootRoll): (r: World)
    requires i < |w.missiles| && w.player.Some?
    ensures r.player.Some? && SameWave(w, r) && r.bullets == w.bullets
    ensures r.missiles == w.missiles || r.missiles == RemoveAt(w.missiles, i)
    ensures PlayerOk(w.player.value) ==> PlayerOk(r.player.value)
    ensures r.state == w.state || r.state == GameOver
  {
    var m := w.missiles[i];
    match FirstIndex(w.enemies, Overlaps(geo.missileHitsEnemy, m.id))
    case None => w
    case Some(k) => EnemyHit(w, k, MissileDamage, loot).(missiles := RemoveAt(w.missiles, i))
  }

  function MissilePass(w: World, i: int, geo: Geometry, loot: int -> LootRoll): (r: World)
    requires i < |w.missiles| && w.player.Some?
    ensures r.player.Some? && SameWave(w, r) && r.bullets == w.bullets
    ensures |r.missiles| <= |w.missiles|
    decreases i + 1
    ensures PlayerOk(w.player.value) ==> PlayerOk(r.player.value)
    ensures r.state == w.state || r.state == GameOver
  {
    if i < 0 then w else MissilePass(MissileStep(w, i, geo, loot), i - 1, geo, loot)
  }

  /** A missile is hit-tested once, like a player bullet: it overlaps no enemy
      at all, or the enemy at index k is the first it overlaps, that enemy
      alone takes the missile's 50 damage and the missile is removed. */
  lemma MissileStepEffect(w: World, i: nat, geo: Geometry, loot: int -> LootRoll)
    requires i < |w.missiles| && w.player.Some?
    ensures var m := w.missiles[i]; var r := MissileStep(w, i, geo, loot);
      ((forall e :: e in w.enemies ==> !geo.missileHitsEnemy(m.id, e.id)) ==> r == w) &&
      ((exists e :: e in w.enemies && geo.missileHitsEnemy(m.id, e.id)) ==>
        exists k :: 0 <= k < |w.enemies| && geo.missileHitsEnemy(m.id, w.enemies[k].id) &&
          (forall j :: 0 <= j < k ==> !geo.missileHitsEnemy(m.id, w.enemies[j].id)) &&
          r == EnemyHit(w, k, MissileDamage, loot).(missiles := RemoveAt(w.missiles, i)))
  {
    var m := w.missiles[i];
    var hit := Overlaps(geo.missileHitsEnemy, m.id);
    var r := MissileStep(w, i, geo, loot);
    match FirstIndex(w.enemies, hit) {
      case None =>
        assert r == w;
        forall e | e in w.enemies
          ensures !geo.missileHitsEnemy(m.id, e.id)
        {
          var j :| 0 <= j < |w.enemies| && w.enemies[j] == e;
          assert !hit(w.enemies[j]);
        }
      case Some(k) =>
        assert hit(w.enemies[k]);
        assert r == EnemyHit(w, k, MissileDamage, loot).(missiles := RemoveAt(w.missiles, i));
        assert forall j :: 0 <= j < k ==> !hit(w.enemies[j]);
    }
  }

  /** A missile pass 2 cannot remove: it overlaps no enemy with an identity in `ids`. */
  function MissileHarmless(hits: (int, int) -> bool, ids: set<int>): Missile -> bool {
    (m: Missile) => forall id :: id in ids ==> !hits(m.id, id)
  }

  lemma {:induction false} MissilePassKeepsHarmless(w: World, i: int, ids: set<int>, geo: Geometry, loot: int -> LootRoll)
    requires i < |w.missiles| && w.player.Some? && EnemyIds(w.enemies) <= ids
    ensures var r := MissilePass(w, i, geo, loot);
      Filter(r.missiles, MissileHarmless(geo.missileHitsEnemy, ids)) == Filter(w.missiles, MissileHarmless(geo.missileHitsEnemy, ids)) &&
      multiset(r.missiles) <= multiset(w.missiles)
    decreases i + 1
  {
    if i >= 0 {
      var w1 := MissileStep(w, i, geo, loot);
      var m := w.missiles[i];
      match FirstIndex(w.enemies, Overlaps(geo.missileHitsEnemy, m.id)) {
        case None =>
        case Some(k) =>
          assert w.enemies[k].id in EnemyIds(w.enemies);
          assert !MissileHarmless(geo.missileHitsEnemy, ids)(m);
          FilterRemoveAt(w.missiles, i, MissileHarmless(geo.missileHitsEnemy, ids));
      }
      MissilePassKeepsHarmless(w1, i - 1, ids, geo, loot);
    }
  }

  /** Over the whole pass: the missiles that overlap no enemy alive at the
      start all stay, in order, and no missile is added or duplicated. (A
      missile whose only target died earlier in the pass also stays; the hit
      itself is `MissileStepEffect`.) */
  lemma MissilePassEffect(w: World, geo: Geometry, loot: int -> LootRoll)
    requires w.player.Some?
    ensures var r := MissilePass(w, |w.missiles| - 1, geo, loot);
      var keep := MissileHarmless(geo.missileHitsEnemy, EnemyIds(w.enemies));
      Filter(r.missiles, keep) == Filter(w.missiles, keep) &&
      multiset(r.missiles) <= multiset(w.missiles) &&
      (forall m :: m in w.missiles && keep(m) ==> m in r.missiles)
  {
    var r := MissilePass(w, |w.missiles| - 1, geo, loot);
    var keep := MissileHarmless(geo.missileHitsEnemy, EnemyIds(w.enemies));
    MissilePassKeepsHarmless(w, |w.missiles| - 1, EnemyIds(w.enemies), geo, loot);
    forall m | m in w.missiles && keep(m)
      ensures m in r.missiles
    {
      FilterMember(w.missiles, keep, m);
      FilterMember(r.missiles, keep, m);
    }
  }

  // ---------------------------------------------------------------------------
  // Pass 3: enemy bullets against the player.

  /** The bullets pass 3 removes: enemy bullets over the player. */
  function HitsPlayer(geo: Geometry): Bullet -> bool {
    (b: Bullet) => !b.isPlayer && geo.bulletHitsPlayer(b.id)
  }

  function PlayerHitStep(w: World, i: nat, geo: Geometry, now: int): (r: World)
    requires i < |w.bullets| && w.player.Some?
    ensures r.player.Some?
    ensures r.bullets == if HitsPlayer(geo)(w.bullets[i]) then RemoveAt(w.bullets, i) else w.bullets
    ensures PlayerOk(w.player.value) ==> PlayerOk(r.player.value)
  {
    var b := w.bullets[i];
    if HitsPlayer(geo)(b) then HitPlayer(w, b.damage as real, now).(bullets := RemoveAt(w.bullets, i))
    else w
  }

  function PlayerHitPass(w: World, i: int, geo: Geometry, now: int): (r: World)
    requires i < |w.bullets| && w.player.Some?
    ensures r.player.Some? && r.bullets == ReverseSweep(w.bullets, i, HitsPlayer(geo))
    ensures r.enemies == w.enemies && r.missiles == w.missiles && r.waveKills == w.waveKills
    ensures r.enemiesToSpawn == w.enemiesToSpawn && r.wave == w.wave
    ensures r.state == w.state || r.state == GameOver
    decreases i + 1
    ensures PlayerOk(w.player.value) ==> PlayerOk(r.player.value)
  {
    if i < 0 then w else PlayerHitPass(PlayerHitStep(w, i, geo, now), i - 1, geo, now)
  }

  /** Every enemy bullet over the player is consumed, not just the first:
      what remains is exactly the bullets that do not hit, in order. */
  lemma PlayerHitPassEffect(w: World, geo: Geometry, now: int)
    requires w.player.Some?
    ensures var r := PlayerHitPass(w, |w.bullets| - 1, geo, now);
      r.bullets == Filter(w.bullets, Not(HitsPlayer(geo))) &&
      (forall b :: b in r.bullets ==> !HitsPlayer(geo)(b)) &&
      (forall b :: b in w.bullets && !HitsPlayer(geo)(b) ==> b in r.bullets)
  {
    var keep := Not(HitsPlayer(geo));
    ReverseSweepIsFilter(w.bullets, HitsPlayer(geo));
    forall b | b in w.bullets || b in PlayerHitPass(w, |w.bullets| - 1, geo, now).bullets
      ensures b in Filter(w.bullets, keep) <==> b in w.bullets && keep(b)
    {
      FilterMember(w.bullets, keep, b);
    }
  }

  /** Two enemy bullets over an unshielded player in the same check both land:
      the later one in the list is taken first, each through the armor. */
  lemma TwoHitsInOneCheck(w: World, geo: Geometry, now: int, b1: Bullet, b2: Bullet)
    requires w.player.Some? && !w.player.value.invulnerable
    requires w.bullets == [b1, b2] && HitsPlayer(geo)(b1) && HitsPlayer(geo)(b2)
    requires var p := w.player.value;
      p.health - ArmoredDamage(b2.damage as real, p.armor) - ArmoredDamage(b1.damage as real, p.armor) > 0.0
    ensures var r := PlayerHitPass(w, 1, geo, now); var p := w.player.value;
      r.bullets == [] && r.state == w.state &&
      r.player.value.health == p.health - ArmoredDamage(b2.damage as real, p.armor) - ArmoredDamage(b1.damage as real, p.armor)
  {
    var w1 := PlayerHitStep(w, 1, geo, now);
    assert RemoveAt(w.bullets, 1) == [b1];
    assert w1.bullets == [b1];
    var w2 := PlayerHitStep(w1, 0, geo, now);
    assert RemoveAt(w1.bullets, 0) == [];
  }

  /** A shield absorbs the whole pass: the player and the screen are untouched,
      yet the bullets that hit are still consumed. */
  lemma ShieldAbsorbsPass(w: World, i: int, geo: Geometry, now: int)
    requires i < |w.bullets| && w.player.Some? && w.player.value.invulnerable
    ensures var r := PlayerHitPass(w, i, geo, now);
      r.player == w.player && r.state == w.state && r.bullets == ReverseSweep(w.bullets, i, HitsPlayer(geo))
    decreases i + 1
  {
    if i >= 0 {
      ShieldAbsorbsPass(PlayerHitStep(w, i, geo, now), i - 1, geo, now);
    }
  }

  // ---------------------------------------------------------------------------
  // Pass 4: body contact.

  /** An enemy the contact loop removes: it touches the player and the 50
      contact damage finishes it. */
  function ContactKills(geo: Geometry): Enemy -> bool {
    (e: Enemy) => geo.touchesPlayer(e.id) && e.health - ContactDamageToEnemy <= 0
  }

  /** What the contact loop does to an enemy it visits and that survives. */
  function ContactWear(geo: Geometry): Enemy -> Enemy {
    (e: Enemy) => if geo.touchesPlayer(e.id) then e.(health := e.health - ContactDamageToEnemy) else e
  }

  /** The player after `n` contact hits at time `now`. */
  function ContactHurt(p: PlayerState, n: nat, now: int): PlayerState
    decreases n
  {
    if n == 0 then p else ContactHurt(Hurt(p, ContactDamageToPlayer, now), n - 1, now)
  }

  /** How many touching enemies the contact loop examines in the list s: an
      enemy the contact kills shields its right neighbour from the test. */
  function ContactsMade(s: seq<Enemy>, geo: Geometry): nat
    decreases |s|
  {
    if s == [] then 0
    else if ContactKills(geo)(s[0]) then 1 + (if |s| == 1 then 0 else ContactsMade(s[2..], geo))
    else (if geo.touchesPlayer(s[0].id) then 1 else 0) + ContactsMade(s[1..], geo)
  }

  /** Contact hits never read or write the special charge. */
  lemma {:induction false} ContactHurtCharge(p: PlayerState, c: int, n: nat, now: int)
    ensures ContactHurt(p.(specialCharge := c), n, now) == ContactHurt(p, n, now).(specialCharge := c)
    decreases n
  {
    if n > 0 {
      assert Hurt(p.(specialCharge := c), ContactDamageToPlayer, now) ==
             Hurt(p, ContactDamageToPlayer, now).(specialCharge := c);
      ContactHurtCharge(Hurt(p, ContactDamageToPlayer, now), c, n - 1, now);
    }
  }

  /** One touching enemy: the player takes one 20-point hit (the enemy's death
      only adds charge), and it is one of the contacts the loop makes. */
  lemma ContactStepCounts(w: World, k: nat, geo: Geometry, now: int, loot: int -> LootRoll)
    requires k < |w.enemies| && w.player.Some? && geo.touchesPlayer(w.enemies[k].id)
    ensures var w2 := EnemyHit(HitPlayer(w, ContactDamageToPlayer, now), k, ContactDamageToEnemy, loot);
      w2.player.value == Hurt(w.player.value, ContactDamageToPlayer, now).(specialCharge := w2.player.value.specialCharge) &&
      ContactsMade(w.enemies[k..], geo) ==
        1 + (if k + 1 <= |w2.enemies| then ContactsMade(w2.enemies[k + 1..], geo) else 0)
  {
    var s := w.enemies;
    var w1 := HitPlayer(w, ContactDamageToPlayer, now);
    EnemyHitEffect(w1, k, ContactDamageToEnemy, loot);
    var w2 := EnemyHit(w1, k, ContactDamageToEnemy, loot);
    assert s[k..][0] == s[k] && s[k..][1..] == s[k + 1..];
    if ContactKills(geo)(s[k]) {
      assert w2.enemies == RemoveAt(s, k);
      if k + 1 < |s| {
        assert s[k..][2..] == s[k + 2..] == w2.enemies[k + 1..];
      }
    } else {
      assert w2.enemies[k + 1..] == s[k + 1..];
    }
  }

  /** The loop from index k on: a touching enemy deals 20 to the player and
      takes 50; the iterator then moves to index k + 1 even if the enemy died
      and spliced itself out. The player takes one 20-point hit per touching
      enemy the loop examines and, apart from the charge its kills earn,
      nothing else. */
  function ContactPass(w: World, k: nat, geo: Geometry, now: int, loot: int -> LootRoll): (r: World)
    requires w.player.Some?
    ensures r.player.Some? && SameWave(w, r)
    ensures k <= |w.enemies| ==>
      r.player.value == ContactHurt(w.player.value, ContactsMade(w.enemies[k..], geo), now)
                          .(specialCharge := r.player.value.specialCharge)
    ensures r.enemies == ForwardUpdate(w.enemies, k, ContactKills(geo), ContactWear(geo))
    ensures r.bullets == w.bullets && r.missiles == w.missiles
    decreases |w.enemies| - k
    ensures PlayerOk(w.player.value) ==> PlayerOk(r.player.value)
    ensures r.state == w.state || r.state == GameOver
  {
    if k >= |w.enemies| then
      assert k == |w.enemies| ==> w.enemies[k..] == [];
      w
    else if geo.touchesPlayer(w.enemies[k].id) then
      var p := w.player.value;
      var w2 := EnemyHit(HitPlayer(w, ContactDamageToPlayer, now), k, ContactDamageToEnemy, loot);
      var m := if k + 1 <= |w2.enemies| then ContactsMade(w2.enemies[k + 1..], geo) else 0;
      ContactStepCounts(w, k, geo, now, loot);
      ContactHurtCharge(Hurt(p, ContactDamageToPlayer, now), w2.player.value.specialCharge, m, now);
      ContactPass(w2, k + 1, geo, now, loot)
    else
      assert w.enemies[k := ContactWear(geo)(w.enemies[k])] == w.enemies;
      assert w.enemies[k..][0] == w.enemies[k] && w.enemies[k..][1..] == w.enemies[k + 1..];
      ContactPass(w, k + 1, geo, now, loot)
  }

  /** The contact loop skips the neighbour of a killed enemy: of two adjacent
      touching enemies that the contact would both kill, the second stays
      exactly as it was, not damaged, and the player takes a single 20-point
      hit instead of two. */
  lemma ContactSkipsNeighbour(w: World, geo: Geometry, now: int, loot: int -> LootRoll, a: Enemy, b: Enemy)
    requires w.player.Some? && w.enemies == [a, b]
    requires ContactKills(geo)(a) && ContactKills(geo)(b)
    ensures var r := ContactPass(w, 0, geo, now, loot);
      r.enemies == [b] && r.enemies[0].health == b.health && r.waveKills == w.waveKills + 1 &&
      r.player.value == Hurt(w.player.value, ContactDamageToPlayer, now)
                          .(specialCharge := r.player.value.specialCharge)
  {
    UpdateSkipExample(a, b, ContactKills(geo), ContactWear(geo));
    assert w.enemies[0..] == [a, b] && [a, b][2..] == [];
    assert ContactsMade(w.enemies[0..], geo) == 1;
  }

  /** With no touching enemy the contact loop changes nothing. */
  lemma NoContactNoChange(w: World, k: nat, geo: Geometry, now: int, loot: int -> LootRoll)
    requires w.player.Some?
    requires forall e :: e in w.enemies ==> !geo.touchesPlayer(e.id)
    ensures ContactPass(w, k, geo, now, loot) == w
    decreases |w.enemies| - k
  {
    if k < |w.enemies| {
      assert w.enemies[k] in w.enemies;
      NoContactNoChange(w, k + 1, geo, now, loot);
    }
  }

  // ---------------------------------------------------------------------------
  // The whole check.

  function CheckCollisions(w: World, geo: Geometry, now: int, loot: int -> LootRoll): (r: World)
    requires w.player.Some?
    ensures r.player.Some? && SameWave(w, r)
    ensures PlayerOk(w.player.value) ==> PlayerOk(r.player.value)
    ensures r.state == w.state || r.state == GameOver
  {
    var w1 := BulletPass(w, |w.bullets| - 1, geo, loot);
    var w2 := MissilePass(w1, |w1.missiles| - 1, geo, loot);
    var w3 := PlayerHitPass(w2, |w2.bullets| - 1, geo, now);
    ContactPass(w3, 0, geo, now, loot)
  }
}
