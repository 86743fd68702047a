# Sky Ace: the gameplay bookkeeping, in Dafny

This project models the rules underneath the browser shooter `game.js`. These are the integer and rational bookkeeping of the game, not its drawing:

- the hangar's upgrade economy;
- the player's health, armor, shield, regeneration, guns and homing-missile special;
- the four enemy archetypes, their shots and their deaths;
- bombs and pickups;
- the wave director and the screen state machine;
- the collision resolver;
- one frame of the game loop.

Geometry, the clock and randomness become parameters:

- Every distance or overlap test is a predicate or a `Distance` keyed by entity identity.
- `Date.now()` is a `now` argument, taken once per frame.
- `Math.random()` is a `roll`. Each dying enemy gets a `LootRoll` keyed by its identity.

Every object in a live array carries an `id` that stands for its object identity.

The model has two layers.

- **Specification functions** over the value `Entities.World`, which holds the `game` record, the upgrade levels, the player, the five live arrays, the spawn quota, the spawn timer and the identity counter. They are spread over these modules:
  - `Upgrades`, `Archetypes`, `Loot` and `Combat` hold the tables and formulas.
  - `Removal` holds the two ways the game removes elements while it walks a list.
  - `Entities` holds the records and the player's own rules.
  - `Rules` holds the functions of the script.
  - `Collisions` holds `checkCollisions`.
  - `GameLoop` holds the frame and the invariant it keeps.
- **The imperative program** in `Sim`. `Sim.Player` is the player object with its fields. `Sim.Game` holds the script's globals as fields: the `game` record, the `upgrades` levels, `player`, the entity arrays as `seq` fields, `enemiesToSpawn` and `waveSpawnTimer`.
  - Each method updates these fields in place, as the source does, with the source's loops. The reverse index loops of `checkCollisions`, the `forEach` walks whose elements splice themselves out, the missile and bullet `for` loops and the nearest-enemy scan all appear as loops.
  - Each method is proved to produce `Snapshot() == F(old(Snapshot()), …)` for the specification function `F` it implements.
  - The properties are proved about the `F`s.

The removal behaviour while walking is modelled as written, and its two forms differ:

- The backward index loops of `checkCollisions` are safe. `Removal.ReverseSweepIsFilter` proves they keep exactly the elements that do not go, in order.
- A forward walk whose visited element splices itself out skips that element's right neighbour. This covers `bullets.forEach` and `missiles.forEach` with expiry, `bombs.forEach` with detonation, `pickups.forEach` with collection, and the contact `for...of` with an enemy death.
  - `Removal.SkippingKeepsSurvivors` and `Removal.SkippingExactWhenIsolated` say what such a walk still guarantees.
  - `Removal.SkipExample`, `GameLoop.BulletExpiryEffect` and `Collisions.ContactSkipsNeighbour` exhibit the skipped neighbour.

## Model

| member | source | states |
|---|---|---|
| Upgrades.InitialLedger | game.js:43-50 | every kind starts at level 1, except missiles, which start locked at level 0 |
| Upgrades.Ledger.Bump | game.js:61 | the bought kind's level rises by exactly one and every other kind's level is unchanged |
| Upgrades.Pow | game.js:54 | an integer power of a positive multiplier is positive (a negative exponent divides) |
| Upgrades.PowGrows | game.js:54 | with a multiplier above 1, each power is strictly larger than the one before |
| Upgrades.CostNonDecreasing | game.js:52-55 | `floor(cost * multiplier^(level-1))` never falls when the level rises by one |
| Upgrades.CostMonotone | game.js:52-55 | the cost of a kind is monotone in its level over any distance |
| Upgrades.Cost | game.js:52-55 | the price is floor(baseCost · multiplier^(level − 1)), and from level 1 on it is at least the kind's base cost |
| Upgrades.StartingCosts | game.js:43-55 | unlocking missiles at level 0 costs floor(500/1.3) = 384, and every other kind's first level costs 100 |
| Archetypes.StrongerPaysMore | game.js:268-305 | a sanity check of the table only, not of behaviour: along scout, fighter, bomber and ace, maximum health and credit value both strictly increase |
| Archetypes.StatsOf | game.js:268-305 | every type has positive maximum health (a spawned enemy is alive), a positive shot cooldown and damage, and pays positive credits |
| Archetypes.Choose | game.js:825-836 | the archetype is ace iff wave ≥ 8 and roll < 0.05; else bomber iff wave ≥ 5 and roll < 0.15; else fighter iff wave ≥ 3 and roll < 0.3; else scout (each direction of each iff) |
| Archetypes.ChooseIsPriority | game.js:825-836 | the source's three overriding `if`s give the same type as the strongest-band-first priority list |
| Archetypes.EarlyWaves | game.js:825-836 | waves below 3 spawn only scouts; a fighter needs wave 3, a bomber wave 5, an ace wave 8 |
| Archetypes.VolleyOf | game.js:376-388 | a shot drops a bomb iff the enemy is a bomber; otherwise it fires 3 bullets for an ace and 1 for the others |
| Loot.KindOfRoll | game.js:650-662 | the pickup is health iff roll < 0.4, armor iff 0.4 ≤ roll < 0.7, rapid fire iff 0.7 ≤ roll < 0.9, and shield otherwise |
| Loot.DropOf | game.js:411-413 | a dying enemy drops a pickup iff its drop roll is below 0.2, and the pickup's type comes from the type roll |
| Combat.ArmoredDamage | game.js:204 | the damage a hit deals is at least 1 and at least amount − armor, is one of the two, and is 1 exactly when amount − armor ≤ 1 |
| Combat.BlastDamage | game.js:607-612 | the falloff damage lies in [0, 30] and is 0 exactly at or beyond the blast radius of 100 |
| Combat.BlastDamageRange | game.js:607-612 | blast damage lies in [0, 30]; it is 0 exactly at or beyond the radius of 100, and it is the full 30 at the centre |
| Combat.BlastDamageFalls | game.js:610 | a farther detonation never does more damage |
| Removal.RemoveAt | game.js:417 | `splice(i, 1)` keeps the elements before i, shifts the elements after i down by one and drops exactly one copy of the element at i |
| Removal.ReverseSweepIsFilter | game.js:1015-1054 | a backward index walk that splices out each visited element that goes ends with exactly the elements that stay, in their order |
| Removal.ForwardSweepIsSkipping | game.js:484-487 | the forward walk with self-splice equals the element-by-element rule in which an element that goes shields its right neighbour from being examined |
| Removal.SkippingKeepsSurvivors | game.js:484-487 | the forward walk never drops an element that should stay, keeps the survivors in order and adds or duplicates nothing |
| Removal.SkippingExactWhenIsolated | game.js:1176-1178 | the forward walk removes exactly the elements that should go if and only if no two neighbouring elements both have to go; otherwise it leaves strictly more elements than a filter |
| Removal.SkipExample | game.js:1176 | of two neighbours that both have to go, the second survives the walk although a filter drops both |
| Removal.ForwardUpdateIsSkipping | game.js:1057-1063 | a forward walk that updates each visited element in place and may then splice it out equals the skipping rule with updates |
| Removal.UpdateSkipExample | game.js:1057-1063 | with an update, the second of two neighbours that both qualify stays, neither examined nor updated |
| Removal.FirstIndex | game.js:1019-1026 | the `for...of` with `break` finds no element iff none matches; otherwise it finds the first match, and no earlier element matches |
| Removal.FirstMatch | game.js:1019-1026 | the loop over enemies returns the index that `FirstIndex` specifies |
| Removal.Nearest | game.js:180-190 | the scan with a strict `<` finds nothing iff the list is empty; otherwise it finds an element no other element is nearer than, and every earlier element is strictly farther (ties go to the first) |
| Removal.FindNearest | game.js:180-190 | the `forEach` scan returns the index that `Nearest` specifies |
| Entities.PlayerRulesKeepOk | game.js:82-104 | a new player and a reset player have health within [0, maxHealth] and special charge within [0, 100]; hits, timers, pickups and upgrades keep both ranges |
| Entities.NewPlayer | game.js:73-105 | a new player is in range, at full health, with no charge, no shield and the trigger released |
| Entities.ResetStats | game.js:1291-1298 | a reset player is in range, at full health and without charge, and keeps its shot time, hit time, trigger and shield |
| Entities.Hurt | game.js:201-213 | a shielded player is unchanged; otherwise health strictly drops or ends at 0, and from a non-negative start it stays within [0, health]; only health and the hit time change |
| Entities.Timers | game.js:117-124 | from within the maximum, health neither falls nor exceeds the maximum; the shield can only go down; only health and the shield change |
| Entities.Collect | game.js:686-703 | a pickup keeps the player in range, and only a health pickup changes health |
| Entities.ApplyUpgrade | game.js:1388-1418 | setting a stat from its level keeps a valid player valid, changes only the health and the five upgradable stats, and a missile level changes nothing on the player |
| Entities.StatsFollowLevels | game.js:82-89 | a new player and a reset player get health 100·level at full, armor 10·level, speed 3 + 0.5·level, fire interval 150 − 10·level, damage 10·level and no charge; a reset keeps the shot and hit times, the firing flag and the shield with its start time |
| Entities.HurtEffect | game.js:201-213 | a shielded player is untouched; otherwise health falls by exactly max(1, amount − armor), stops at 0, and the hit time is recorded; the hit is fatal exactly when health ends at 0 |
| Entities.ArmorFloorExample | game.js:204 | with 10 armor, a 5-damage hit still costs 1 health |
| Entities.TimersEffect | game.js:117-124 | more than 5000 ms after the last hit health becomes exactly min(health + 0.5, maxHealth), so it does regenerate when below the maximum; up to 5000 ms it stays; the shield is still up iff it was up and at most 2000 ms have passed; nothing else changes |
| Entities.CollectEffect | game.js:686-703 | each pickup changes one field and nothing else: health becomes min(health + maxHealth·0.25, maxHealth), armor rises by 5, the fire interval becomes max(50, interval − 20) (exactly 20 shorter from 70 up), and a shield is raised at `now` |
| Entities.RapidFireCanSlowTheGun | game.js:694-695 | at fire-rate level 11 or above, the rapid-fire pickup lengthens the fire interval |
| Rules.UpgradeStatEffect | game.js:57-67 | a purchase succeeds iff credits ≥ price. On success credits fall by exactly the price and stay ≥ 0, and only that kind's level rises, by exactly one. On failure nothing changes. Only credits and levels are ever touched |
| Rules.UpgradeStat | game.js:57-67 | a purchase touches only the credits and the levels, and never raises the credits |
| Rules.ExactCreditsPurchase | game.js:57-67 | buying with exactly the price leaves 0 credits; a second try then fails and changes nothing |
| Rules.UpgradeButtonEffect | game.js:1387-1418 | an unaffordable press changes nothing; otherwise the world is what the purchase leaves, and of the player only the bought stat changes, to the value its new level dictates (maximum health also refills health); a missile upgrade leaves the player unchanged; with no player there is still none |
| Rules.UpgradeButton | game.js:1387-1422 | a button press is the purchase with only the player possibly replaced; an unaffordable press changes nothing; a player exists after it exactly when one existed before |
| Rules.HitPlayer | game.js:201-216 | a hit on the player touches none of the live arrays and keeps the player's health and charge in range |
| Rules.HitPlayerEffect | game.js:201-216 | a shielded player is unaffected; an unshielded player whose health reaches 0 is at game over; the only screen change is to game over; only the player and the screen change |
| Rules.PlayerFireEffect | game.js:148-168 | while the cooldown runs nothing changes; otherwise the shot time is `now` and exactly two bullets are appended, both player bullets with the player's damage, with the earlier bullets intact |
| Rules.PlayerFire | game.js:148-168 | firing leaves the enemies, pickups and bombs alone and keeps the player in range |
| Rules.PlayerUpdate | game.js:107-129 | the timer part of `update`, followed by a shot when the trigger is held, leaves the enemies, pickups and bombs alone and keeps the player in range |
| Rules.FireSpecialEffect | game.js:173-196 | without a full charge or an unlocked missile level nothing changes; otherwise the charge is emptied, 2 + level missiles are appended after the existing ones, each aimed at a first nearest enemy or at nothing when no enemy is alive, and nothing but the player, the missiles and the identity counter changes |
| Rules.FireSpecial | game.js:173-196 | the special keeps the player in range |
| Rules.Shots | game.js:384-387 | a volley is `count` enemy bullets, each carrying the enemy's damage |
| Rules.EnemyFireEffect | game.js:372-389 | while the enemy's cooldown runs nothing changes; otherwise its shot time is `now`, and a bomber appends one unarmed bomb that arms 500 ms later, an ace 3 enemy bullets and the others 1, with the enemy's damage |
| Rules.EnemyFire | game.js:372-389 | an enemy's shot keeps the number of enemies, the player and the pickups |
| Rules.Die | game.js:398-420 | the enemy leaves the list (the others keep their order); the wave's kills plus live enemies stay constant; the screen, wave and quota are unchanged |
| Rules.EnemyHitEffect | game.js:391-420 | the enemy loses exactly `amount` and, if still alive, nothing else changes. Otherwise it is removed with the others in order, its credits are paid, both kill counters rise by 1, the charge becomes min(charge + 10, 100), and at most one pickup is appended |
| Rules.EnemyHit | game.js:391-396 | damaging an enemy never brings an identity into the list and keeps the wave's kills plus live enemies constant |
| Rules.DieKeepsChargeInRange | game.js:405 | the special charge stays within [0, 100] through any kill |
| Rules.StartWaveEffect | game.js:805-813 | a wave starts with waveKills 0, the spawn timer back at 0 and a quota of 5 + 3·wave (at least 8 from wave 1 on); nothing else changes |
| Rules.WaveStartSpawns | game.js:805-813 | since every wave start resets the spawn timer, n frames into a new game there are min(n div 60, 5 + 3·wave) enemies, the next wave adds min(n div 60, 5 + 3·(wave + 1)) to the survivors, and a retry has min(n div 60, 8) |
| Rules.StartWave | game.js:805-813 | starting a wave leaves the player, the enemies and the screen as they are |
| Rules.SpawnEnemyEffect | game.js:815-840 | on a quota ≤ 0 nothing changes; otherwise exactly one enemy of the chosen type, at full health, is appended and the quota falls by one, so a non-negative quota stays non-negative |
| Rules.SpawnEnemy | game.js:815-840 | a spawn moves one enemy from the quota to the list or does nothing: quota plus live enemies is constant, the list grows by at most one at its end, and the player, waveKills and timer stay |
| Rules.SpawnTick | game.js:1167-1170 | each frame advances the spawn timer by one; a frame whose timer is not a multiple of 60 changes nothing else |
| Rules.SpawnCadence | game.js:1167-1170 | over n frames from timer t ≥ 0, exactly min((t + n) div 60 − t div 60, quota) enemies spawn: the quota falls by that number, the list grows by it at its end, and the player and waveKills stay |
| Rules.SpawnsPerSecond | game.js:1167-1170 | from a fresh wave (timer 0), n frames spawn exactly min(n div 60, quota) enemies |
| Rules.CheckWaveCompleteEffect | game.js:842-846 | the screen becomes wave-complete exactly when nothing is left to spawn and no enemy is alive (or it already was); nothing else changes |
| Rules.CheckWaveComplete | game.js:842-849 | the check changes nothing but the screen |
| Rules.DeadPlayerCanCompleteWave | game.js:842-849 | the check ignores the screen: a player killed in the frame in which the last enemy died still reaches the wave-complete screen |
| Rules.StartGameEffect | game.js:1271-1313 | a game starts playing with every live array empty, waveKills 0, a quota of 5 + 3·wave, and a player at full health with the levels' maximum and no charge; the spawn timer restarts at 0; credits, wave, kills, levels and the identity counter carry over, and nothing else changes |
| Rules.StartGame | game.js:1271-1313 | a started game always has a player |
| Rules.RetryEffect | game.js:1365-1372 | retry restarts at wave 1 with the kill total cleared, a quota of 8 and the spawn timer at 0, keeping the credits |
| Rules.Retry | game.js:1365-1372 | retry plays wave 1 with no kills and no enemies, keeping the credits |
| Rules.EndGame | game.js:1315-1327 | game over switches the screen to game over and keeps everything else; with a player this keeps the world invariant (TransitionsKeepConsistent) |
| Rules.ReturnToMenu | game.js:1329-1338 | going to the menu switches the screen and keeps everything else, so it keeps the world invariant (TransitionsKeepConsistent) |
| Rules.OpenHangar | game.js:1340-1349 | opening the hangar switches the screen and keeps everything else, so it keeps the world invariant (TransitionsKeepConsistent) |
| Rules.NextWaveEffect | game.js:1351-1363 | the next wave raises the wave number by one, plays again with a fresh quota, waveKills 0 and the spawn timer at 0, and changes nothing else: the player, every entity of the last wave, the credits, kills and levels stay |
| Rules.NextWave | game.js:1351-1363 | the next wave is played with the wave number one higher, the same enemies and the same player |
| Collisions.BulletStepEffect | game.js:1015-1027 | a player bullet that overlaps no enemy, and every enemy bullet, leaves the world unchanged; otherwise the first overlapping enemy in list order alone takes the bullet's damage and the bullet is removed |
| Collisions.BulletStep | game.js:1016-1027 | one bullet's test keeps the wave accounting, the missiles and a sane player, removes at most that bullet, and can change the screen only to game over |
| Collisions.BulletPass | game.js:1015-1027 | pass 1 keeps the wave accounting, the missiles and a sane player, never adds a bullet, and can change the screen only to game over |
| Collisions.BulletPassKeepsHarmless | game.js:1015-1027 | the backward bullet loop keeps, in order, every bullet that cannot hit a live enemy, and adds or duplicates no bullet |
| Collisions.BulletPassEffect | game.js:1015-1027 | after pass 1, every enemy bullet and every player bullet that overlaps no enemy alive at the start is still there, in order, and no bullet is added or duplicated |
| Collisions.MissilePassKeepsHarmless | game.js:1030-1042 | the backward missile loop keeps, in order, every missile that cannot hit a live enemy, and adds or duplicates no missile |
| Collisions.MissileStepEffect | game.js:1031-1042 | a missile that overlaps no enemy leaves the world unchanged; otherwise the first overlapping enemy in list order alone takes 50 damage and the missile is removed |
| Collisions.MissileStep | game.js:1031-1042 | one missile's test keeps the wave accounting, the bullets and a sane player, removes at most that missile, and can change the screen only to game over |
| Collisions.MissilePass | game.js:1030-1042 | pass 2 keeps the wave accounting, the bullets and a sane player, never adds a missile, and can change the screen only to game over |
| Collisions.MissilePassEffect | game.js:1030-1042 | after pass 2, every missile that overlaps no enemy alive at the start is still there, in order, and none is added or duplicated |
| Collisions.PlayerHitPass | game.js:1045-1054 | pass 3 removes exactly the enemy bullets over the player by the backward walk; enemies, missiles and the wave accounting are untouched; the only possible screen change is to game over |
| Collisions.PlayerHitPassEffect | game.js:1045-1054 | every enemy bullet over the player is consumed, not only the first: what remains is exactly the bullets that do not hit, in order |
| Collisions.PlayerHitStep | game.js:1046-1053 | one backward step of pass 3: a bullet over the player is removed (and hurts the player), any other leaves the bullets as they were; a valid player stays valid |
| Collisions.TwoHitsInOneCheck | game.js:1045-1054 | two enemy bullets over an unshielded player both land in one check, each through the armor |
| Collisions.ShieldAbsorbsPass | game.js:201 | a shielded player and the screen are untouched by pass 3, yet the bullets that hit are still consumed |
| Collisions.ContactPass | game.js:1057-1063 | the contact loop is the forward walk that wears each touching enemy by 50 and removes it when that kills it; the player takes one 20-point hit per touching enemy the walk examines, and nothing else changes for the player but the charge its kills earn; the wave accounting is conserved |
| Collisions.ContactSkipsNeighbour | game.js:1057-1063 | of two adjacent touching enemies that the contact would both kill, the second stays exactly as it was, undamaged, the wave books one kill, and the player takes a single 20-point hit instead of two |
| Collisions.NoContactNoChange | game.js:1057-1063 | with no touching enemy, the contact loop changes nothing |
| Collisions.CheckCollisions | game.js:1013-1064 | the four passes never bring an enemy identity into the list, keep kills plus live enemies constant, keep the player in range, and change the screen only to game over |
| GameLoop.UpdateBullets | game.js:479-488 | the bullet `forEach` with expiry changes only the bullet list, and it changes it by the skipping rule |
| GameLoop.UpdateMissiles | game.js:542-546 | the missile `forEach` with expiry changes only the missile list, and it changes it by the skipping rule |
| GameLoop.BulletExpiryEffect | game.js:479-488 | every live bullet survives the expiry pass, in order, with nothing duplicated; the expired ones all go if and only if no two are neighbours, and otherwise some expired bullet lives one more frame; of two expired bullets alone in the list the second survives |
| GameLoop.MissileExpiryEffect | game.js:542-546 | every live missile survives the expiry pass, in order, with nothing duplicated; the expired ones all go if and only if no two are neighbours, and otherwise some expired missile lives one more frame; of two expired missiles alone in the list the second survives |
| GameLoop.EnemyPass | game.js:367-369 | the enemy `forEach` only fires: it keeps the number of enemies, and changes nothing about them but their shot times; the player, pickups and wave accounting stay, and bullets and bombs only gain new shots at the end |
| GameLoop.BombPass | game.js:588-616 | the bomb `forEach` changes only the bomb list, the player and the screen, the list by the skipping rule with arming, and keeps the player in range |
| GameLoop.BombArming | game.js:585 | a bomb goes off only once armed or past its arm time; a bomb dropped at t cannot go off at any time up to t + 500; a bomb out of range never goes off |
| GameLoop.ExplodeDamage | game.js:604-612 | a detonation costs the unshielded player the armored falloff damage, at most 30 before armor |
| GameLoop.Explode | game.js:604-616 | a detonation removes the bomb and keeps the player in range |
| GameLoop.PickupPass | game.js:668-708 | the pickup `forEach` changes only the pickups and the player, the pickups by the skipping rule, and keeps the player in range |
| GameLoop.CollectAt | game.js:686-708 | collecting the pickup at index k removes exactly that pickup, changes only the pickups and the player, and keeps a valid player valid |
| GameLoop.Tick | game.js:1156-1204 | a frame outside the playing screen changes nothing |
| GameLoop.UpdatesKeepBalance | game.js:1156-1182 | the player update, spawn and `forEach` passes of a frame keep kills + quota + live enemies = 5 + 3·wave, the wave number and the player in range, and can only end the game |
| GameLoop.TickKeepsConsistent | game.js:1156-1204 | a frame keeps the invariant: a player in range on every game screen, kills + quota + live enemies = 5 + 3·wave while playing, and an empty, exhausted, fully-killed wave on the wave-complete screen. A wave completes only after all its enemies are killed |
| GameLoop.TransitionsKeepConsistent | game.js:1271-1372 | starting, retrying, going to the menu or hangar, buying upgrades, firing the special (with a player), the next wave (from wave-complete) and game over (with a player) keep the invariant |
| GameLoop.InitialConsistent | game.js:28-50 | the page starts in a consistent state |
| Sim.Player.constructor | game.js:73-105 | the new player has the stats the levels dictate, at full health |
| Sim.Player.TakeDamage | game.js:201-216 | the fields change as `Hurt` specifies, and the result reports exactly a fatal hit |
| Sim.Player.UpdateTimers | game.js:117-124 | the fields change as `Timers` specifies |
| Sim.Player.ResetStats | game.js:1291-1298 | the fields change as the reset of `startGame` specifies |
| Sim.Player.ApplyUpgrade | game.js:1387-1418 | the fields change as the upgrade button specifies |
| Sim.Player.Collect | game.js:686-703 | the fields change as `Collect` specifies |
| Sim.Game.constructor | game.js:28-50 | the initial globals, which satisfy the invariant |
| Sim.Game.UpgradeStat | game.js:57-67 | the purchase in place; it reports success exactly when affordable |
| Sim.Game.UpgradeButton | game.js:1387-1422 | the button handler in place |
| Sim.Game.HitPlayer | game.js:201-216 | `takeDamage` plus `gameOver` on a fatal hit, in place |
| Sim.Game.PlayerFire | game.js:148-168 | `fire` in place |
| Sim.Game.PlayerUpdate | game.js:107-129 | `update` (timers and trigger) in place |
| Sim.Game.FireSpecial | game.js:173-196 | `fireSpecial` in place, with the nearest-enemy scan |
| Sim.Game.Launch | game.js:192-196 | the missile loop appends the salvo with consecutive identities |
| Sim.Game.EnemyFire | game.js:372-389 | `Enemy.fire` in place |
| Sim.Game.FireShots | game.js:383-387 | the bullet loop appends the volley with consecutive identities |
| Sim.Game.Die | game.js:398-420 | `die` in place |
| Sim.Game.EnemyTakeDamage | game.js:391-396 | `takeDamage` in place; the enemy list never grows |
| Sim.Game.StartWave | game.js:805-813 | `startWave` in place |
| Sim.Game.SpawnEnemy | game.js:815-840 | `spawnEnemy` in place, with the three overriding band tests |
| Sim.Game.SpawnTick | game.js:1167-1170 | the spawn cadence in place |
| Sim.Game.CheckWaveComplete | game.js:842-849 | `checkWaveComplete` in place |
| Sim.Game.StartGame | game.js:1271-1313 | `startGame` in place; an existing player object is kept, and a first game allocates one |
| Sim.Game.SetUpPlayer | game.js:1287-1299 | creates or resets the player |
| Sim.Game.ClearArrays | game.js:1301-1307 | empties the live arrays |
| Sim.Game.EndGame | game.js:1315-1327 | `gameOver` in place |
| Sim.Game.ReturnToMenu | game.js:1329-1338 | `returnToMenu` in place |
| Sim.Game.OpenHangar | game.js:1340-1349 | `openHangar` in place |
| Sim.Game.NextWave | game.js:1351-1363 | `nextWave` in place |
| Sim.Game.Retry | game.js:1365-1372 | `retry` in place |
| Sim.Game.BulletStep | game.js:1016-1027 | one iteration of pass 1 in place |
| Sim.Game.BulletHits | game.js:1015-1027 | the backward loop of pass 1 in place |
| Sim.Game.MissileStep | game.js:1031-1042 | one iteration of pass 2 in place |
| Sim.Game.MissileHits | game.js:1030-1042 | the backward loop of pass 2 in place |
| Sim.Game.PlayerHitStep | game.js:1046-1053 | one iteration of pass 3 in place |
| Sim.Game.PlayerHits | game.js:1045-1054 | the backward loop of pass 3 in place |
| Sim.Game.ContactStep | game.js:1058-1062 | one iteration of the contact loop in place; the enemy list never grows |
| Sim.Game.ContactHits | game.js:1057-1063 | the contact `for...of` in place |
| Sim.Game.CheckCollisions | game.js:1013-1064 | `checkCollisions` in place |
| Sim.Game.EnemyPass | game.js:1173 | `enemies.forEach(update)` in place |
| Sim.Game.UpdateBullets | game.js:1176 | `bullets.forEach(update)` in place |
| Sim.Game.UpdateMissiles | game.js:1177 | `missiles.forEach(update)` in place |
| Sim.Game.BombStep | game.js:588-602 | one bomb update in place; the bomb list never grows |
| Sim.Game.BombPass | game.js:1178 | `bombs.forEach(update)` in place |
| Sim.Game.Explode | game.js:604-616 | `explode` in place |
| Sim.Game.PickupPass | game.js:1181 | `pickups.forEach(update)` in place |
| Sim.Game.Tick | game.js:1156-1204 | one frame of `gameLoop` in place |

## Left out

- Drawing, the HUD, the hangar labels, the screen `classList` toggling and the sounds: presentation only. The transitions keep only their changes to `game.state` and the counters.
- Keyboard, mouse, touch and joystick handling, `handleInput`, `Player.move` and `aimAt`: input. The trigger flag `isFiring` is part of the player state, and `fireSpecial` is an operation of its own rather than a key handler.
- All motion: velocities, steering, missile homing and the pickup magnet. Trigonometry is floating-point geometry. Every distance test is a parameter keyed by entity identity, so positions, angles, the missile's `target` pursuit and bullet spread do not appear.
- `updateCamera`, screen shake, `createExplosion` and particles: cosmetic and random. The particle `forEach` is not modelled.
- The `setTimeout` that restores the fire rate ten seconds after a rapid-fire pickup: it is a detached timer. Only the immediate `max(50, fireRate − 20)` is modelled.
- `Date.now()` is one `now` value per frame. The source reads the clock separately in each call, and those readings can differ by a few milliseconds within a frame.
- `Math.random()` becomes explicit rolls. The drop and type rolls of a dying enemy are a `LootRoll` looked up by the enemy's identity.
- Upgrades.Cost: computed over exact rationals. The float rounding of `Math.pow` and of the product before `Math.floor` is not modelled.
- Object identity is an integer `id` handed out from `nextId`. `indexOf(this)` is the index the walk is at, which is the same element, because identities are unique.
- `forEach` fixes the number of indices it visits when it starts and skips indices that no longer hold an element. For walks that only remove elements this visits exactly the indices below the current length, which is what the forward walk models.
- Enemy health and the missile's damage are integers, and player health is a real. A fractional blast hit is therefore exact.
- The player's speed stat is kept, but the movement that uses it is left out.
- MissilePassEffect: over the whole pass it states only which missiles survive. The 50-point hit on the first overlapped enemy is stated one missile at a time by `MissileStepEffect`, because the enemy a later missile meets depends on the hits before it. A missile whose only overlapped enemy died earlier in the pass stays.
- The `waveCredits` label (waveKills × 10) is display only and credits nothing.
