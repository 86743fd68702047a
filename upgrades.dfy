/** The hangar's upgrade ledger: six upgrade kinds, each with a level, a base
    cost and a cost growth multiplier, and the player stats derived from the
    levels. Costs are computed over exact rationals. */
module Upgrades {

  datatype UpgradeKind = MaxHealth | Armor | Speed | FireRate | Damage | Missiles

  /** Base cost of the first purchase of a kind. */
  function BaseCost(k: UpgradeKind): nat {
    if k == Missiles then 500 else 100
  }

  /** Growth factor of the cost from one level to the next. */
  function Multiplier(k: UpgradeKind): real {
    if k == Missiles then 1.3 else 1.5
  }

  /** Level a kind has before anything is bought: missiles start locked. */
  function StartLevel(k: UpgradeKind): nat {
    if k == Missiles then 0 else 1
  }

  /** The level of every upgrade kind (the `level` fields of the `upgrades` table). */
  datatype Ledger = Ledger(maxHealth: nat, armor: nat, speed: nat, fireRate: nat, damage: nat, missiles: nat)
  {
    function Level(k: UpgradeKind): nat {
      match k
      case MaxHealth => maxHealth
      case Armor => armor
      case Speed => speed
      case FireRate => fireRate
      case Damage => damage
      case Missiles => missiles
    }

    /** The ledger with kind k one level higher (`upgrades[k].level++`). */
    function Bump(k: UpgradeKind): (l: Ledger)
      ensures l.Level(k) == Level(k) + 1
      ensures forall j :: j != k ==> l.Level(j) == Level(j)
    {
      match k
      case MaxHealth => this.(maxHealth := maxHealth + 1)
      case Armor => this.(armor := armor + 1)
      case Speed => this.(speed := speed + 1)
      case FireRate => this.(fireRate := fireRate + 1)
      case Damage => this.(damage := damage + 1)
      case Missiles => this.(missiles := missiles + 1)
    }
  }

  function InitialLedger(): (l: Ledger)
    ensures forall k :: l.Level(k) == StartLevel(k)
  {
    Ledger(1, 1, 1, 1, 1, 0)
  }

  /** m raised to an integer power; a negative exponent divides. */
  function Pow(m: real, e: int): (r: real)
    requires m > 0.0
    ensures r > 0.0
    decreases if e < 0 then -e else e
  {
    if e == 0 then 1.0
    else if e > 0 then m * Pow(m, e - 1)
    else Pow(m, e + 1) / m
  }

  /** Price of the next purchase of kind k at level `level`:
      floor(baseCost * multiplier^(level - 1)). At level 0 the exponent is -1.
      From level 1 on the price is at least the base cost. */
  function Cost(k: UpgradeKind, level: nat): (c: nat)
    ensures level >= 1 ==> c >= BaseCost(k)
  {
    var x := BaseCost(k) as real * Pow(Multiplier(k), level - 1);
    assert level >= 1 ==> x >= BaseCost(k) as real by {
      if level >= 1 { PowAtLeastOne(Multiplier(k), level - 1); }
    }
    x.Floor
  }

  lemma {:induction false} PowAtLeastOne(m: real, e: nat)
    requires m >= 1.0
    ensures Pow(m, e) >= 1.0
  {
    if e > 0 {
      PowAtLeastOne(m, e - 1);
      assert Pow(m, e) == m * Pow(m, e - 1);
    }
  }

  lemma {:induction false} PowStep(m: real, e: int)
    requires m > 0.0
    ensures Pow(m, e + 1) == m * Pow(m, e)
    decreases if e < 0 then -e else e
  {
    if e < -1 {
      PowStep(m, e + 1);
    }
  }

  /** With a multiplier above 1 each power is strictly larger than the previous one. */
  lemma PowGrows(m: real, e: int)
    requires m > 1.0
    ensures Pow(m, e) < Pow(m, e + 1)
  {
    PowStep(m, e);
    var p := Pow(m, e);
    var d := m - 1.0;
    assert d * p > 0.0;
    assert m * p == p + d * p;
  }

  /** The cost of a kind never falls as its level rises (every multiplier exceeds 1). */
  lemma CostNonDecreasing(k: UpgradeKind, level: nat)
    ensures Cost(k, level) <= Cost(k, level + 1)
  {
    PowGrows(Multiplier(k), level - 1);
  }

  lemma {:induction false} CostMonotone(k: UpgradeKind, a: nat, b: nat)
    requires a <= b
    ensures Cost(k, a) <= Cost(k, b)
    decreases b - a
  {
    if a < b {
      CostNonDecreasing(k, a);
      CostMonotone(k, a + 1, b);
    }
  }

  /** Unlocking missiles (level 0) costs floor(500 / 1.3) = 384; the other kinds
      start at their base cost of 100. */
  lemma StartingCosts()
    ensures Cost(Missiles, 0) == 384
    ensures forall k :: k != Missiles ==> Cost(k, StartLevel(k)) == 100
  {
    assert Pow(1.3, -1) == 1.0 / 1.3;
  }

  // Player stats derived from the levels (constructor and startGame reset).

  function MaxHealthAt(level: nat): int { 100 * level }
  function ArmorAt(level: nat): int { 10 * level }
  function SpeedAt(level: nat): real { 3.0 + level as real * 0.5 }
  function FireRateAt(level: nat): int { 150 - level * 10 }
  function DamageAt(level: nat): int { 10 * level }
}
