/**
 * The character record of the website: alignment axes, species, classes,
 * the record itself, its defaults and its total level.
 */
module Props {
  import opened Wrappers

  /** An unsigned 32-bit value, the width of the record's numeric fields. */
  newtype u32 = x: int | 0 <= x < 0x1_0000_0000

  datatype Morality = Good | Neutral | Evil

  /** The error `Morality::from_str` reports; it carries nothing. */
  datatype InvalidMorality = InvalidMorality

  datatype Order = Lawful | Neutral | Chaotic

  /** The error `Order::from_str` reports; it carries nothing. */
  datatype InvalidOrder = InvalidOrder

  /** The variant's name, as the derived `Debug` writes it. */
  function MoralityName(m: Morality): string
  {
    match m
    case Good => "Good"
    case Neutral => "Neutral"
    case Evil => "Evil"
  }

  /** The variant's name, as the derived `Debug` writes it. */
  function OrderName(o: Order): string
  {
    match o
    case Lawful => "Lawful"
    case Neutral => "Neutral"
    case Chaotic => "Chaotic"
  }

  /**
   * `Morality::from_str`: only the exact variant names are accepted, so the
   * parser inverts `MoralityName` and rejects every other string (other case,
   * surrounding spaces, the empty string).
   */
  function ParseMorality(s: string): (r: Result<Morality, InvalidMorality>)
    ensures forall m :: r == Success(m) <==> s == MoralityName(m)
    ensures r.Failure? <==> forall m :: s != MoralityName(m)
  {
    match s
    case "Good" => Success(Morality.Good)
    case "Neutral" => Success(Morality.Neutral)
    case "Evil" => Success(Morality.Evil)
    case _ => Failure(InvalidMorality)
  }

  /**
   * `Order::from_str`: only the exact variant names are accepted, so the
   * parser inverts `OrderName` and rejects every other string.
   */
  function ParseOrder(s: string): (r: Result<Order, InvalidOrder>)
    ensures forall o :: r == Success(o) <==> s == OrderName(o)
    ensures r.Failure? <==> forall o :: s != OrderName(o)
  {
    match s
    case "Lawful" => Success(Order.Lawful)
    case "Neutral" => Success(Order.Neutral)
    case "Chaotic" => Success(Order.Chaotic)
    case _ => Failure(InvalidOrder)
  }

  datatype Species = Human | Elf | Dwarf | Orc | Halfling | Gnome | Tiefling

  datatype Class =
    | Artificer | Barbarian | Bard | Cleric | Druid | Fighter
    | Monk | Paladin | Ranger | Rogue | Sorcerer | Wizard

  /** Every class, in declaration order. */
  const AllClasses: seq<Class> :=
    [Artificer, Barbarian, Bard, Cleric, Druid, Fighter,
     Monk, Paladin, Ranger, Rogue, Sorcerer, Wizard]

  /**
   * The record. The six ability scores are the source's `str`, `dex`, `con`,
   * `int`, `wis` and `cha`; `classes` maps each class taken to its level.
   */
  datatype Character = Character(
    name: string,
    species: Species,
    classes: map<Class, u32>,
    alignment: (Order, Morality),
    origin: string,
    strength: u32,
    dexterity: u32,
    constitution: u32,
    intelligence: u32,
    wisdom: u32,
    charisma: u32)
  {
    /** `Character::new`: the record a fresh sheet starts from. */
    static function New(): (c: Character)
      ensures c.name == "<unnamed>" && c.origin == "<not chosen>"
      ensures c.species == Human
      ensures c.alignment == (Order.Neutral, Morality.Neutral)
      ensures c.strength == c.dexterity == c.constitution == 10
      ensures c.intelligence == c.wisdom == c.charisma == 10
      ensures c.classes == map[] && c.TotalLevel() == 0
    {
      LevelSumOfNone(AllClasses);
      Character("<unnamed>", Human, map[], (Order.Neutral, Morality.Neutral), "<not chosen>",
                10, 10, 10, 10, 10, 10)
    }

    /** `total_level`: the levels of all classes taken, added up in any order. */
    function TotalLevel(): (total: nat)
      ensures total == SumOfLevels(classes)
    {
      LevelSumIsSumOfLevels(classes);
      LevelSum(AllClasses, classes)
    }
  }

  /** The level of class `c`, zero when it was never taken. */
  function LevelOf(classes: map<Class, u32>, c: Class): nat
  {
    if c in classes then classes[c] as nat else 0
  }

  /** The levels of the classes listed in `cs`, added up. */
  function LevelSum(cs: seq<Class>, classes: map<Class, u32>): nat
  {
    if cs == [] then 0 else LevelOf(classes, cs[0]) + LevelSum(cs[1..], classes)
  }

  /**
   * The sum of the map's values taken in an arbitrary order, as a hash map's
   * iterator visits them: the reference that `TotalLevel` is measured against.
   */
  ghost function SumOfLevels(classes: map<Class, u32>): nat
    decreases |classes|
  {
    if classes == map[] then 0
    else
      var c :| c in classes;
      assert |classes - {c}| < |classes| by { MapRemoveSize(classes, c); }
      classes[c] as nat + SumOfLevels(classes - {c})
  }

  lemma MapRemoveSize(classes: map<Class, u32>, c: Class)
    requires c in classes
    ensures |classes - {c}| == |classes| - 1
  {
    assert (classes - {c}).Keys == classes.Keys - {c};
  }

  lemma {:induction false} LevelSumOfNone(cs: seq<Class>)
    ensures LevelSum(cs, map[]) == 0
  {
    if cs != [] {
      LevelSumOfNone(cs[1..]);
    }
  }

  /** No class is listed twice. */
  predicate Distinct(cs: seq<Class>)
  {
    forall i, j :: 0 <= i < j < |cs| ==> cs[i] != cs[j]
  }

  /** Dropping class `k` from the map lowers the sum by its level when `k` is listed. */
  lemma {:induction false} LevelSumRemove(cs: seq<Class>, classes: map<Class, u32>, k: Class)
    requires k in classes && Distinct(cs)
    ensures LevelSum(cs, classes) == (if k in cs then classes[k] as nat else 0) + LevelSum(cs, classes - {k})
  {
    if cs != [] {
      var tail := cs[1..];
      assert Distinct(tail);
      LevelSumRemove(tail, classes, k);
      assert k in cs <==> cs[0] == k || k in tail;
      if cs[0] == k {
        assert k !in tail;
        assert LevelOf(classes - {k}, k) == 0;
      } else {
        assert LevelOf(classes - {k}, cs[0]) == LevelOf(classes, cs[0]);
      }
    }
  }

  lemma EveryClassListed(k: Class)
    ensures k in AllClasses && Distinct(AllClasses)
  {
  }

  /** The level of a class taken is part of the total exactly once. */
  lemma TotalLevelRemove(c: Character, k: Class)
    requires k in c.classes
    ensures c.TotalLevel() == c.classes[k] as nat + c.(classes := c.classes - {k}).TotalLevel()
  {
    EveryClassListed(k);
    LevelSumRemove(AllClasses, c.classes, k);
  }

  /** No single class's level exceeds the total level. */
  lemma LevelAtMostTotal(c: Character, k: Class)
    requires k in c.classes
    ensures c.classes[k] as nat <= c.TotalLevel()
  {
    TotalLevelRemove(c, k);
  }

  /** Setting one class's level changes the total by exactly the difference. */
  lemma TotalLevelUpdate(c: Character, k: Class, level: u32)
    ensures c.(classes := c.classes[k := level]).TotalLevel()
            == c.TotalLevel() - LevelOf(c.classes, k) + level as nat
  {
    var updated := c.(classes := c.classes[k := level]);
    TotalLevelRemove(updated, k);
    assert updated.classes - {k} == c.classes - {k};
    if k in c.classes {
      TotalLevelRemove(c, k);
    } else {
      assert c.classes - {k} == c.classes;
    }
  }

  /**
   * Adding up the levels class by class in declaration order gives the same
   * total as adding them up in whatever order the map's entries are visited.
   */
  lemma {:induction false} LevelSumIsSumOfLevels(classes: map<Class, u32>)
    ensures LevelSum(AllClasses, classes) == SumOfLevels(classes)
    decreases |classes|
  {
    if classes == map[] {
      LevelSumOfNone(AllClasses);
    } else {
      forall k | k in classes
        ensures LevelSum(AllClasses, classes) == classes[k] as nat + SumOfLevels(classes - {k})
      {
        MapRemoveSize(classes, k);
        LevelSumIsSumOfLevels(classes - {k});
        EveryClassListed(k);
        LevelSumRemove(AllClasses, classes, k);
      }
    }
  }
}
