// The battery widget's classification (pwa/src/components/BatteryWidget.tsx):
// which of five icons a level selects, and whether the level counts as low.
// Levels are JavaScript numbers, modelled as reals; null is None.
module Battery {
  import opened Bytes

  /** The five icons, from empty to full. */
  datatype Icon = Empty | Quarter | Half | ThreeQuarters | Full

  /** The order of the icons: how many quarters they show. */
  function Rank(i: Icon): nat
  {
    match i
    case Empty => 0
    case Quarter => 1
    case Half => 2
    case ThreeQuarters => 3
    case Full => 4
  }

  /** getBatteryIcon. */
  function BatteryIcon(level: Option<real>): Icon
  {
    if level.None? then Empty
    else if level.value >= 87.5 then Full
    else if level.value >= 62.5 then ThreeQuarters
    else if level.value >= 37.5 then Half
    else if level.value >= 12.5 then Quarter
    else Empty
  }

  /** isBatteryLow. */
  predicate IsBatteryLow(level: Option<real>)
  {
    level.Some? && level.value < 15.0
  }

  /** The thresholds, in increasing order. */
  const Thresholds: seq<real> := [12.5, 37.5, 62.5, 87.5]

  /** How many of the thresholds a level reaches. */
  function Reached(level: real, ts: seq<real>): nat
  {
    if ts == [] then 0
    else Reached(level, ts[..|ts| - 1]) + (if level >= ts[|ts| - 1] then 1 else 0)
  }

  /** The icon shows one quarter per threshold the level reaches; null shows the empty icon. */
  lemma IconCountsThresholds(level: Option<real>)
    ensures Rank(BatteryIcon(level)) == if level.None? then 0 else Reached(level.value, Thresholds)
  {
    if level.Some? {
      var l := level.value;
      var t3, t2, t1: seq<real> := [12.5, 37.5, 62.5], [12.5, 37.5], [12.5];
      assert Thresholds[..3] == t3 && t3[..2] == t2 && t2[..1] == t1 && t1[..0] == [];
      assert Reached(l, t1) == if l >= 12.5 then 1 else 0;
      assert Reached(l, t2) == Reached(l, t1) + if l >= 37.5 then 1 else 0;
      assert Reached(l, t3) == Reached(l, t2) + if l >= 62.5 then 1 else 0;
      assert Reached(l, Thresholds) == Reached(l, t3) + if l >= 87.5 then 1 else 0;
    }
  }

  /** Reached never decreases as the level grows, for any thresholds. */
  lemma {:induction false} ReachedMonotone(a: real, b: real, ts: seq<real>)
    requires a <= b
    ensures Reached(a, ts) <= Reached(b, ts)
  {
    if ts != [] {
      ReachedMonotone(a, b, ts[..|ts| - 1]);
    }
  }

  /** A higher level never selects a lower icon. */
  lemma IconMonotone(a: real, b: real)
    requires a <= b
    ensures Rank(BatteryIcon(Some(a))) <= Rank(BatteryIcon(Some(b)))
  {
    IconCountsThresholds(Some(a));
    IconCountsThresholds(Some(b));
    ReachedMonotone(a, b, Thresholds);
  }

  /** For whole-number levels the thresholds are 88, 63, 38 and 13. */
  lemma IntegerBands(l: int)
    ensures BatteryIcon(Some(l as real)) == Full <==> l >= 88
    ensures BatteryIcon(Some(l as real)) == ThreeQuarters <==> 63 <= l < 88
    ensures BatteryIcon(Some(l as real)) == Half <==> 38 <= l < 63
    ensures BatteryIcon(Some(l as real)) == Quarter <==> 13 <= l < 38
    ensures BatteryIcon(Some(l as real)) == Empty <==> l < 13
  {
  }

  /** A low battery never shows more than a quarter, and a level showing the empty icon is low. */
  lemma LowMeansAtMostAQuarter(level: Option<real>)
    ensures IsBatteryLow(level) ==> Rank(BatteryIcon(level)) <= 1
    ensures level.Some? && BatteryIcon(level) == Empty ==> IsBatteryLow(level)
    ensures !IsBatteryLow(None) && BatteryIcon(None) == Empty
  {
  }

  /** For whole-number levels, low means 14 or below. */
  lemma IntegerLow(l: int)
    ensures IsBatteryLow(Some(l as real)) <==> l <= 14
  {
  }
}
