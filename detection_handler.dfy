/**
 * The detection-count smoother of src/lib/objectDetectionHandler.ts: a
 * per-object hit counter kept in a JavaScript `Map`, and the query that
 * reports the most detected object once its count passes `maxCount`.
 */
module ObjectDetection {
  import opened Wrappers

  /** An entry of `Map.prototype.entries()`: an object name and its count. */
  type Entry = (string, int)

  /**
   * A JavaScript `Map<string, number>`: the keys in insertion order and the
   * value stored under each.
   */
  datatype CountMap = CountMap(keys: seq<string>, values: map<string, int>) {

    /** Every key is listed once, and the listed keys are exactly those stored. */
    ghost predicate Valid() {
      && (forall i, j :: 0 <= i < j < |keys| ==> keys[i] != keys[j])
      && (forall k :: k in values <==> k in keys)
    }

    /** Every stored count is at least 1. */
    ghost predicate Positive() {
      forall k :: k in values ==> values[k] >= 1
    }

    /** `Map.prototype.get`: `None` stands for `undefined`. */
    function Get(k: string): (r: Option<int>)
      ensures r.Some? <==> k in values
      ensures r.Some? ==> r.value == values[k]
    {
      if k in values then Some(values[k]) else None
    }

    /**
     * `Map.prototype.set`: an existing key keeps its place in the iteration
     * order, a new key goes last.
     */
    function Set(k: string, v: int): (m: CountMap)
      requires Valid()
      ensures m.Valid()
      ensures m.Get(k) == Some(v)
      ensures forall k' :: k' != k ==> m.Get(k') == Get(k')
      ensures k in values ==> m.keys == keys
      ensures k !in values ==> m.keys == keys + [k]
    {
      CountMap(if k in values then keys else keys + [k], values[k := v])
    }

    /** The count of `name` after `updateDetectionCount(name)`: `(get(name) || 0) + 1`. */
    function Increment(name: string): (m: CountMap)
      requires Valid()
      ensures m.Valid()
      ensures m.Get(name) == Some(Get(name).GetOr(0) + 1)
      ensures forall k :: k != name ==> m.Get(k) == Get(k)
      ensures |keys| <= |m.keys| && m.keys[..|keys|] == keys
      ensures |m.keys| == |keys| + (if name in values then 0 else 1)
      ensures Positive() ==> m.Positive()
    {
      Set(name, Get(name).GetOr(0) + 1)
    }

    /** `Array.from(map.entries())`, in insertion order. */
    function Entries(): (es: seq<Entry>)
      requires Valid()
      ensures |es| == |keys|
      ensures forall i :: 0 <= i < |keys| ==> es[i] == (keys[i], values[keys[i]])
    {
      seq(|keys|, i requires 0 <= i < |keys| && Valid() => (keys[i], values[keys[i]]))
    }
  }

  /** The map after `new Map()` or `clear()`: no key, so every lookup is `undefined`. */
  function EmptyMap(): (m: CountMap)
    ensures m.Valid() && m.Positive()
    ensures |m.keys| == 0
    ensures forall k :: m.Get(k) == None
  {
    CountMap([], map[])
  }

  /** The reducer of getMostDetectedObject: the strict `>` keeps the earlier entry on a tie. */
  function PickMax(maxEntry: Entry, currentEntry: Entry): (r: Entry)
    ensures r == maxEntry || r == currentEntry
    ensures r.1 >= maxEntry.1 && r.1 >= currentEntry.1
    ensures currentEntry.1 <= maxEntry.1 ==> r == maxEntry
  {
    if currentEntry.1 > maxEntry.1 then currentEntry else maxEntry
  }

  /**
   * `es.reduce(PickMax, seed)`, a left fold: the result is the seed or one
   * of the entries, and no entry and not the seed has a larger count.
   */
  function Reduce(es: seq<Entry>, seed: Entry): (r: Entry)
    ensures r == seed || r in es
    ensures r.1 >= seed.1
    ensures forall j :: 0 <= j < |es| ==> es[j].1 <= r.1
    decreases |es|
  {
    if es == [] then seed else PickMax(Reduce(es[..|es| - 1], seed), es[|es| - 1])
  }

  /**
   * Position `i` holds the first maximal count of `es`: no count exceeds
   * it, and every earlier count is strictly smaller.
   */
  ghost predicate IsFirstMax(es: seq<Entry>, i: int) {
    && 0 <= i < |es|
    && (forall j :: 0 <= j < |es| ==> es[j].1 <= es[i].1)
    && (forall j :: 0 <= j < i ==> es[j].1 < es[i].1)
  }

  /** When no count exceeds the seed's, the fold returns the seed. */
  lemma {:induction false} ReduceKeepsSeed(es: seq<Entry>, seed: Entry)
    requires forall j :: 0 <= j < |es| ==> es[j].1 <= seed.1
    ensures Reduce(es, seed) == seed
  {
    if es != [] {
      ReduceKeepsSeed(es[..|es| - 1], seed);
    }
  }

  /** The fold returns the first entry with the maximal count, provided it beats the seed. */
  lemma {:induction false} ReduceFirstMax(es: seq<Entry>, seed: Entry, i: int)
    requires IsFirstMax(es, i) && seed.1 < es[i].1
    ensures Reduce(es, seed) == es[i]
  {
    var last := |es| - 1;
    if i == last {
      var r := Reduce(es[..last], seed);
      assert r == seed || r in es[..last];
    } else {
      ReduceFirstMax(es[..last], seed, i);
    }
  }

  /** Every non-empty sequence of entries has a first maximal position. */
  lemma {:induction false} FirstMaxExists(es: seq<Entry>) returns (i: int)
    requires es != []
    ensures IsFirstMax(es, i)
  {
    if |es| == 1 {
      i := 0;
    } else {
      var k := FirstMaxExists(es[..|es| - 1]);
      assert IsFirstMax(es[..|es| - 1], k);
      if es[|es| - 1].1 > es[k].1 {
        i := |es| - 1;
      } else {
        i := k;
      }
    }
  }

  /**
   * getMostDetectedObject on a map: fold the entries from `['', 0]`, then
   * report the winner only when `get(winner) > maxCount`. A winner that is
   * not a key (`get` gives `undefined`) is never reported.
   */
  function MostDetected(m: CountMap, maxCount: int): (r: Option<string>)
    requires m.Valid()
    ensures r.Some? ==> r.value in m.values && m.values[r.value] > maxCount
  {
    var winner := Reduce(m.Entries(), ("", 0)).0;
    match m.Get(winner)
    case Some(count) => if count > maxCount then Some(winner) else None
    case None => None
  }

  /** On an empty map the seed `''` wins, `get('')` is undefined, and nothing is reported. */
  lemma MostDetectedEmpty(maxCount: int)
    ensures MostDetected(EmptyMap(), maxCount) == None
  {
    assert EmptyMap().Entries() == [];
  }

  /**
   * With positive counts, the candidate is the first key in insertion order
   * holding the maximal count, and it is reported exactly when that count
   * exceeds `maxCount`.
   */
  lemma MostDetectedIsFirstMax(m: CountMap, maxCount: int, i: int)
    requires m.Valid() && m.Positive()
    requires IsFirstMax(m.Entries(), i)
    ensures MostDetected(m, maxCount) ==
            if m.values[m.keys[i]] > maxCount then Some(m.keys[i]) else None
  {
    var es := m.Entries();
    assert m.keys[i] in m.values;
    ReduceFirstMax(es, ("", 0), i);
  }

  /** The map after `n` calls of `updateDetectionCount(name)`. */
  function Repeat(m: CountMap, name: string, n: nat): (r: CountMap)
    requires m.Valid()
    ensures r.Valid()
  {
    if n == 0 then m else Repeat(m, name, n - 1).Increment(name)
  }

  /** `n` updates of one name on an empty map leave that single key with count `n`. */
  lemma {:induction false} RepeatFromEmpty(name: string, n: nat)
    requires n >= 1
    ensures Repeat(EmptyMap(), name, n) == CountMap([name], map[name := n])
  {
    if n > 1 {
      RepeatFromEmpty(name, n - 1);
      IncrementSingle(name, n - 1);
    } else {
      IncrementSingle(name, 0);
    }
  }

  /** One more update of the only key; from count 0 this is the first update on an empty map. */
  lemma IncrementSingle(name: string, c: nat)
    ensures c == 0 ==> EmptyMap().Increment(name) == CountMap([name], map[name := 1])
    ensures c > 0 ==> CountMap([name], map[name := c]).Increment(name) == CountMap([name], map[name := c + 1])
  {
    if c == 0 {
      assert [] + [name] == [name];
    } else {
      assert map[name := c][name := c + 1] == map[name := c + 1];
    }
  }

  /**
   * Threshold crossing: after `n >= 1` updates of one name from an empty map,
   * the name is reported exactly when `n > maxCount`; so `maxCount + 1`
   * updates report it and `maxCount` updates do not.
   */
  lemma ThresholdCrossing(name: string, maxCount: int, n: nat)
    requires n >= 1
    ensures MostDetected(Repeat(EmptyMap(), name, n), maxCount) ==
            if n > maxCount then Some(name) else None
  {
    RepeatFromEmpty(name, n);
    var m := CountMap([name], map[name := n]);
    assert m.Entries() == [(name, n)];
    assert Reduce(m.Entries(), ("", 0)) == (name, n) by {
      assert m.Entries()[..0] == [];
    }
  }

  /** `ObjectDetectionHandler`: the count map is changed in place. */
  class ObjectDetectionHandler {
    var detectionCounts: CountMap
    const maxCount: int

    /** Counts come only from updateDetectionCount, so every stored count is at least 1. */
    ghost predicate Valid()
      reads this
    {
      detectionCounts.Valid() && detectionCounts.Positive()
    }

    constructor (maxCount: int)
      ensures Valid()
      ensures detectionCounts == EmptyMap() && this.maxCount == maxCount
    {
      detectionCounts := EmptyMap();
      this.maxCount := maxCount;
    }

    /** Removes every key (the map becomes empty, not zeroed). */
    method ResetDetectionCounts()
      requires Valid()
      modifies this
      ensures Valid()
      ensures detectionCounts == EmptyMap()
    {
      detectionCounts := EmptyMap();
    }

    /** Adds one to the count of `objectName`; every other key and the key order stay. */
    method UpdateDetectionCount(objectName: string)
      requires Valid()
      modifies this
      ensures Valid()
      ensures detectionCounts == old(detectionCounts).Increment(objectName)
    {
      var count := detectionCounts.Get(objectName).GetOr(0);
      detectionCounts := detectionCounts.Set(objectName, count + 1);
    }

    /**
     * The first key with the maximal count, when that count exceeds
     * `maxCount`; `None` for the source's `null`. Reading only, it leaves the
     * map as it was.
     */
    function GetMostDetectedObject(): (r: Option<string>)
      reads this
      requires Valid()
      ensures detectionCounts.keys == [] ==> r == None
      ensures r.Some? ==> r.value in detectionCounts.values && detectionCounts.values[r.value] > maxCount
      ensures forall i :: IsFirstMax(detectionCounts.Entries(), i) ==>
                r == if detectionCounts.values[detectionCounts.keys[i]] > maxCount
                     then Some(detectionCounts.keys[i]) else None
    {
      var m := detectionCounts;
      assert m.keys == [] ==> m == EmptyMap();
      assert forall i :: IsFirstMax(m.Entries(), i) ==>
               MostDetected(m, maxCount) == if m.values[m.keys[i]] > maxCount then Some(m.keys[i]) else None
      by {
        forall i | IsFirstMax(m.Entries(), i) {
          MostDetectedIsFirstMax(m, maxCount, i);
        }
      }
      if m.keys == [] then MostDetectedEmpty(maxCount); MostDetected(m, maxCount)
      else MostDetected(m, maxCount)
    }
  }
}
