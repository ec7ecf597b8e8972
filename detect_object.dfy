/**
 * The pure parts of src/lib/detectObject.ts: the centre crop that
 * preprocessInput cuts out of a frame, and getTopKClasses, which ranks the
 * class scores of one prediction.
 */
module DetectObject {
  import opened Wrappers

  /** The side of the square model input, `VIDEO_PIXELS`. */
  const VideoPixels: int := 224

  /** The number of classes `detect` asks getTopKClasses for. */
  const DetectTopK: int := 5

  // ---------------------------------------------------------------------------
  // Centre crop of preprocessInput
  // ---------------------------------------------------------------------------

  /** The `begin` and `size` arguments of the crop's `slice` on the height and width axes. */
  datatype CropWindow = CropWindow(beginHeight: real, beginWidth: real, sizeHeight: int, sizeWidth: int)

  /**
   * The crop of a `frameHeight` x `frameWidth` frame: begin at half the
   * frame's extent less half of `VIDEO_PIXELS` on each axis, and take
   * `VIDEO_PIXELS` on each. The window is centred: its margins before and
   * after are equal on both axes.
   */
  function CenterCrop(frameHeight: int, frameWidth: int): (c: CropWindow)
    ensures c.sizeHeight == VideoPixels && c.sizeWidth == VideoPixels
    ensures c.beginHeight == frameHeight as real - (c.beginHeight + c.sizeHeight as real)
    ensures c.beginWidth == frameWidth as real - (c.beginWidth + c.sizeWidth as real)
  {
    var centerHeight := frameHeight as real / 2.0;
    var beginHeight := centerHeight - VideoPixels as real / 2.0;
    var centerWidth := frameWidth as real / 2.0;
    var beginWidth := centerWidth - VideoPixels as real / 2.0;
    CropWindow(beginHeight, beginWidth, VideoPixels, VideoPixels)
  }

  /** The window lies inside the frame exactly when the frame is at least `VIDEO_PIXELS` on both axes. */
  lemma CropInsideFrame(frameHeight: int, frameWidth: int)
    ensures var c := CenterCrop(frameHeight, frameWidth);
            (0.0 <= c.beginHeight && c.beginHeight + c.sizeHeight as real <= frameHeight as real &&
             0.0 <= c.beginWidth && c.beginWidth + c.sizeWidth as real <= frameWidth as real)
            <==> (frameHeight >= VideoPixels && frameWidth >= VideoPixels)
  {
  }

  // ---------------------------------------------------------------------------
  // getTopKClasses
  // ---------------------------------------------------------------------------

  /** `{ index, value }`: a class index and its score. */
  datatype Prediction = Prediction(index: int, value: real)

  /** `{ label, value }` (`label` is a reserved word here, hence `classLabel`): `None` is the `undefined` label of an index outside the label table. */
  datatype ClassScore = ClassScore(classLabel: Option<string>, value: real)

  /** `indices.map(index => ({ index, value: values[index] }))`. */
  function Indexed(values: seq<real>): (ps: seq<Prediction>)
    ensures |ps| == |values|
    ensures forall i :: 0 <= i < |values| ==> ps[i] == Prediction(i, values[i])
  {
    seq(|values|, i requires 0 <= i < |values| => Prediction(i, values[i]))
  }

  /**
   * The order a stable sort with comparator `(a, b) => b.value - a.value`
   * leaves elements of strictly increasing index in: higher value first, and
   * on equal values the lower index first.
   */
  ghost predicate Precedes(a: Prediction, b: Prediction) {
    a.value > b.value || (a.value == b.value && a.index < b.index)
  }

  /** Every element precedes every later one. */
  ghost predicate Ranked(s: seq<Prediction>) {
    forall i, j :: 0 <= i < j < |s| ==> Precedes(s[i], s[j])
  }

  /** Indices strictly increase from left to right, as they do in `Indexed(values)`. */
  ghost predicate IncreasingIndices(s: seq<Prediction>) {
    forall i, j :: 0 <= i < j < |s| ==> s[i].index < s[j].index
  }

  /** Places `x` before the first element of `r` whose value is below `x`'s. */
  function Insert(x: Prediction, r: seq<Prediction>): (t: seq<Prediction>)
    ensures multiset(t) == multiset(r) + multiset{x}
  {
    if r == [] then [x]
    else if r[0].value < x.value then [x] + r
    else
      assert r == [r[0]] + r[1..];
      [r[0]] + Insert(x, r[1..])
  }

  /** The stable sort by value, descending, as an insertion sort. */
  function SortDescending(s: seq<Prediction>): (t: seq<Prediction>)
    ensures multiset(t) == multiset(s)
    decreases |s|
  {
    if s == [] then []
    else
      assert s == s[..|s| - 1] + [s[|s| - 1]];
      Insert(s[|s| - 1], SortDescending(s[..|s| - 1]))
  }

  /** Inserting an element whose index exceeds every index present keeps the ranking. */
  lemma {:induction false} InsertRanked(x: Prediction, r: seq<Prediction>)
    requires Ranked(r)
    requires forall k :: 0 <= k < |r| ==> r[k].index < x.index
    ensures Ranked(Insert(x, r))
  {
    if r != [] && r[0].value >= x.value {
      var tail := r[1..];
      InsertRanked(x, tail);
      var t := Insert(x, r);
      assert t == [r[0]] + Insert(x, tail);
      forall j | 1 <= j < |t| ensures Precedes(t[0], t[j]) {
        assert t[j] in multiset(Insert(x, tail));
        assert t[j] in multiset(tail) || t[j] == x;
        if t[j] != x {
          var k :| 0 <= k < |tail| && tail[k] == t[j];
          assert r[k + 1] == t[j];
        }
      }
    }
  }

  /** Sorting a sequence of increasing indices gives the ranked order. */
  lemma {:induction false} SortRanked(s: seq<Prediction>)
    requires IncreasingIndices(s)
    ensures Ranked(SortDescending(s))
  {
    if s != [] {
      var init := s[..|s| - 1];
      var x := s[|s| - 1];
      SortRanked(init);
      var r := SortDescending(init);
      forall k | 0 <= k < |r| ensures r[k].index < x.index {
        assert r[k] in multiset(init);
      }
      InsertRanked(x, r);
    }
  }

  /**
   * The ranked order is unique: two ranked sequences with the same elements
   * are equal. Any stable sort by descending value therefore gives the same
   * result as `SortDescending`.
   */
  lemma {:induction false} RankedUnique(a: seq<Prediction>, b: seq<Prediction>)
    requires Ranked(a) && Ranked(b) && multiset(a) == multiset(b)
    ensures a == b
  {
    assert |a| == |b| by {
      assert |multiset(a)| == |multiset(b)|;
    }
    if a != [] {
      var x, y := a[0], b[0];
      assert x == y || Precedes(x, y) by {
        if x != y {
          HeadPrecedes(a, y);
        }
      }
      assert x == y || Precedes(y, x) by {
        if x != y {
          HeadPrecedes(b, x);
        }
      }
      MultisetTail(a);
      MultisetTail(b);
      RankedUnique(a[1..], b[1..]);
    }
  }

  /** In a ranked sequence the head precedes every other element. */
  lemma HeadPrecedes(a: seq<Prediction>, e: Prediction)
    requires Ranked(a) && e in multiset(a) && e != a[0]
    ensures Precedes(a[0], e)
  {
    var i :| 0 <= i < |a| && a[i] == e;
  }

  /** Removing the head removes one occurrence of it. */
  lemma MultisetTail(a: seq<Prediction>)
    requires a != []
    ensures multiset(a[1..]) == multiset(a) - multiset{a[0]}
    ensures Ranked(a) ==> Ranked(a[1..])
  {
    assert a == [a[0]] + a[1..];
  }

  /** The exclusive end index of `slice(0, end)` on an array of length `len`. */
  function SliceEnd(len: nat, end: int): (e: nat)
    ensures e <= len
    ensures end >= 0 ==> e == if end < len then end else len
    ensures end < 0 ==> e == if len + end > 0 then len + end else 0
  {
    if end < 0 then (if len + end > 0 then len + end else 0)
    else if end < len then end else len
  }

  /**
   * The ranked predictions of `values` are exactly `Indexed(values)`, each
   * once: every element is the prediction at its own index, and no index
   * appears twice.
   */
  lemma RankedPredictions(values: seq<real>)
    ensures var all := SortDescending(Indexed(values));
            && |all| == |values|
            && Ranked(all)
            && (forall p :: 0 <= p < |all| ==> 0 <= all[p].index < |values| && all[p].value == values[all[p].index])
            && (forall p, q :: 0 <= p < q < |all| ==> all[p].index != all[q].index)
  {
    var ps := Indexed(values);
    var all := SortDescending(ps);
    assert |all| == |values| by {
      assert |multiset(all)| == |multiset(ps)|;
    }
    SortRanked(ps);
    forall p | 0 <= p < |all| ensures 0 <= all[p].index < |values| && all[p] == ps[all[p].index] {
      assert all[p] in multiset(ps);
    }
    forall p, q | 0 <= p < q < |all| ensures all[p].index != all[q].index {
      assert Precedes(all[p], all[q]);
    }
  }

  /** Every index of `values` sits somewhere in the ranked predictions. */
  lemma RankedPosition(values: seq<real>, k: int) returns (p: int)
    requires 0 <= k < |values|
    ensures var all := SortDescending(Indexed(values));
            0 <= p < |all| && all[p] == Prediction(k, values[k])
  {
    var all := SortDescending(Indexed(values));
    assert Indexed(values)[k] in multiset(all);
    p :| 0 <= p < |all| && all[p] == Indexed(values)[k];
  }

  /**
   * The `sorted` array of getTopKClasses: the predictions in ranked order,
   * cut by `slice(0, topK)`: distinct indices of `values`, each with its own
   * score, highest score first and equal scores in ascending index order.
   */
  function TopKPredictions(values: seq<real>, topK: int): (s: seq<Prediction>)
    ensures |s| == SliceEnd(|values|, topK)
    ensures forall i :: 0 <= i < |s| ==> 0 <= s[i].index < |values| && s[i].value == values[s[i].index]
    ensures forall i, j :: 0 <= i < j < |s| ==> s[i].index != s[j].index
    ensures forall i, j :: 0 <= i < j < |s| ==> Precedes(s[i], s[j])
  {
    RankedPredictions(values);
    SortDescending(Indexed(values))[..SliceEnd(|values|, topK)]
  }

  /**
   * A genuine top-K: a score whose index was not returned is no higher than
   * any returned score, and every returned entry ranks before it, so on a
   * tie at the cut the lower index is the one kept.
   */
  lemma TopKIsGenuine(values: seq<real>, topK: int, k: int)
    requires 0 <= k < |values|
    requires forall i :: 0 <= i < |TopKPredictions(values, topK)| ==> TopKPredictions(values, topK)[i].index != k
    ensures forall i :: 0 <= i < |TopKPredictions(values, topK)| ==> values[k] <= TopKPredictions(values, topK)[i].value
    ensures forall i :: 0 <= i < |TopKPredictions(values, topK)| ==>
              Precedes(TopKPredictions(values, topK)[i], Prediction(k, values[k]))
  {
    RankedPredictions(values);
    var all := SortDescending(Indexed(values));
    var s := TopKPredictions(values, topK);
    assert s == all[..|s|];
    var p := RankedPosition(values, k);
    assert p >= |s| by {
      assert all[p].index == k;
      assert forall i :: 0 <= i < |s| ==> s[i] == all[i];
    }
    forall i | 0 <= i < |s| ensures values[k] <= s[i].value && Precedes(s[i], Prediction(k, values[k])) {
      assert Precedes(all[i], all[p]);
    }
  }

  /** `SCAVENGER_CLASSES[index]`, `undefined` outside the table. */
  function LabelAt(labels: seq<string>, index: int): (l: Option<string>)
    ensures l.Some? <==> 0 <= index < |labels|
    ensures l.Some? ==> l.value == labels[index]
  {
    if 0 <= index < |labels| then Some(labels[index]) else None
  }

  /**
   * getTopKClasses: the top `topK` scores, highest first, each labelled by
   * its class index.
   */
  function GetTopKClasses(values: seq<real>, labels: seq<string>, topK: int): (r: seq<ClassScore>)
    ensures |r| == SliceEnd(|values|, topK)
    ensures topK >= 0 ==> |r| == if topK < |values| then topK else |values|
    ensures forall i :: 0 <= i < |r| ==>
              var p := TopKPredictions(values, topK)[i];
              r[i] == ClassScore(LabelAt(labels, p.index), values[p.index])
  {
    var sorted := TopKPredictions(values, topK);
    seq(|sorted|, i requires 0 <= i < |sorted| => ClassScore(LabelAt(labels, sorted[i].index), sorted[i].value))
  }

  /** The scores `detect` returns: the top five, or all of them when there are fewer. */
  function Detect(values: seq<real>, labels: seq<string>): (r: seq<ClassScore>)
    ensures |r| == if |values| < 5 then |values| else 5
    ensures forall i, j :: 0 <= i < j < |r| ==> r[i].value >= r[j].value
  {
    GetTopKClasses(values, labels, DetectTopK)
  }
}
