/**
 * The detection filter of the object-detection manager: what one completed vision request
 * leaves in the published `detections` list.
 */
module ObjectDetection {
  import opened Optional
  import opened Strings

  /** A recognition confidence between 0 and 1; it is only copied, never computed with. */
  type Confidence = real

  /** A bounding box in coordinates normalised to the frame; it is only copied, never computed with. */
  datatype Rect = Rect(x: real, y: real, width: real, height: real)

  /** One classification of an observation (`VNClassificationObservation`). */
  datatype Label = Label(identifier: string, confidence: Confidence)

  /** A recognized-object observation: its labels, best first, and where it lies in the frame. */
  datatype Observation = Observation(labels: seq<Label>, boundingBox: Rect)

  /** One element of a request's results: a recognized object, or an observation of some other kind. */
  datatype VisionObservation = RecognizedObject(observation: Observation) | OtherObservation

  /** A published detection. */
  datatype Detection = Detection(labelName: string, confidence: Confidence, boundingBox: Rect)

  /** The object classes the app shows, in the order the source lists them. */
  const ValidLabels: seq<string> := ["car", "house", "helicopter", "airplane", "person", "t-shirt", "hat", "shoe"]

  /**
   * `request.results as? [VNRecognizedObjectObservation]`: the cast of an optional array succeeds
   * when the results are present and every element is a recognized-object observation.
   */
  function AsRecognizedObjects(results: Option<seq<VisionObservation>>): (r: Option<seq<Observation>>)
    ensures r.Some? <==> results.Some? && forall i :: 0 <= i < |results.value| ==> results.value[i].RecognizedObject?
    ensures r.Some? ==> |r.value| == |results.value|
    ensures r.Some? ==> forall i :: 0 <= i < |r.value| ==> results.value[i] == RecognizedObject(r.value[i])
  {
    match results
    case None => None
    case Some(items) =>
      if forall i :: 0 <= i < |items| ==> items[i].RecognizedObject? then
        Some(seq(|items|, i requires 0 <= i < |items| && items[i].RecognizedObject? => items[i].observation))
      else
        None
  }

  /** `observation.labels.first`. */
  function TopLabel(o: Observation): (r: Option<Label>)
    ensures r.Some? <==> |o.labels| > 0
    ensures r.Some? ==> r.value == o.labels[0]
  {
    if |o.labels| == 0 then None else Some(o.labels[0])
  }

  /**
   * The allow-list test: the identifier, lower-cased, is one of the listed classes. Every listed
   * class passes as written, and only identifiers as long as some class name can pass.
   */
  predicate IsValidLabel(identifier: string)
    ensures identifier in ValidLabels ==> IsValidLabel(identifier)
    ensures IsValidLabel(identifier) ==> exists w :: w in ValidLabels && |w| == |identifier|
  {
    ValidLabelsAreFixedPoints();
    Lowercased(identifier) in ValidLabels
  }

  /** The observation has a top label (`labels.first`) and that label passes the allow-list test. */
  predicate Kept(o: Observation)
    ensures Kept(o) <==> TopLabel(o).Some? && IsValidLabel(TopLabel(o).value.identifier)
  {
    |o.labels| > 0 && IsValidLabel(o.labels[0].identifier)
  }

  /**
   * The detection a kept observation becomes: its top label's own text (not the lower-cased form)
   * and confidence, and the observation's box.
   */
  function DetectionOf(o: Observation): (d: Detection)
    requires |o.labels| > 0
    ensures TopLabel(o) == Some(Label(d.labelName, d.confidence))
    ensures d.boundingBox == o.boundingBox
  {
    Detection(o.labels[0].identifier, o.labels[0].confidence, o.boundingBox)
  }

  /**
   * The list the loop over the observations builds, defined by the observations seen so far:
   * each step handles the last one, as the loop appends at the end.
   */
  function Filter(observations: seq<Observation>): (r: seq<Detection>)
    ensures |r| <= |observations|
    ensures forall k :: 0 <= k < |r| ==> IsValidLabel(r[k].labelName)
  {
    if observations == [] then []
    else
      var prefix := Filter(observations[..|observations| - 1]);
      var o := observations[|observations| - 1];
      match TopLabel(o)
      case None => prefix
      case Some(top) =>
        if IsValidLabel(top.identifier) then prefix + [Detection(top.identifier, top.confidence, o.boundingBox)]
        else prefix
  }

  /** The positions of the kept observations, in increasing order. */
  function KeptIndices(observations: seq<Observation>): seq<int>
  {
    if observations == [] then []
    else
      KeptIndices(observations[..|observations| - 1])
      + (if Kept(observations[|observations| - 1]) then [|observations| - 1] else [])
  }

  /**
   * What the manager publishes for a request that completed without error: nothing when the
   * cast fails, otherwise the filter of the cast observations, so at most one allowed detection
   * per observation.
   */
  function Published(results: Option<seq<VisionObservation>>): (r: seq<Detection>)
    ensures AsRecognizedObjects(results).None? ==> r == []
    ensures AsRecognizedObjects(results).Some? ==> r == Filter(AsRecognizedObjects(results).value)
    ensures results.Some? ==> |r| <= |results.value|
    ensures forall k :: 0 <= k < |r| ==> IsValidLabel(r[k].labelName)
  {
    match AsRecognizedObjects(results)
    case None => []
    case Some(observations) => Filter(observations)
  }

  /** The `ObservableObject` that owns the published detections. */
  class ObjectDetectionManager {
    var detections: seq<Detection>

    constructor ()
      ensures detections == []
    {
      detections := [];
    }

    /**
     * `visionRequestDidComplete(request:error:)`, with the main-queue closure run in sequence:
     * a failed request leaves the list alone; otherwise the list is replaced by the detections
     * of the allowed observations.
     */
    method VisionRequestDidComplete(results: Option<seq<VisionObservation>>, failed: bool)
      modifies this
      ensures failed ==> detections == old(detections)
      ensures !failed ==> detections == Published(results)
    {
      if failed {
        return;
      }
      var newDetections: seq<Detection> := [];
      var cast := AsRecognizedObjects(results);
      if cast.Some? {
        var observations := cast.value;
        for i := 0 to |observations|
          invariant newDetections == Filter(observations[..i])
        {
          assert observations[..i + 1][..i] == observations[..i];
          var observation := observations[i];
          match TopLabel(observation) {
            case None =>
            case Some(topLabel) =>
              if IsValidLabel(topLabel.identifier) {
                var detection := Detection(topLabel.identifier, topLabel.confidence, observation.boundingBox);
                newDetections := newDetections + [detection];
              }
          }
        }
        assert observations[..|observations|] == observations;
      }
      detections := newDetections;
    }
  }

  // ---------------------------------------------------------------------------------------------
  // Properties of the filter

  /** Each kept position is in range and points at a kept observation. */
  lemma {:induction false} KeptIndicesSound(observations: seq<Observation>)
    ensures forall k :: 0 <= k < |KeptIndices(observations)| ==>
      0 <= KeptIndices(observations)[k] < |observations| && Kept(observations[KeptIndices(observations)[k]])
  {
    if observations != [] {
      var n := |observations| - 1;
      var prefix := observations[..n];
      var kept, earlier := KeptIndices(observations), KeptIndices(prefix);
      assert kept == earlier + (if Kept(observations[n]) then [n] else []);
      KeptIndicesSound(prefix);
      forall k | 0 <= k < |kept|
        ensures 0 <= kept[k] < |observations| && Kept(observations[kept[k]])
      {
        if k < |earlier| {
          assert kept[k] == earlier[k] && prefix[earlier[k]] == observations[earlier[k]];
        }
      }
    }
  }

  /** The kept positions are strictly increasing: the output follows the input order. */
  lemma {:induction false} KeptIndicesIncreasing(observations: seq<Observation>)
    ensures forall k, l :: 0 <= k < l < |KeptIndices(observations)| ==> KeptIndices(observations)[k] < KeptIndices(observations)[l]
  {
    if observations != [] {
      var n := |observations| - 1;
      var prefix := observations[..n];
      var kept, earlier := KeptIndices(observations), KeptIndices(prefix);
      assert kept == earlier + (if Kept(observations[n]) then [n] else []);
      KeptIndicesIncreasing(prefix);
      KeptIndicesSound(prefix);
      forall k, l | 0 <= k < l < |kept| ensures kept[k] < kept[l] {
        assert kept[k] == earlier[k];
        if l < |earlier| {
          assert kept[l] == earlier[l];
        }
      }
    }
  }

  /** Every kept observation's position is listed. */
  lemma {:induction false} KeptIndicesComplete(observations: seq<Observation>)
    ensures forall i :: 0 <= i < |observations| && Kept(observations[i]) ==> i in KeptIndices(observations)
  {
    if observations != [] {
      var n := |observations| - 1;
      var prefix := observations[..n];
      var kept, earlier := KeptIndices(observations), KeptIndices(prefix);
      assert kept == earlier + (if Kept(observations[n]) then [n] else []);
      KeptIndicesComplete(prefix);
      forall i | 0 <= i < |observations| && Kept(observations[i]) ensures i in kept {
        if i < n {
          assert prefix[i] == observations[i];
          assert i in earlier;
        } else {
          assert kept[|kept| - 1] == i;
        }
      }
    }
  }

  /**
   * The filter's output is the kept observations, in input order, each turned into its detection:
   * one entry per kept observation and nothing else.
   */
  lemma {:induction false} FilterIsKeptObservations(observations: seq<Observation>)
    ensures |Filter(observations)| == |KeptIndices(observations)|
    ensures forall k :: 0 <= k < |Filter(observations)| ==>
      0 <= KeptIndices(observations)[k] < |observations| &&
      Kept(observations[KeptIndices(observations)[k]]) &&
      Filter(observations)[k] == DetectionOf(observations[KeptIndices(observations)[k]])
  {
    KeptIndicesSound(observations);
    if observations != [] {
      var n := |observations| - 1;
      var prefix := observations[..n];
      FilterIsKeptObservations(prefix);
      assert forall i :: 0 <= i < n ==> prefix[i] == observations[i];
    }
  }

  /** Filtering distributes over concatenation: each observation is judged on its own. */
  lemma {:induction false} FilterAppend(a: seq<Observation>, b: seq<Observation>)
    ensures Filter(a + b) == Filter(a) + Filter(b)
  {
    if b == [] {
      assert a + b == a;
    } else {
      var n := |b| - 1;
      assert (a + b)[..|a + b| - 1] == a + b[..n];
      assert (a + b)[|a + b| - 1] == b[n];
      FilterAppend(a, b[..n]);
    }
  }

  /** A single observation yields its detection when it is kept and nothing otherwise. */
  lemma FilterSingle(o: Observation)
    ensures Kept(o) ==> Filter([o]) == [DetectionOf(o)]
    ensures !Kept(o) ==> Filter([o]) == []
  {
  }

  /**
   * An observation with no labels, or whose top label is not one of the allowed classes,
   * contributes nothing wherever it stands.
   */
  lemma RejectedContributesNothing(before: seq<Observation>, o: Observation, after: seq<Observation>)
    requires !Kept(o)
    ensures Filter(before + [o] + after) == Filter(before + after)
  {
    FilterAppend(before + [o], after);
    FilterAppend(before, [o]);
    FilterAppend(before, after);
    FilterSingle(o);
  }

  /** A kept observation contributes exactly its own detection, in its place. */
  lemma KeptContributesItsDetection(before: seq<Observation>, o: Observation, after: seq<Observation>)
    requires Kept(o)
    ensures Filter(before + [o] + after) == Filter(before) + [DetectionOf(o)] + Filter(after)
  {
    FilterAppend(before + [o], after);
    FilterAppend(before, [o]);
    FilterSingle(o);
  }

  /**
   * Only the top label and the box are consulted: observations that agree on those are filtered
   * alike, whatever their later labels say.
   */
  lemma {:induction false} OnlyTopLabelMatters(a: seq<Observation>, b: seq<Observation>)
    requires |a| == |b|
    requires forall i :: 0 <= i < |a| ==> TopLabel(a[i]) == TopLabel(b[i]) && a[i].boundingBox == b[i].boundingBox
    ensures Filter(a) == Filter(b)
  {
    if a != [] {
      var n := |a| - 1;
      assert forall i :: 0 <= i < n ==> a[..n][i] == a[i] && b[..n][i] == b[i];
      OnlyTopLabelMatters(a[..n], b[..n]);
    }
  }

  /** Every allowed class name is already in lower case. */
  lemma ValidLabelsAreLowercase()
    ensures forall w :: w in ValidLabels ==> NoCapitals(w)
  {
    assert NoCapitals("car") && NoCapitals("house") && NoCapitals("helicopter") && NoCapitals("airplane");
    assert NoCapitals("person") && NoCapitals("t-shirt") && NoCapitals("hat") && NoCapitals("shoe");
  }

  /** Lower-casing leaves every allowed class name as it is. */
  lemma ValidLabelsAreFixedPoints()
    ensures forall w :: w in ValidLabels ==> Lowercased(w) == w
  {
    ValidLabelsAreLowercase();
    forall w | w in ValidLabels ensures Lowercased(w) == w {
      LowercaseFixedPoint(w);
    }
  }

  /**
   * Matching ignores letter case: an identifier that spells an allowed class with any mix of
   * capitals is kept, and an identifier with no such spelling is not.
   */
  lemma MatchIgnoresCase(identifier: string)
    ensures IsValidLabel(identifier) <==>
      exists w :: w in ValidLabels && |w| == |identifier| &&
        forall i :: 0 <= i < |w| ==> identifier[i] == w[i] || identifier[i] == Upper(w[i])
  {
    ValidLabelsAreLowercase();
    if IsValidLabel(identifier) {
      var w := Lowercased(identifier);
      forall i | 0 <= i < |w| ensures identifier[i] == w[i] || identifier[i] == Upper(w[i]) {
        assert w[i] == Lower(identifier[i]);
      }
    }
    if exists w :: w in ValidLabels && |w| == |identifier| &&
        forall i :: 0 <= i < |w| ==> identifier[i] == w[i] || identifier[i] == Upper(w[i]) {
      var w :| w in ValidLabels && |w| == |identifier| &&
        forall i :: 0 <= i < |w| ==> identifier[i] == w[i] || identifier[i] == Upper(w[i]);
      forall i | 0 <= i < |w| ensures Lowercased(identifier)[i] == w[i] {
        assert Lowercased(identifier)[i] == Lower(identifier[i]);
      }
      assert Lowercased(identifier) == w;
    }
  }

  /** The all-capitals spelling of every allowed class is kept. */
  lemma UppercaseSpellingKept(w: string)
    requires w in ValidLabels
    ensures IsValidLabel(Uppercased(w))
  {
    ValidLabelsAreLowercase();
    LowercaseFixedPoint(w);
  }

  /**
   * A detection keeps the label text as the model spelled it: "Car" is published as "Car",
   * and an observation whose top label is not allowed is dropped even when a later label is.
   */
  lemma KeepsOriginalSpelling(c: Confidence, d: Confidence, box: Rect)
    ensures Filter([Observation([Label("Car", c), Label("dog", d)], box)]) == [Detection("Car", c, box)]
    ensures Filter([Observation([Label("Dog", c), Label("car", d)], box)]) == []
  {
    FilterSingle(Observation([Label("Car", c), Label("dog", d)], box));
    FilterSingle(Observation([Label("Dog", c), Label("car", d)], box));
    assert Lowercased("Car") == "car";
    assert Lowercased("Dog") == "dog";
  }

  /** Results that are missing, or not all recognized objects, publish the empty list. */
  lemma NonObjectResultsPublishNothing(results: Option<seq<VisionObservation>>)
    requires results.None? || exists i :: 0 <= i < |results.value| && results.value[i].OtherObservation?
    ensures Published(results) == []
  {
  }
}
