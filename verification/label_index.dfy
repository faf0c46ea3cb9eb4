/** `buildLabelIndex`: label to position, built once per scene. */
module LabelIndex {
  import opened Basics
  import opened SceneTypes
  import KeyedIndex

  /** Some step of `steps` carries the truthy label `l`. */
  ghost predicate Labelled(steps: seq<Step>, l: string) {
    exists i :: 0 <= i < |steps| && IndexKey(steps[i]) == Some(l)
  }

  /** Every step with a truthy label is recorded under it; unlabelled steps
      (and goto/end, which have no label) are absent; when a label repeats,
      the last occurrence wins. */
  function BuildLabelIndex(steps: seq<Step>): (m: map<string, nat>)
    ensures forall l :: l in m <==> Labelled(steps, l)
    ensures forall l :: l in m ==> l != "" && m[l] < |steps| && LabelOf(steps[m[l]]) == Some(l)
    ensures forall l :: l in m ==> forall j :: m[l] < j < |steps| ==> LabelOf(steps[j]) != Some(l)
  {
    var m := KeyedIndex.LastPositions(steps, IndexKey);
    assert forall l :: l in m <==> KeyedIndex.Carried(steps, IndexKey, l, |steps|);
    m
  }

  /** With pairwise distinct labels, the index maps each label to the one
      step carrying it. */
  lemma DistinctLabelPosition(steps: seq<Step>, i: nat)
    requires i < |steps| && IndexKey(steps[i]).Some?
    requires forall j :: 0 <= j < |steps| && j != i ==> IndexKey(steps[j]) != IndexKey(steps[i])
    ensures IndexKey(steps[i]).value in BuildLabelIndex(steps)
    ensures BuildLabelIndex(steps)[IndexKey(steps[i]).value] == i
  {
    var l := IndexKey(steps[i]).value;
    assert Labelled(steps, l);
    var p := BuildLabelIndex(steps)[l];
    assert IndexKey(steps[p]) == Some(l);
  }

  /** A scene whose first `|labels|` steps carry pairwise distinct labels,
      in order, and whose other steps carry none: each label indexes its
      own position and nothing else is indexed. */
  lemma IndexOfDistinctLabels(steps: seq<Step>, labels: seq<string>)
    requires |labels| <= |steps|
    requires forall i :: 0 <= i < |labels| ==> IndexKey(steps[i]) == Some(labels[i])
    requires forall i :: |labels| <= i < |steps| ==> IndexKey(steps[i]) == None
    requires forall i, j :: 0 <= i < j < |labels| ==> labels[i] != labels[j]
    ensures forall i :: 0 <= i < |labels| ==>
              labels[i] in BuildLabelIndex(steps) && BuildLabelIndex(steps)[labels[i]] == i
    ensures forall l :: l in BuildLabelIndex(steps) ==> l in labels
  {
    forall i | 0 <= i < |labels|
      ensures labels[i] in BuildLabelIndex(steps) && BuildLabelIndex(steps)[labels[i]] == i
    {
      DistinctLabelPosition(steps, i);
    }
    forall l | l in BuildLabelIndex(steps) ensures l in labels {
      var p := BuildLabelIndex(steps)[l];
      assert IndexKey(steps[p]) == Some(l);
    }
  }
}
