/** Counting over the boxes a detection returns, shared by the capture screen
    and the capture log: a per-label count kept in a JavaScript `Map` (whose
    entries iterate in insertion order), and four per-category counters. */
module Detections {
  import opened Optional
  import opened TrashMap

  /** A detected object: `name` is its class label (`label` is a reserved word
      here). Coordinates and confidence play no part in counting. */
  datatype Box = Box(name: string, classId: int)

  /** The entries of a `Map<string, number>`, in insertion order. */
  type LabelCounts = seq<(string, nat)>

  function Labels(boxes: seq<Box>): seq<string> {
    seq(|boxes|, i requires 0 <= i < |boxes| => boxes[i].name)
  }

  function Keys(c: LabelCounts): seq<string> {
    seq(|c|, i requires 0 <= i < |c| => c[i].0)
  }

  /** No value occurs at two positions of `s`. */
  ghost predicate Unique(s: seq<string>) {
    forall i, j :: 0 <= i < j < |s| ==> s[i] != s[j]
  }

  /** `map.get(name) || 0`. */
  function Get(c: LabelCounts, name: string): nat {
    if c == [] then 0
    else if c[0].0 == name then c[0].1
    else Get(c[1..], name)
  }

  function Sum(c: LabelCounts): nat {
    if c == [] then 0 else c[0].1 + Sum(c[1..])
  }

  /** The keys of a list of counts with one entry in front. */
  lemma KeysCons(e: (string, nat), rest: LabelCounts)
    ensures Keys([e] + rest) == [e.0] + Keys(rest)
  {
  }

  /** `map.set(name, (map.get(name) || 0) + 1)`: a label already present keeps
      its place and has its count raised; a new label is added at the end. */
  function Bump(c: LabelCounts, name: string): (r: LabelCounts)
    ensures Keys(r) == if name in Keys(c) then Keys(c) else Keys(c) + [name]
    ensures Get(r, name) == Get(c, name) + 1
    ensures forall k :: k != name ==> Get(r, k) == Get(c, k)
    ensures Sum(r) == Sum(c) + 1
  {
    if c == [] then [(name, 1)]
    else
      var head, tail := c[0], c[1..];
      KeysCons(head, tail);
      assert c == [head] + tail;
      if head.0 == name then
        var r := [(name, head.1 + 1)] + tail;
        KeysCons((name, head.1 + 1), tail);
        r
      else
        var rest := Bump(tail, name);
        KeysCons(head, rest);
        [head] + rest
  }

  /** The label counts after the loop over `labels`. */
  function CountLabels(labels: seq<string>): LabelCounts {
    if labels == [] then []
    else Bump(CountLabels(labels[..|labels| - 1]), labels[|labels| - 1])
  }

  /** Reference definition: the distinct labels, in order of first occurrence. */
  function Distinct(labels: seq<string>): seq<string> {
    if labels == [] then []
    else
      var d := Distinct(labels[..|labels| - 1]);
      if labels[|labels| - 1] in d then d else d + [labels[|labels| - 1]]
  }

  /** `Distinct` holds every label once, and the labels it orders first occur
      in that order: `d[i]` occurs in `labels` before the first `d[j]`. */
  lemma {:induction false} DistinctSpec(labels: seq<string>)
    ensures forall x :: x in Distinct(labels) <==> x in labels
    ensures Unique(Distinct(labels))
    ensures forall i, j :: 0 <= i < j < |Distinct(labels)| ==>
      exists p :: 0 <= p < |labels| && labels[p] == Distinct(labels)[i] && Distinct(labels)[j] !in labels[..p]
  {
    if labels != [] {
      var init, x := labels[..|labels| - 1], labels[|labels| - 1];
      assert labels == init + [x];
      DistinctSpec(init);
      var d := Distinct(init);
      var dl := Distinct(labels);
      assert dl == (if x in d then d else d + [x]);
      forall i, j | 0 <= i < j < |dl|
        ensures exists p :: 0 <= p < |labels| && labels[p] == dl[i] && dl[j] !in labels[..p]
      {
        assert dl[i] == d[i];
        if j < |d| {
          assert dl[j] == d[j];
          var p :| 0 <= p < |init| && init[p] == d[i] && d[j] !in init[..p];
          assert labels[..p] == init[..p];
          assert labels[p] == dl[i] && dl[j] !in labels[..p];
        } else {
          assert dl[j] == x && x !in d;
          assert d[i] in d;
          var p :| 0 <= p < |init| && init[p] == d[i];
          assert labels[..p] == init[..p];
          assert x !in init;
          assert labels[p] == dl[i] && dl[j] !in labels[..p];
        }
      }
    }
  }

  /** The label counts list each distinct label once, in order of first
      occurrence, with the number of times it occurs; together they count
      every label. */
  lemma {:induction false} CountLabelsSpec(labels: seq<string>)
    ensures Keys(CountLabels(labels)) == Distinct(labels)
    ensures forall k :: Get(CountLabels(labels), k) == multiset(labels)[k]
    ensures Sum(CountLabels(labels)) == |labels|
  {
    if labels != [] {
      var init, x := labels[..|labels| - 1], labels[|labels| - 1];
      assert labels == init + [x];
      CountLabelsSpec(init);
    }
  }

  /** With no repeated key, the entry at `i` holds the count `Get` finds. */
  lemma {:induction false} GetAt(c: LabelCounts, i: int)
    requires Unique(Keys(c)) && 0 <= i < |c|
    ensures Get(c, c[i].0) == c[i].1
  {
    if i > 0 {
      assert Keys(c)[0] != Keys(c)[i];
      assert Keys(c[1..]) == Keys(c)[1..];
      GetAt(c[1..], i - 1);
    }
  }

  /** The label-count loop: one entry per distinct label, in order of first
      occurrence, each with its number of boxes; the counts add up to the
      number of boxes. */
  method CountByLabel(boxes: seq<Box>) returns (counts: LabelCounts)
    ensures counts == CountLabels(Labels(boxes))
    ensures Keys(counts) == Distinct(Labels(boxes))
    ensures forall i :: 0 <= i < |counts| ==> counts[i].1 == multiset(Labels(boxes))[counts[i].0]
    ensures Sum(counts) == |boxes|
  {
    counts := [];
    for i := 0 to |boxes|
      invariant counts == CountLabels(Labels(boxes[..i]))
    {
      assert Labels(boxes[..i + 1])[..i] == Labels(boxes[..i]);
      counts := Bump(counts, boxes[i].name);
    }
    assert boxes[..|boxes|] == boxes;
    CountLabelsSpec(Labels(boxes));
    DistinctSpec(Labels(boxes));
    forall i | 0 <= i < |counts| ensures counts[i].1 == multiset(Labels(boxes))[counts[i].0] {
      GetAt(counts, i);
    }
  }

  /** The four category counters. */
  datatype Tally = Tally(recyclable: nat, compostable: nat, trash: nat, dropoff: nat) {
    function Get(c: Category): nat {
      match c
      case Recyclable => recyclable
      case Compostable => compostable
      case Trash => trash
      case Dropoff => dropoff
    }

    function Total(): nat {
      recyclable + compostable + trash + dropoff
    }

    /** `counts[c] += 1`: the counter of `c` goes up by one, the others stay. */
    function Add(c: Category): (t: Tally)
      ensures t.Get(c) == Get(c) + 1
      ensures forall d :: d != c ==> t.Get(d) == Get(d)
      ensures t.Total() == Total() + 1
    {
      match c
      case Recyclable => this.(recyclable := recyclable + 1)
      case Compostable => this.(compostable := compostable + 1)
      case Trash => this.(trash := trash + 1)
      case Dropoff => this.(dropoff := dropoff + 1)
    }
  }

  const NoCounts := Tally(0, 0, 0, 0)

  /** The counters after the loop over `cats`. */
  function TallyOf(cats: seq<Option<Category>>): Tally {
    if cats == [] then NoCounts
    else
      var t := TallyOf(cats[..|cats| - 1]);
      match cats[|cats| - 1]
      case Some(c) => t.Add(c)
      case None => t
  }

  /** One more category adds one to its counter, or nothing when undefined. */
  lemma TallyStep(cats: seq<Option<Category>>, i: int)
    requires 0 <= i < |cats|
    ensures TallyOf(cats[..i + 1]) == if cats[i].Some? then TallyOf(cats[..i]).Add(cats[i].value) else TallyOf(cats[..i])
  {
    assert cats[..i + 1][..i] == cats[..i];
  }

  /** Counters start at zero and an undefined category is skipped, so each
      counter is the number of boxes with that category and the total is the
      number of defined ones. */
  lemma {:induction false} TallyOfCounts(cats: seq<Option<Category>>)
    ensures forall c :: TallyOf(cats).Get(c) == multiset(cats)[Some(c)]
    ensures TallyOf(cats).Total() == |cats| - multiset(cats)[None]
  {
    if cats != [] {
      var n := |cats| - 1;
      assert cats == cats[..n] + [cats[n]];
      assert multiset(cats) == multiset(cats[..n]) + multiset{cats[n]};
      TallyOfCounts(cats[..n]);
      TallyStep(cats, n);
      assert cats[..n + 1] == cats;
    }
  }

  /** The counting loop over per-box categories (`if (c) counts[c] += 1`). */
  method CountCategories(cats: seq<Option<Category>>) returns (t: Tally)
    ensures t == TallyOf(cats)
    ensures forall c :: t.Get(c) == multiset(cats)[Some(c)]
    ensures t.Total() == |cats| - multiset(cats)[None]
  {
    t := NoCounts;
    for i := 0 to |cats|
      invariant t == TallyOf(cats[..i])
    {
      TallyStep(cats, i);
      if cats[i].Some? {
        t := t.Add(cats[i].value);
      }
    }
    assert cats[..|cats|] == cats;
    TallyOfCounts(cats);
  }
}
