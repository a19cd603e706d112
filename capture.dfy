/** The capture screen's pure computations over a detection result: the colour
    helper `soft`, the per-label summary sorted by count, the per-box lookup key
    and category list, the category counters and the tiles shown for them. */
module CaptureScreen {
  import opened Optional
  import opened Text
  import opened Sorting
  import opened TrashMap
  import opened Detections

  // ---------------------------------------------------------------------------
  // `soft`: three `parseInt(hex.slice(..), 16)` calls

  /** `s.slice(from, to)` for non-negative bounds: both are clamped to the length. */
  function Slice(s: string, from: nat, to: nat): (r: string)
    ensures |r| <= |s|
  {
    var a := if from < |s| then from else |s|;
    var b := if to < |s| then to else |s|;
    if a <= b then s[a..b] else []
  }

  function HexDigit(c: char): Option<nat> {
    if '0' <= c <= '9' then Some(c as nat - '0' as nat)
    else if 'a' <= c <= 'f' then Some(c as nat - 'a' as nat + 10)
    else if 'A' <= c <= 'F' then Some(c as nat - 'A' as nat + 10)
    else None
  }

  predicate IsHexDigit(c: char) {
    HexDigit(c).Some?
  }

  function DigitValue(c: char): nat {
    HexDigit(c).GetOr(0)
  }

  /** The longest prefix of `s` made of hexadecimal digits. */
  function HexRun(s: string): (r: string)
    ensures |r| <= |s| && r == s[..|r|]
    ensures forall i :: 0 <= i < |r| ==> IsHexDigit(r[i])
    ensures |r| < |s| ==> !IsHexDigit(s[|r|])
  {
    if s == [] || !IsHexDigit(s[0]) then []
    else [s[0]] + HexRun(s[1..])
  }

  /** The value of a run of hexadecimal digits, most significant first. */
  function HexValue(ds: string): nat {
    if ds == [] then 0
    else HexValue(ds[..|ds| - 1]) * 16 + DigitValue(ds[|ds| - 1])
  }

  /** `parseInt(s, 16)`: leading white space is skipped, then an optional sign,
      then an optional `0x`/`0X`; the longest run of hexadecimal digits that
      follows is the value, and no digit at all gives `NaN` (`None`). */
  function ParseHex(s: string): Option<int> {
    var t := DropLeading(s, IsJsSpace);
    var negative := t != [] && t[0] == '-';
    var u := if t != [] && (t[0] == '-' || t[0] == '+') then t[1..] else t;
    var v := if |u| >= 2 && u[0] == '0' && (u[1] == 'x' || u[1] == 'X') then u[2..] else u;
    var ds := HexRun(v);
    var n: int := HexValue(ds);
    if ds == [] then None
    else if negative then Some(-n)
    else Some(n)
  }

  /** The red, green and blue components `soft` computes; `None` is `NaN`. The
      alpha argument is passed through to the string unchanged and is not part
      of the model. */
  datatype Rgb = Rgb(r: Option<int>, g: Option<int>, b: Option<int>)

  function Soft(hex: string): Rgb {
    Rgb(ParseHex(Slice(hex, 1, 3)), ParseHex(Slice(hex, 3, 5)), ParseHex(Slice(hex, 5, 7)))
  }

  /** The number two hexadecimal digits spell. */
  function Byte(hi: char, lo: char): nat {
    DigitValue(hi) * 16 + DigitValue(lo)
  }

  lemma DigitBelow16(c: char)
    ensures DigitValue(c) < 16
  {
  }

  /** Two hexadecimal digits parse to the number they spell, which lies in 0..255. */
  lemma TwoDigits(hi: char, lo: char)
    requires IsHexDigit(hi) && IsHexDigit(lo)
    ensures ParseHex([hi, lo]) == Some(Byte(hi, lo))
    ensures Byte(hi, lo) <= 255
  {
    var s := [hi, lo];
    assert !IsJsSpace(hi);
    assert DropLeading(s, IsJsSpace) == s;
    assert HexRun(s) == s by {
      assert HexRun(s[1..]) == s[1..] by {
        assert HexRun(s[1..][1..]) == [];
      }
    }
    assert HexValue(s) == HexValue([hi]) * 16 + DigitValue(lo) by {
      assert s[..1] == [hi];
    }
    assert HexValue([hi]) == DigitValue(hi) by {
      assert [hi][..0] == [];
    }
    DigitBelow16(hi);
    DigitBelow16(lo);
  }

  /** For a `#rrggbb` colour, each component is the two-digit hexadecimal
      number at characters 1-2, 3-4 and 5-6, and lies in 0..255. */
  lemma SoftOfHexColor(hex: string)
    requires |hex| >= 7 && forall i :: 1 <= i < 7 ==> IsHexDigit(hex[i])
    ensures Soft(hex) == Rgb(Some(Byte(hex[1], hex[2])), Some(Byte(hex[3], hex[4])), Some(Byte(hex[5], hex[6])))
    ensures Byte(hex[1], hex[2]) <= 255 && Byte(hex[3], hex[4]) <= 255 && Byte(hex[5], hex[6]) <= 255
  {
    assert Slice(hex, 1, 3) == [hex[1], hex[2]];
    assert Slice(hex, 3, 5) == [hex[3], hex[4]];
    assert Slice(hex, 5, 7) == [hex[5], hex[6]];
    TwoDigits(hex[1], hex[2]);
    TwoDigits(hex[3], hex[4]);
    TwoDigits(hex[5], hex[6]);
  }

  function HexChar(d: nat): char
    requires d < 16
  {
    if d < 10 then ('0' as nat + d) as char else ('a' as nat + d - 10) as char
  }

  /** The `#rrggbb` spelling of a colour with components in 0..255. */
  function HexColor(r: nat, g: nat, b: nat): (s: string)
    requires r < 256 && g < 256 && b < 256
    ensures |s| == 7 && s[0] == '#'
  {
    ['#', HexChar(r / 16), HexChar(r % 16), HexChar(g / 16), HexChar(g % 16), HexChar(b / 16), HexChar(b % 16)]
  }

  /** Writing a number in 0..255 as two digits and reading them back gives it again. */
  lemma ByteOfHexChars(n: nat)
    requires n < 256
    ensures IsHexDigit(HexChar(n / 16)) && IsHexDigit(HexChar(n % 16))
    ensures Byte(HexChar(n / 16), HexChar(n % 16)) == n
  {
  }

  /** `soft` reads back every colour written as `#rrggbb`. */
  lemma SoftRoundTrip(r: nat, g: nat, b: nat)
    requires r < 256 && g < 256 && b < 256
    ensures Soft(HexColor(r, g, b)) == Rgb(Some(r), Some(g), Some(b))
  {
    var hex := HexColor(r, g, b);
    ByteOfHexChars(r);
    ByteOfHexChars(g);
    ByteOfHexChars(b);
    SoftOfHexColor(hex);
  }

  /** The 0..255 range needs well-formed input: `parseInt` accepts a sign, so
      a component written `-f` comes out negative. */
  lemma SoftSigned(hex: string)
    requires |hex| >= 3 && hex[1] == '-' && IsHexDigit(hex[2])
    ensures Soft(hex).r == Some(-(DigitValue(hex[2]) as int))
  {
    var s := [hex[1], hex[2]];
    assert Slice(hex, 1, 3) == s;
    assert DropLeading(s, IsJsSpace) == s;
    assert HexRun(s[1..]) == s[1..] by {
      assert HexRun(s[1..][1..]) == [];
    }
    assert HexValue(s[1..]) == DigitValue(hex[2]) by {
      assert s[1..][..0] == [];
    }
  }

  /** A pair without a leading hexadecimal digit, sign or blank is `NaN`. */
  lemma SoftNotANumber(hex: string)
    requires |hex| >= 3 && !IsHexDigit(hex[1]) && !IsJsSpace(hex[1]) && hex[1] != '-' && hex[1] != '+'
    ensures Soft(hex).r == None
  {
    var s := [hex[1], hex[2]];
    assert Slice(hex, 1, 3) == s;
    assert DropLeading(s, IsJsSpace) == s;
  }

  // ---------------------------------------------------------------------------
  // `summary`: label counts sorted by count, descending

  /** The comparator `(a, b) => b[1] - a[1]`: `a` goes first when its count is larger. */
  predicate ByCount(a: (string, nat), b: (string, nat)) {
    a.1 > b.1
  }

  /** The sum of two lists of counts put together. */
  lemma {:induction false} SumConcat(s: LabelCounts, t: LabelCounts)
    ensures Sum(s + t) == Sum(s) + Sum(t)
  {
    if s == [] {
      assert s + t == t;
    } else {
      assert (s + t)[1..] == s[1..] + t;
      SumConcat(s[1..], t);
    }
  }

  /** Taking the entry at `k` out of a list of counts takes its count out
      of the sum. */
  lemma SumRemoveAt(t: LabelCounts, k: int)
    requires 0 <= k < |t|
    ensures Sum(t) == Sum(t[..k] + t[k + 1..]) + t[k].1
  {
    var front: LabelCounts, single: LabelCounts, back: LabelCounts := t[..k], [t[k]], t[k + 1..];
    assert t == (front + single) + back;
    SumConcat(front + single, back);
    SumConcat(front, single);
    SumConcat(front, back);
    assert single[1..] == [];
  }

  /** Taking the entry at `k` out of a list takes one copy of it out of the
      multiset. */
  lemma MultisetRemoveAt(t: LabelCounts, k: int)
    requires 0 <= k < |t|
    ensures multiset(t[..k] + t[k + 1..]) == multiset(t) - multiset{t[k]}
  {
    assert t == t[..k] + [t[k]] + t[k + 1..];
  }

  /** The sum of the counts does not depend on their order. */
  lemma {:induction false} SumPermutation(s: LabelCounts, t: LabelCounts)
    requires multiset(s) == multiset(t)
    ensures Sum(s) == Sum(t)
  {
    if s == [] {
      assert |t| == |multiset(t)| == 0;
    } else {
      assert s == [s[0]] + s[1..];
      assert multiset(s[1..]) == multiset(s) - multiset{s[0]};
      assert s[0] in multiset(t);
      var k :| 0 <= k < |t| && t[k] == s[0];
      MultisetRemoveAt(t, k);
      SumRemoveAt(t, k);
      SumPermutation(s[1..], t[..k] + t[k + 1..]);
    }
  }

  /** Entries whose keys are all different are all different. */
  lemma {:induction false} UniqueKeysNoDuplicates(t: LabelCounts)
    requires Unique(Keys(t))
    ensures NoDuplicates(t)
  {
    if t != [] {
      assert Keys(t[1..]) == Keys(t)[1..];
      UniqueKeysNoDuplicates(t[1..]);
      assert t == [t[0]] + t[1..];
      assert t[0] !in t[1..] by {
        forall k | 0 <= k < |t| - 1 ensures t[1..][k] != t[0] {
          assert Keys(t)[0] != Keys(t)[k + 1];
        }
      }
    }
  }

  /** A reordering of label counts with all keys different still has all keys
      different, the same keys, and the same count for each key. */
  lemma PermutedCounts(s: LabelCounts, t: LabelCounts, labels: seq<string>)
    requires multiset(s) == multiset(t)
    requires Keys(t) == Distinct(labels)
    requires forall i :: 0 <= i < |t| ==> t[i].1 == multiset(labels)[t[i].0]
    ensures Unique(Keys(s))
    ensures forall l :: l in Keys(s) <==> l in labels
    ensures forall i :: 0 <= i < |s| ==> s[i].1 == multiset(labels)[s[i].0]
  {
    DistinctSpec(labels);
    UniqueKeysNoDuplicates(t);
    assert NoDuplicates(s);
    forall i, j | 0 <= i < j < |s| ensures Keys(s)[i] != Keys(s)[j] {
      NoDuplicatesDistinct(s, i, j);
      assert s[i] in multiset(t) && s[j] in multiset(t);
      var a :| 0 <= a < |t| && t[a] == s[i];
      var b :| 0 <= b < |t| && t[b] == s[j];
      if a < b {
        assert Keys(t)[a] != Keys(t)[b];
      } else {
        assert Keys(t)[b] != Keys(t)[a];
      }
    }
    forall l ensures l in Keys(s) <==> l in Keys(t) {
      if l in Keys(s) {
        var i :| 0 <= i < |s| && Keys(s)[i] == l;
        assert s[i] in multiset(t);
        var a :| 0 <= a < |t| && t[a] == s[i];
        assert Keys(t)[a] == l;
      }
      if l in Keys(t) {
        var a :| 0 <= a < |t| && Keys(t)[a] == l;
        assert t[a] in multiset(s);
        var i :| 0 <= i < |s| && s[i] == t[a];
        assert Keys(s)[i] == l;
      }
    }
    forall i | 0 <= i < |s| ensures s[i].1 == multiset(labels)[s[i].0] {
      assert s[i] in multiset(t);
      var a :| 0 <= a < |t| && t[a] == s[i];
    }
  }

  /** The summary line: one entry per distinct label with its number of boxes,
      counts never increasing along the list, labels with equal counts in order
      of first occurrence (the sort is stable), and the counts add up to the
      number of boxes. */
  method Summary(boxes: seq<Box>) returns (summary: LabelCounts)
    ensures multiset(summary) == multiset(CountLabels(Labels(boxes)))
    ensures Unique(Keys(summary))
    ensures forall l :: l in Keys(summary) <==> l in Labels(boxes)
    ensures forall i :: 0 <= i < |summary| ==> summary[i].1 == multiset(Labels(boxes))[summary[i].0]
    ensures forall i, j :: 0 <= i < j < |summary| ==> summary[i].1 >= summary[j].1
    ensures forall y :: TiesOf(summary, y, ByCount) == TiesOf(CountLabels(Labels(boxes)), y, ByCount)
    ensures Sum(summary) == |boxes|
  {
    var counts := CountByLabel(boxes);
    summary := SortBy<(string, nat)>(counts, ByCount);
    IntKeyOrder((p: (string, nat)) => p.1, ByCount);
    SortBySorted<(string, nat)>(counts, ByCount);
    forall y ensures TiesOf(summary, y, ByCount) == TiesOf(counts, y, ByCount) {
      SortByStable<(string, nat)>(counts, y, ByCount);
    }
    SumPermutation(summary, counts);
    PermutedCounts(summary, counts, Labels(boxes));
  }

  // ---------------------------------------------------------------------------
  // Per-box categories, their counters and the tiles

  /** `b.label || b.class_id`: an empty label falls back to the class id. */
  function LookupKey(b: Box): ItemRef {
    if b.name != [] then ByName(b.name) else ById(b.classId)
  }

  /** `cats`: the category of each box, index for index, looked up through
      `classify` (the classifier for the current region). */
  function Cats(boxes: seq<Box>, classify: ItemRef -> Option<Category>): (cats: seq<Option<Category>>)
    ensures |cats| == |boxes|
    ensures forall i :: 0 <= i < |boxes| && boxes[i].name != [] ==> cats[i] == classify(ByName(boxes[i].name))
    ensures forall i :: 0 <= i < |boxes| && boxes[i].name == [] ==> cats[i] == classify(ById(boxes[i].classId))
  {
    var cats := seq(|boxes|, i requires 0 <= i < |boxes| => classify(LookupKey(boxes[i])));
    assert forall i :: 0 <= i < |boxes| ==> cats[i] == classify(LookupKey(boxes[i]));
    cats
  }

  /** The fixed order of the tiles. */
  const CategoryOrder: seq<Category> := [Recyclable, Compostable, Trash, Dropoff]

  function Rank(c: Category): nat {
    match c
    case Recyclable => 0
    case Compostable => 1
    case Trash => 2
    case Dropoff => 3
  }

  /** The categories of `order` with a nonzero counter, each with its counter,
      in the order `order` gives. */
  function TilesFrom(order: seq<Category>, t: Tally): (tiles: seq<(Category, nat)>)
    ensures forall p :: p in tiles ==> p.0 in order && p.1 == t.Get(p.0) && p.1 != 0
    ensures forall c :: c in order && t.Get(c) != 0 ==> (c, t.Get(c)) in tiles
  {
    if order == [] then []
    else
      var rest := TilesFrom(order[1..], t);
      var head := if t.Get(order[0]) != 0 then [(order[0], t.Get(order[0]))] else [];
      assert forall c :: c in order ==> c == order[0] || c in order[1..];
      head + rest
  }

  /** Categories in strictly increasing rank. */
  ghost predicate RankSorted(cs: seq<Category>) {
    forall i, j :: 0 <= i < j < |cs| ==> Rank(cs[i]) < Rank(cs[j])
  }

  function TileCategories(tiles: seq<(Category, nat)>): seq<Category> {
    seq(|tiles|, i requires 0 <= i < |tiles| => tiles[i].0)
  }

  /** A category ranked below every category of a sorted list can go in front. */
  lemma RankSortedCons(c: Category, cs: seq<Category>)
    requires RankSorted(cs)
    requires forall k :: 0 <= k < |cs| ==> Rank(c) < Rank(cs[k])
    ensures RankSorted([c] + cs)
  {
    var all := [c] + cs;
    forall i, j | 0 <= i < j < |all| ensures Rank(all[i]) < Rank(all[j]) {
      assert all[j] == cs[j - 1];
      if i > 0 {
        assert all[i] == cs[i - 1];
      }
    }
  }

  lemma TileCategoriesCons(tile: (Category, nat), rest: seq<(Category, nat)>)
    ensures TileCategories([tile] + rest) == [tile.0] + TileCategories(rest)
  {
  }

  /** Every tile taken from the tail of a sorted order ranks above its head. */
  lemma TailTilesRankAbove(order: seq<Category>, t: Tally)
    requires order != [] && RankSorted(order)
    ensures forall k :: 0 <= k < |TilesFrom(order[1..], t)| ==> Rank(order[0]) < Rank(TilesFrom(order[1..], t)[k].0)
  {
    var tail := order[1..];
    var rest := TilesFrom(tail, t);
    forall k | 0 <= k < |rest| ensures Rank(order[0]) < Rank(rest[k].0) {
      assert rest[k] in rest;
      var m :| 0 <= m < |tail| && tail[m] == rest[k].0;
      assert order[m + 1] == tail[m];
    }
  }

  /** Tiles taken from an order sorted by rank come out sorted by rank. */
  lemma {:induction false} TilesFromSorted(order: seq<Category>, t: Tally)
    requires RankSorted(order)
    ensures RankSorted(TileCategories(TilesFrom(order, t)))
  {
    if order != [] {
      var rest := TilesFrom(order[1..], t);
      assert RankSorted(order[1..]);
      TilesFromSorted(order[1..], t);
      if t.Get(order[0]) != 0 {
        TailTilesRankAbove(order, t);
        TileCategoriesCons((order[0], t.Get(order[0])), rest);
        RankSortedCons(order[0], TileCategories(rest));
      } else {
        assert TilesFrom(order, t) == rest;
      }
    }
  }

  /** The tiles: one per category whose counter is nonzero, showing that
      counter, in the fixed order recyclable, compostable, trash, dropoff. */
  function Tiles(t: Tally): (tiles: seq<(Category, nat)>)
    ensures forall c :: (c, t.Get(c)) in tiles <==> t.Get(c) != 0
    ensures forall p :: p in tiles ==> p.1 == t.Get(p.0)
    ensures RankSorted(TileCategories(tiles))
  {
    TilesFromSorted(CategoryOrder, t);
    TilesFrom(CategoryOrder, t)
  }
}
