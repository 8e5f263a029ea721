/** The packing list of components/features/packing/PackingChecklist.tsx and
    types/packing.tsx: toggling items, the essential/optional grouping and the summary. */
module PackingChecklist {
  import opened Wrappers
  import Lists

  datatype Category = Clothing | Toiletries | Electronics | Documents | Miscellaneous

  datatype PackingItem = PackingItem(id: string, name: string, category: Category, packed: bool, essential: bool)

  /** The `findIndex` lookup by id. */
  function FindItem(items: seq<PackingItem>, id: string): (r: Option<nat>)
    ensures r.None? <==> forall i :: 0 <= i < |items| ==> items[i].id != id
    ensures r.Some? ==> r.value < |items| && items[r.value].id == id
    ensures r.Some? ==> forall j :: 0 <= j < r.value ==> items[j].id != id
  {
    Lists.FindFirst(items, (it: PackingItem) => it.id == id)
  }

  /** `toggleItemPacked`: the first item with the id has its packed flag
      flipped; an unknown id leaves the list alone. */
  function Toggle(items: seq<PackingItem>, id: string): (r: seq<PackingItem>)
    ensures |r| == |items|
    ensures (forall i :: 0 <= i < |items| ==> items[i].id != id) ==> r == items
    ensures forall i :: 0 <= i < |items| ==>
      && r[i].id == items[i].id && r[i].name == items[i].name
      && r[i].category == items[i].category && r[i].essential == items[i].essential
    ensures forall i :: 0 <= i < |items| ==>
      (r[i].packed != items[i].packed <==> FindItem(items, id) == Some(i))
  {
    match FindItem(items, id)
    case None => items
    case Some(k) => items[k := items[k].(packed := !items[k].packed)]
  }

  /** Toggling the same id twice restores the list. */
  lemma ToggleTwice(items: seq<PackingItem>, id: string)
    ensures Toggle(Toggle(items, id), id) == items
  {
    var once := Toggle(items, id);
    assert FindItem(once, id) == FindItem(items, id) by {
      match FindItem(items, id)
      case None =>
      case Some(k) =>
        assert forall j :: 0 <= j <= k ==> once[j].id == items[j].id;
    }
  }

  /** The "Essential Items" group. */
  function Essential(items: seq<PackingItem>): (r: seq<PackingItem>)
    ensures forall i :: 0 <= i < |r| ==> r[i].essential && r[i] in items
    ensures forall i :: 0 <= i < |items| && items[i].essential ==> items[i] in r
  {
    Lists.Filter(items, (it: PackingItem) => it.essential)
  }

  /** The second group, holding every item not marked essential. */
  function Optional(items: seq<PackingItem>): (r: seq<PackingItem>)
    ensures forall i :: 0 <= i < |r| ==> !r[i].essential && r[i] in items
    ensures forall i :: 0 <= i < |items| && !items[i].essential ==> items[i] in r
  {
    Lists.Filter(items, (it: PackingItem) => !it.essential)
  }

  /** The two groups show every item exactly once between them. */
  lemma GroupsPartition(items: seq<PackingItem>)
    ensures |Essential(items)| + |Optional(items)| == |items|
    ensures multiset(Essential(items)) + multiset(Optional(items)) == multiset(items)
  {
    Lists.FilterComplement(items, (it: PackingItem) => it.essential, (it: PackingItem) => !it.essential);
  }

  /** "Items packed": the number of positions holding a packed item. */
  function PackedCount(items: seq<PackingItem>): (n: nat)
    ensures n <= |items|
    ensures n == |set i: nat | i < |items| && items[i].packed|
  {
    Lists.FilterCountsMatches(items, (it: PackingItem) => it.packed);
    assert Lists.Matches(items, (it: PackingItem) => it.packed) == set i: nat | i < |items| && items[i].packed;
    |Lists.Filter(items, (it: PackingItem) => it.packed)|
  }

  /** A toggle moves the packed count by exactly one, in the direction of the flip. */
  lemma ToggleMovesCount(items: seq<PackingItem>, id: string)
    ensures FindItem(items, id).None? ==> PackedCount(Toggle(items, id)) == PackedCount(items)
    ensures FindItem(items, id).Some? ==>
      var k := FindItem(items, id).value;
      PackedCount(Toggle(items, id)) == if items[k].packed then PackedCount(items) - 1 else PackedCount(items) + 1
  {
    match FindItem(items, id)
    case None =>
    case Some(k) =>
      Lists.FilterLengthUpdate(items, (it: PackingItem) => it.packed, k, items[k].(packed := !items[k].packed));
  }

  /** `Math.round(num / den)` on exact rationals: the nearest integer, halves rounding up. */
  function RoundHalfUp(num: int, den: int): (r: int)
    requires den > 0
    ensures 2 * den * r - den <= 2 * num < 2 * den * r + den
  {
    (2 * num + den) / (2 * den)
  }

  lemma MulMono(c: int, a: int, b: int)
    requires c > 0 && a <= b
    ensures c * a <= c * b
  {
    var k := b - a;
    assert c * b == c * a + c * k;
  }

  /** Rounding is monotone: a larger numerator never rounds lower. */
  lemma RoundMonotone(num: int, num': int, den: int)
    requires den > 0 && num <= num'
    ensures RoundHalfUp(num, den) <= RoundHalfUp(num', den)
  {
    var r, s := RoundHalfUp(num, den), RoundHalfUp(num', den);
    if r > s {
      MulMono(2 * den, s + 1, r);
      assert false;
    }
  }

  /** A whole number divided out exactly rounds to itself. */
  lemma RoundExact(q: int, den: int)
    requires den > 0
    ensures RoundHalfUp(q * den, den) == q
  {
    var r := RoundHalfUp(q * den, den);
    if r < q {
      MulMono(2 * den, r + 1, q);
      assert false;
    } else if r > q {
      MulMono(2 * den, q + 1, r);
      assert false;
    }
  }

  /** "Progress": `Math.round(packed / total * 100)`; `None` stands for the
      `NaN` an empty list yields, as the source divides without a guard. */
  function Progress(items: seq<PackingItem>): (r: Option<int>)
    ensures r.None? <==> |items| == 0
    ensures r.Some? ==> 0 <= r.value <= 100
    ensures r.Some? ==> 2 * |items| * r.value - |items| <= 200 * PackedCount(items) < 2 * |items| * r.value + |items|
  {
    if |items| == 0 then None
    else
      var n := |items|;
      RoundMonotone(0 * n, 100 * PackedCount(items), n);
      RoundMonotone(100 * PackedCount(items), 100 * n, n);
      RoundExact(0, n);
      RoundExact(100, n);
      Some(RoundHalfUp(100 * PackedCount(items), n))
  }

  /** Nothing packed shows 0%; everything packed shows 100%. */
  lemma ProgressEnds(items: seq<PackingItem>)
    requires |items| > 0
    ensures (forall i :: 0 <= i < |items| ==> !items[i].packed) ==> Progress(items) == Some(0)
    ensures (forall i :: 0 <= i < |items| ==> items[i].packed) ==> Progress(items) == Some(100)
  {
    var n := |items|;
    if forall i :: 0 <= i < |items| ==> !items[i].packed {
      Lists.FilterDropsAll(items, (it: PackingItem) => it.packed);
      RoundExact(0, n);
    }
    if forall i :: 0 <= i < |items| ==> items[i].packed {
      Lists.FilterKeepsAll(items, (it: PackingItem) => it.packed);
      RoundExact(100, n);
    }
  }

  /** Two packed items out of four show 50%, wherever they sit in the list. */
  lemma ProgressHalfPacked(items: seq<PackingItem>)
    requires |items| == 4
    requires items[0].packed && !items[1].packed && items[2].packed && !items[3].packed
    ensures Progress(items) == Some(50)
  {
    assert (set i: nat | i < |items| && items[i].packed) == {0, 2};
  }

  /** Packing one more item never lowers the percentage. */
  lemma ProgressMonotone(packed: nat, total: nat)
    requires packed < total
    ensures RoundHalfUp(100 * packed, total) <= RoundHalfUp(100 * (packed + 1), total)
  {
    RoundMonotone(100 * packed, 100 * (packed + 1), total);
  }

  /** Halves, thirds and eighths: 2 of 4 shows 50%, 1 of 3 shows 33%, 2 of 3
      shows 67%, and 1 of 8 (exactly 12.5) rounds up to 13%. */
  lemma RoundingExamples()
    ensures RoundHalfUp(200, 4) == 50
    ensures RoundHalfUp(100, 3) == 33
    ensures RoundHalfUp(200, 3) == 67
    ensures RoundHalfUp(100, 8) == 13
  {
  }
}
