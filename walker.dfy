/**
 * process_unknown_object, process_path_item, process_compound_path,
 * process_group and the selection loop of run in Randomize-Colors.js, as
 * methods over a tree of items whose fill and stroke colors are mutable
 * objects, rewritten in place.
 *
 * Each method is proved to leave the tree as ObjectTree.Walk says, and to
 * take six draws per color it randomizes.  The color objects of a tree are
 * required to be distinct: the host application never shares one color
 * object between two paths, or between the fill and the stroke of one.
 */
module Walker {

  import opened ColorSpace
  import opened Randomizer
  import opened ObjectTree

  /** An item of the document, dispatched on its typename. */
  datatype Item =
    | PathItem(filled: bool, stroked: bool, fillColor: RgbColor, strokeColor: RgbColor)
    | CompoundPathItem(pathItems: seq<Item>)
    | GroupItem(pageItems: seq<Item>)
    | OtherItem

  /** The color objects reachable through the kinds the walk recognises. */
  ghost function Objects(item: Item): set<RgbColor>
    decreases item
  {
    match item
    case PathItem(_, _, fill, stroke) => {fill, stroke}
    case CompoundPathItem(items) => ObjectsAll(items)
    case GroupItem(items) => ObjectsAll(items)
    case OtherItem => {}
  }

  ghost function ObjectsAll(items: seq<Item>): set<RgbColor>
    decreases items
  {
    if items == [] then {} else ObjectsAll(items[..|items| - 1]) + Objects(items[|items| - 1])
  }

  /** No color object is reachable twice. */
  ghost predicate Separate(item: Item)
    decreases item
  {
    match item
    case PathItem(_, _, fill, stroke) => fill != stroke
    case CompoundPathItem(items) => AllSeparate(items)
    case GroupItem(items) => AllSeparate(items)
    case OtherItem => true
  }

  ghost predicate AllSeparate(items: seq<Item>)
    decreases items
  {
    (forall i | 0 <= i < |items| :: Separate(items[i]))
    && (forall i, j | 0 <= i < j < |items| :: Objects(items[i]) !! Objects(items[j]))
  }

  /** The tree as it stands in the current heap. */
  ghost function Value(item: Item): Shape
    reads Objects(item)
    decreases item
  {
    match item
    case PathItem(filled, stroked, fill, stroke) => Path(filled, stroked, fill.Value(), stroke.Value())
    case CompoundPathItem(items) => CompoundPath(ValueAll(items))
    case GroupItem(items) => Group(ValueAll(items))
    case OtherItem => Unrecognized
  }

  ghost function ValueAll(items: seq<Item>): (r: seq<Shape>)
    reads ObjectsAll(items)
    ensures |r| == |items|
    ensures forall i | 0 <= i < |items| :: r[i] == Value(items[i])
    decreases items
  {
    if items == [] then []
    else
      var n := |items| - 1;
      ObjectsWithin(items, n);
      ValueAll(items[..n]) + [Value(items[n])]
  }

  /** Unfolding ValueAll on the first i + 1 items. */
  lemma ValueAllStep(items: seq<Item>, i: nat)
    requires i < |items|
    ensures ValueAll(items[..i + 1]) == ValueAll(items[..i]) + [Value(items[i])]
  {
    assert items[..i + 1][..i] == items[..i];
  }

  /** Child k's objects are among those of the whole sequence. */
  lemma {:induction false} ObjectsWithin(items: seq<Item>, k: nat)
    requires k < |items|
    ensures Objects(items[k]) <= ObjectsAll(items)
    decreases items
  {
    var n := |items| - 1;
    if k < n {
      ObjectsWithin(items[..n], k);
    }
  }

  /** Every object of the sequence belongs to one of its children. */
  lemma {:induction false} ObjectsOwned(items: seq<Item>, o: RgbColor)
    requires o in ObjectsAll(items)
    ensures exists k | 0 <= k < |items| :: o in Objects(items[k])
    decreases items
  {
    var n := |items| - 1;
    if o !in Objects(items[n]) {
      ObjectsOwned(items[..n], o);
      var k :| 0 <= k < n && o in Objects(items[..n][k]);
      assert o in Objects(items[k]);
    }
  }

  /** The objects reachable from an item are allocated, as the item is. */
  lemma {:induction false} ObjectsAllocated(item: Item)
    ensures forall o | o in Objects(item) :: allocated(o)
    decreases item
  {
    match item
    case PathItem(_, _, _, _) =>
    case CompoundPathItem(items) => AllObjectsAllocated(items);
    case GroupItem(items) => AllObjectsAllocated(items);
    case OtherItem =>
  }

  lemma {:induction false} AllObjectsAllocated(items: seq<Item>)
    ensures forall o | o in ObjectsAll(items) :: allocated(o)
    decreases items
  {
    if items != [] {
      AllObjectsAllocated(items[..|items| - 1]);
      ObjectsAllocated(items[|items| - 1]);
    }
  }

  /** The children before k share no object with child k. */
  lemma ObjectsBeforeDisjoint(items: seq<Item>, k: nat)
    requires AllSeparate(items) && k < |items|
    ensures ObjectsAll(items[..k]) !! Objects(items[k])
  {
    forall o | o in ObjectsAll(items[..k]) ensures o !in Objects(items[k]) {
      ObjectsOwned(items[..k], o);
      var j :| 0 <= j < k && o in Objects(items[..k][j]);
      assert items[..k][j] == items[j];
    }
  }

  /** process_path_item: the fill if filled, then the stroke if stroked. */
  method ProcessPathItem(obj: Item, st: Strengths, rand: RandomSource)
    requires obj.PathItem? && Separate(obj) && Colorable(Value(obj))
    modifies Objects(obj), rand
    ensures Value(obj) == Walk(old(Value(obj)), st, rand.draws, old(rand.used))
    ensures rand.used == old(rand.used) + DrawsPerColor * |Visited(old(Value(obj)))|
  {
    if obj.filled {
      RandomizeColor(obj.fillColor, st, rand);
    }
    if obj.stroked {
      RandomizeColor(obj.strokeColor, st, rand);
    }
  }

  /** process_unknown_object: dispatch on the kind; unknown kinds are skipped. */
  method ProcessUnknownObject(obj: Item, st: Strengths, rand: RandomSource)
    requires Separate(obj) && Colorable(Value(obj))
    modifies Objects(obj), rand
    ensures Value(obj) == Walk(old(Value(obj)), st, rand.draws, old(rand.used))
    ensures rand.used == old(rand.used) + DrawsPerColor * |Visited(old(Value(obj)))|
    decreases obj, 2
  {
    match obj
    case PathItem(_, _, _, _) => ProcessPathItem(obj, st, rand);
    case CompoundPathItem(_) => ProcessCompoundPath(obj, st, rand);
    case GroupItem(_) => ProcessGroup(obj, st, rand);
    case OtherItem =>
  }

  /** process_compound_path: every path item of the compound path, in order. */
  method ProcessCompoundPath(obj: Item, st: Strengths, rand: RandomSource)
    requires obj.CompoundPathItem? && Separate(obj) && Colorable(Value(obj))
    modifies Objects(obj), rand
    ensures Value(obj) == Walk(old(Value(obj)), st, rand.draws, old(rand.used))
    ensures rand.used == old(rand.used) + DrawsPerColor * |Visited(old(Value(obj)))|
    decreases obj, 1
  {
    ProcessInOrder(obj.pathItems, st, rand);
  }

  /** process_group: every page item of the group, in order. */
  method ProcessGroup(obj: Item, st: Strengths, rand: RandomSource)
    requires obj.GroupItem? && Separate(obj) && Colorable(Value(obj))
    modifies Objects(obj), rand
    ensures Value(obj) == Walk(old(Value(obj)), st, rand.draws, old(rand.used))
    ensures rand.used == old(rand.used) + DrawsPerColor * |Visited(old(Value(obj)))|
    decreases obj, 1
  {
    ProcessInOrder(obj.pageItems, st, rand);
  }

  /**
   * The index loop shared by process_compound_path, process_group and run:
   * process_unknown_object on item 0, 1, 2, ... in turn.
   */
  method ProcessInOrder(items: seq<Item>, st: Strengths, rand: RandomSource)
    requires AllSeparate(items) && AllColorable(ValueAll(items))
    modifies ObjectsAll(items), rand
    ensures ValueAll(items) == WalkAll(old(ValueAll(items)), st, rand.draws, old(rand.used))
    ensures rand.used == old(rand.used) + DrawsPerColor * |VisitedAll(old(ValueAll(items)))|
    decreases items, 1
  {
    ghost var before := ValueAll(items);
    ghost var start := rand.used;
    assert ValueAll(items[..0]) == [] == WalkAll(before[..0], st, rand.draws, start);
    for i := 0 to |items|
      invariant AllColorable(before[..i])
      invariant ValueAll(items[..i]) == WalkAll(before[..i], st, rand.draws, start)
      invariant rand.used == start + DrawsPerColor * |VisitedAll(before[..i])|
      invariant forall j | i <= j < |items| :: Value(items[j]) == before[j]
    {
      ObjectsWithin(items, i);
      ProcessItemAt(items, i, st, rand, before, start);
    }
    assert items[..|items|] == items;
    assert before[..|items|] == before;
  }

  /**
   * Round i of that loop: process_unknown_object on item i takes the draws
   * after those of the items before it, and changes item i alone.
   */
  method ProcessItemAt(items: seq<Item>, i: nat, st: Strengths, rand: RandomSource,
                       ghost before: seq<Shape>, ghost start: nat)
    requires i < |items| == |before| && AllSeparate(items) && AllColorable(before)
    requires AllColorable(before[..i]) && ValueAll(items[..i]) == WalkAll(before[..i], st, rand.draws, start)
    requires rand.used == start + DrawsPerColor * |VisitedAll(before[..i])|
    requires forall j | i <= j < |items| :: Value(items[j]) == before[j]
    modifies Objects(items[i]), rand
    ensures AllColorable(before[..i + 1])
    ensures ValueAll(items[..i + 1]) == WalkAll(before[..i + 1], st, rand.draws, start)
    ensures rand.used == start + DrawsPerColor * |VisitedAll(before[..i + 1])|
    ensures forall j | i < j < |items| :: Value(items[j]) == before[j]
    decreases items, 0
  {
    ObjectsBeforeDisjoint(items, i);
    AllObjectsAllocated(items[..i]);
    forall j | i < j < |items|
      ensures forall o | o in Objects(items[j]) :: allocated(o)
    {
      ObjectsAllocated(items[j]);
    }
    PrefixColorable(before, i + 1);
    ghost var done := ValueAll(items[..i]);
    ProcessUnknownObject(items[i], st, rand);
    ghost var walked := Value(items[i]);
    WalkAllStep(before, i, st, rand.draws, start, done, old(rand.used), walked);
    assert unchanged(ObjectsAll(items[..i]));
    forall j | i < j < |items|
      ensures Value(items[j]) == before[j]
    {
      assert Objects(items[i]) !! Objects(items[j]);
      assert unchanged(Objects(items[j]));
    }
    assert ValueAll(items[..i]) == done;
    ValueAllStep(items, i);
  }

  /** The selection loop of run: every selected object, in order. */
  method Run(selection: seq<Item>, st: Strengths, rand: RandomSource)
    requires AllSeparate(selection) && AllColorable(ValueAll(selection))
    modifies ObjectsAll(selection), rand
    ensures ValueAll(selection) == WalkAll(old(ValueAll(selection)), st, rand.draws, old(rand.used))
    ensures rand.used == old(rand.used) + DrawsPerColor * |VisitedAll(old(ValueAll(selection)))|
  {
    ProcessInOrder(selection, st, rand);
  }
}
