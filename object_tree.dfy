/**
 * The object tree of Randomize-Colors.js as values, and the walk of
 * process_unknown_object over it as a function.
 *
 * A shape is a path item (with its filled and stroked flags and its fill
 * and stroke colors), a compound path, a group, or anything else.  Walk
 * returns the tree after the script has run over it, given the stream of
 * draws and the position of the first one it takes.  The imperative walk
 * in module Walker is proved to agree with it.
 */
module ObjectTree {

  import opened ColorSpace
  import opened Randomizer

  /** The typename dispatch of process_unknown_object: three kinds are known. */
  datatype Shape =
    | Path(filled: bool, stroked: bool, fill: Rgb, stroke: Rgb)
    | CompoundPath(pathItems: seq<Shape>)
    | Group(pageItems: seq<Shape>)
    | Unrecognized

  /** Every color the walk randomizes has channels in [0, 255]. */
  predicate Colorable(s: Shape)
    decreases s
  {
    match s
    case Path(filled, stroked, fill, stroke) =>
      (filled ==> InGamut(fill)) && (stroked ==> InGamut(stroke))
    case CompoundPath(items) => AllColorable(items)
    case Group(items) => AllColorable(items)
    case Unrecognized => true
  }

  predicate AllColorable(items: seq<Shape>)
    decreases items
  {
    forall i | 0 <= i < |items| :: Colorable(items[i])
  }

  /**
   * The colors randomize_color is called on, in call order: children in
   * index order, to any depth, and of a path its fill before its stroke.
   */
  function Visited(s: Shape): (cs: seq<Rgb>)
    decreases s
  {
    match s
    case Path(filled, stroked, fill, stroke) =>
      (if filled then [fill] else []) + (if stroked then [stroke] else [])
    case CompoundPath(items) => VisitedAll(items)
    case Group(items) => VisitedAll(items)
    case Unrecognized => []
  }

  function VisitedAll(items: seq<Shape>): (cs: seq<Rgb>)
    decreases items
  {
    if items == [] then []
    else VisitedAll(items[..|items| - 1]) + Visited(items[|items| - 1])
  }

  /** The number of filled and stroked flags set on reachable path items. */
  function Flags(s: Shape): (n: nat)
    decreases s
  {
    match s
    case Path(filled, stroked, _, _) =>
      (if filled then 1 else 0) + (if stroked then 1 else 0)
    case CompoundPath(items) => FlagsAll(items)
    case Group(items) => FlagsAll(items)
    case Unrecognized => 0
  }

  function FlagsAll(items: seq<Shape>): (n: nat)
    decreases items
  {
    if items == [] then 0 else FlagsAll(items[..|items| - 1]) + Flags(items[|items| - 1])
  }

  /**
   * a and b differ at most in the colors the walk visits: the same kinds,
   * the same flags, the same number of children, and the same fill of an
   * unfilled path and stroke of an unstroked one.
   */
  predicate SameLayout(a: Shape, b: Shape)
    decreases a
  {
    match a
    case Path(filled, stroked, fill, stroke) =>
      b.Path? && b.filled == filled && b.stroked == stroked
      && (!filled ==> b.fill == fill) && (!stroked ==> b.stroke == stroke)
    case CompoundPath(items) => b.CompoundPath? && AllSameLayout(items, b.pathItems)
    case Group(items) => b.Group? && AllSameLayout(items, b.pageItems)
    case Unrecognized => b == Unrecognized
  }

  predicate AllSameLayout(xs: seq<Shape>, ys: seq<Shape>)
    decreases xs
  {
    |xs| == |ys| && forall i | 0 <= i < |xs| :: SameLayout(xs[i], ys[i])
  }

  /**
   * process_unknown_object, from draw position pos on: a path has its fill
   * randomized if filled and then its stroke if stroked; a compound path
   * or group has its children processed in index order; anything else is
   * left alone.  The colors written are again in gamut.
   */
  function Walk(s: Shape, st: Strengths, draws: nat -> real, pos: nat): (r: Shape)
    requires Colorable(s)
    ensures Colorable(r)
    decreases s
  {
    match s
    case Path(filled, stroked, fill, stroke) =>
      var fill' := if filled then RandomizedColor(fill, st, draws, pos) else fill;
      var next := if filled then pos + DrawsPerColor else pos;
      var stroke' := if stroked then RandomizedColor(stroke, st, draws, next) else stroke;
      Path(filled, stroked, fill', stroke')
    case CompoundPath(items) => CompoundPath(WalkAll(items, st, draws, pos))
    case Group(items) => Group(WalkAll(items, st, draws, pos))
    case Unrecognized => Unrecognized
  }

  /**
   * The loops of process_compound_path, process_group and run: child k
   * starts at the draw after those its predecessors took, six per color.
   */
  function WalkAll(items: seq<Shape>, st: Strengths, draws: nat -> real, pos: nat): (r: seq<Shape>)
    requires AllColorable(items)
    ensures |r| == |items| && AllColorable(r)
    decreases items
  {
    if items == [] then []
    else
      var n := |items| - 1;
      var done := WalkAll(items[..n], st, draws, pos);
      var last := Walk(items[n], st, draws, pos + DrawsPerColor * |VisitedAll(items[..n])|);
      done + [last]
  }

  /** Every color of a sequence has channels in [0, 255]. */
  predicate AllInGamut(cs: seq<Rgb>)
  {
    forall k | 0 <= k < |cs| :: InGamut(cs[k])
  }

  /**
   * randomize_color on each color of cs in turn, from draw pos on, six
   * draws per color: color k takes draws pos + 6k to pos + 6k + 5.
   */
  function RandomizeEach(cs: seq<Rgb>, st: Strengths, draws: nat -> real, pos: nat): (r: seq<Rgb>)
    requires AllInGamut(cs)
    ensures |r| == |cs| && AllInGamut(r)
  {
    seq(|cs|, k requires 0 <= k < |cs| && InGamut(cs[k]) => RandomizedColor(cs[k], st, draws, pos + DrawsPerColor * k))
  }

  /** Randomizing two runs of colors one after the other is randomizing the joined run. */
  lemma RandomizeEachAppend(a: seq<Rgb>, b: seq<Rgb>, st: Strengths, draws: nat -> real, pos: nat)
    requires AllInGamut(a) && AllInGamut(b)
    ensures AllInGamut(a + b)
    ensures RandomizeEach(a + b, st, draws, pos)
      == RandomizeEach(a, st, draws, pos) + RandomizeEach(b, st, draws, pos + DrawsPerColor * |a|)
  {
    assert AllInGamut(a + b) by {
      forall k | 0 <= k < |a + b| ensures InGamut((a + b)[k]) {
        if k >= |a| {
          assert (a + b)[k] == b[k - |a|];
        }
      }
    }
    var lhs := RandomizeEach(a + b, st, draws, pos);
    var rhs := RandomizeEach(a, st, draws, pos) + RandomizeEach(b, st, draws, pos + DrawsPerColor * |a|);
    forall k | 0 <= k < |lhs| ensures lhs[k] == rhs[k] {
      if k >= |a| {
        assert (a + b)[k] == b[k - |a|];
        assert pos + DrawsPerColor * k == pos + DrawsPerColor * |a| + DrawsPerColor * (k - |a|);
      }
    }
  }

  /** Unfolding VisitedAll on a sequence split off its last element. */
  lemma VisitedAllSnoc(xs: seq<Shape>, x: Shape)
    ensures VisitedAll(xs + [x]) == VisitedAll(xs) + Visited(x)
  {
    assert (xs + [x])[..|xs|] == xs;
  }

  /**
   * One more round of the loop over items: walking the first i + 1 items
   * is walking the first i, then item i from the next unused draw.
   */
  lemma WalkAllStep(items: seq<Shape>, i: nat, st: Strengths, draws: nat -> real, pos: nat,
                    done: seq<Shape>, next: nat, walked: Shape)
    requires i < |items| && AllColorable(items)
    requires AllColorable(items[..i]) && done == WalkAll(items[..i], st, draws, pos)
    requires next == pos + DrawsPerColor * |VisitedAll(items[..i])|
    requires Colorable(items[i]) && walked == Walk(items[i], st, draws, next)
    ensures WalkAll(items[..i + 1], st, draws, pos) == done + [walked]
    ensures VisitedAll(items[..i + 1]) == VisitedAll(items[..i]) + Visited(items[i])
  {
    assert items[..i + 1][..i] == items[..i];
  }

  /** Every prefix of a colorable sequence is colorable. */
  lemma PrefixColorable(items: seq<Shape>, i: nat)
    requires i <= |items| && AllColorable(items)
    ensures AllColorable(items[..i])
  {
    forall k | 0 <= k < i ensures Colorable(items[..i][k]) {
      assert items[..i][k] == items[k];
    }
  }

  /**
   * randomize_color is called once per filled or stroked flag set on a
   * reachable path item, so the walk takes six times that many draws.
   */
  lemma {:induction false} VisitCountIsFlagCount(s: Shape)
    ensures |Visited(s)| == Flags(s)
    decreases s
  {
    match s
    case Path(_, _, _, _) =>
    case CompoundPath(items) => AllVisitCountIsFlagCount(items);
    case Group(items) => AllVisitCountIsFlagCount(items);
    case Unrecognized =>
  }

  lemma {:induction false} AllVisitCountIsFlagCount(items: seq<Shape>)
    ensures |VisitedAll(items)| == FlagsAll(items)
    decreases items
  {
    if items != [] {
      var n := |items| - 1;
      AllVisitCountIsFlagCount(items[..n]);
      VisitCountIsFlagCount(items[n]);
    }
  }

  /** A tree is colorable exactly when every color the walk visits is in gamut. */
  lemma {:induction false} ColorableIffVisitedInGamut(s: Shape)
    ensures Colorable(s) <==> AllInGamut(Visited(s))
    decreases s
  {
    match s
    case Path(filled, stroked, fill, stroke) =>
      var vs := Visited(s);
      if filled {
        assert vs[0] == fill;
      }
      if stroked {
        assert vs[|vs| - 1] == stroke;
      }
    case CompoundPath(items) =>
      assert Visited(s) == VisitedAll(items);
      AllColorableIffVisitedInGamut(items);
    case Group(items) =>
      assert Visited(s) == VisitedAll(items);
      AllColorableIffVisitedInGamut(items);
    case Unrecognized =>
  }

  lemma {:induction false} AllColorableIffVisitedInGamut(items: seq<Shape>)
    ensures AllColorable(items) <==> AllInGamut(VisitedAll(items))
    decreases items
  {
    if items != [] {
      var n := |items| - 1;
      var pre, last := items[..n], items[n];
      AllColorableIffVisitedInGamut(pre);
      ColorableIffVisitedInGamut(last);
      var vs := VisitedAll(items);
      assert vs == VisitedAll(pre) + Visited(last);
      var m := |VisitedAll(pre)|;
      if AllColorable(items) {
        PrefixColorable(items, n);
        assert Colorable(last);
        forall k | 0 <= k < |vs| ensures InGamut(vs[k]) {
          if k < m {
            assert vs[k] == VisitedAll(pre)[k];
          } else {
            assert vs[k] == Visited(last)[k - m];
          }
        }
      }
      if forall k | 0 <= k < |vs| :: InGamut(vs[k]) {
        forall k | 0 <= k < |VisitedAll(pre)| ensures InGamut(VisitedAll(pre)[k]) {
          assert vs[k] == VisitedAll(pre)[k];
        }
        forall k | 0 <= k < |Visited(last)| ensures InGamut(Visited(last)[k]) {
          assert vs[m + k] == Visited(last)[k];
        }
        forall i | 0 <= i < |items| ensures Colorable(items[i]) {
          if i < n {
            assert items[i] == pre[i];
          }
        }
      }
    }
  }

  /**
   * Visit order: the colors the walk visits, children in index order to
   * any depth and fill before stroke, are replaced by randomize_color of
   * each in turn, six draws apiece from pos on.  Together with
   * WalkKeepsLayout this determines the walked tree completely.
   */
  lemma {:induction false} WalkVisitsInOrder(s: Shape, st: Strengths, draws: nat -> real, pos: nat)
    requires Colorable(s)
    ensures AllInGamut(Visited(s))
    ensures Visited(Walk(s, st, draws, pos)) == RandomizeEach(Visited(s), st, draws, pos)
    decreases s
  {
    ColorableIffVisitedInGamut(s);
    match s
    case Path(filled, stroked, fill, stroke) =>
      var vs := Visited(s);
      if filled && stroked {
        assert vs[1..] == [stroke];
      }
    case CompoundPath(items) => AllWalkVisitsInOrder(items, st, draws, pos);
    case Group(items) => AllWalkVisitsInOrder(items, st, draws, pos);
    case Unrecognized =>
  }

  lemma {:induction false} AllWalkVisitsInOrder(items: seq<Shape>, st: Strengths, draws: nat -> real, pos: nat)
    requires AllColorable(items)
    ensures AllInGamut(VisitedAll(items))
    ensures VisitedAll(WalkAll(items, st, draws, pos)) == RandomizeEach(VisitedAll(items), st, draws, pos)
    decreases items
  {
    AllColorableIffVisitedInGamut(items);
    if items != [] {
      var n := |items| - 1;
      var pre, last := items[..n], items[n];
      PrefixColorable(items, n);
      var next := pos + DrawsPerColor * |VisitedAll(pre)|;
      AllWalkVisitsInOrder(pre, st, draws, pos);
      WalkVisitsInOrder(last, st, draws, next);
      var done := WalkAll(pre, st, draws, pos);
      var w := Walk(last, st, draws, next);
      RandomizeEachAppend(VisitedAll(pre), Visited(last), st, draws, pos);
      calc {
        VisitedAll(WalkAll(items, st, draws, pos));
        VisitedAll(done + [w]);
        { VisitedAllSnoc(done, w); }
        VisitedAll(done) + Visited(w);
        RandomizeEach(VisitedAll(pre), st, draws, pos) + RandomizeEach(Visited(last), st, draws, next);
        RandomizeEach(VisitedAll(pre) + Visited(last), st, draws, pos);
        RandomizeEach(VisitedAll(items), st, draws, pos);
      }
    }
  }

  /**
   * The walk changes nothing but the colors it visits: the same kinds, the
   * same flags, the same number of children, the fill of an unfilled path
   * and the stroke of an unstroked one untouched, unknown kinds as they were.
   */
  lemma {:induction false} WalkKeepsLayout(s: Shape, st: Strengths, draws: nat -> real, pos: nat)
    requires Colorable(s)
    ensures SameLayout(s, Walk(s, st, draws, pos))
    decreases s
  {
    match s
    case Path(_, _, _, _) =>
    case CompoundPath(items) => AllWalkKeepsLayout(items, st, draws, pos);
    case Group(items) => AllWalkKeepsLayout(items, st, draws, pos);
    case Unrecognized =>
  }

  lemma {:induction false} AllWalkKeepsLayout(items: seq<Shape>, st: Strengths, draws: nat -> real, pos: nat)
    requires AllColorable(items)
    ensures AllSameLayout(items, WalkAll(items, st, draws, pos))
    decreases items
  {
    if items != [] {
      var n := |items| - 1;
      var pre := items[..n];
      PrefixColorable(items, n);
      var next := pos + DrawsPerColor * |VisitedAll(pre)|;
      AllWalkKeepsLayout(pre, st, draws, pos);
      WalkKeepsLayout(items[n], st, draws, next);
      var r := WalkAll(items, st, draws, pos);
      assert r == WalkAll(pre, st, draws, pos) + [Walk(items[n], st, draws, next)];
      forall i | 0 <= i < |items| ensures SameLayout(items[i], r[i]) {
        if i < n {
          assert items[i] == pre[i];
        }
      }
    }
  }

  /**
   * A tree with no filled or stroked path item reachable, such as a path
   * with neither flag or an object of an unknown kind, is left unchanged.
   */
  lemma {:induction false} UnvisitedTreeUnchanged(s: Shape, st: Strengths, draws: nat -> real, pos: nat)
    requires Colorable(s) && Visited(s) == []
    ensures Walk(s, st, draws, pos) == s
    decreases s
  {
    match s
    case Path(_, _, _, _) =>
    case CompoundPath(items) => AllUnvisitedUnchanged(items, st, draws, pos);
    case Group(items) => AllUnvisitedUnchanged(items, st, draws, pos);
    case Unrecognized =>
  }

  lemma {:induction false} AllUnvisitedUnchanged(items: seq<Shape>, st: Strengths, draws: nat -> real, pos: nat)
    requires AllColorable(items) && VisitedAll(items) == []
    ensures WalkAll(items, st, draws, pos) == items
    decreases items
  {
    if items != [] {
      var n := |items| - 1;
      var pre := items[..n];
      PrefixColorable(items, n);
      assert VisitedAll(items) == VisitedAll(pre) + Visited(items[n]);
      assert VisitedAll(pre) == [] && Visited(items[n]) == [];
      AllUnvisitedUnchanged(pre, st, draws, pos);
      UnvisitedTreeUnchanged(items[n], st, draws, pos);
      assert items == pre + [items[n]];
    }
  }

  /** With all strengths 0 the walk leaves every color of the tree as it was. */
  lemma {:induction false} NoStrengthsKeepTree(s: Shape, draws: nat -> real, pos: nat)
    requires Colorable(s)
    ensures Walk(s, NoStrengths, draws, pos) == s
    decreases s
  {
    match s
    case Path(filled, stroked, fill, stroke) =>
      if filled {
        NoStrengthsKeepColor(fill, draws, pos);
      }
      if stroked {
        NoStrengthsKeepColor(stroke, draws, if filled then pos + DrawsPerColor else pos);
      }
    case CompoundPath(items) => AllNoStrengthsKeepTree(items, draws, pos);
    case Group(items) => AllNoStrengthsKeepTree(items, draws, pos);
    case Unrecognized =>
  }

  lemma {:induction false} AllNoStrengthsKeepTree(items: seq<Shape>, draws: nat -> real, pos: nat)
    requires AllColorable(items)
    ensures WalkAll(items, NoStrengths, draws, pos) == items
    decreases items
  {
    if items != [] {
      var n := |items| - 1;
      var pre := items[..n];
      PrefixColorable(items, n);
      AllNoStrengthsKeepTree(pre, draws, pos);
      NoStrengthsKeepTree(items[n], draws, pos + DrawsPerColor * |VisitedAll(pre)|);
      assert items == pre + [items[n]];
    }
  }
}
