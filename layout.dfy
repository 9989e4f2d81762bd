/**
 * The layout engine: a rectangle of terminal cells (a context), a tree of panes
 * that splits a rectangle into equal rows or columns, and the pre-order
 * flattening of that tree into one (context, colour) segment per leaf pane.
 */
module Layout {

  datatype Color = Red | Green | Blue | Magenta | Black | White | Cyan

  /** The direction in which a layout cuts its rectangle. */
  datatype Format = Rows | Columns

  /** A pane: the layout of its children, and the colour it is drawn in when it has none. */
  datatype Pane = Pane(layout: Layout, color: Color)

  datatype Layout = Layout(format: Format, panes: seq<Pane>)
  {
    /** `Layout::default()`: split into rows, no child panes yet. */
    static function Default(): (l: Layout)
      ensures l.format == Rows && |l.panes| == 0
    {
      Layout(Rows, [])
    }

    /** The builder step: the new pane goes last; format and earlier panes are kept. */
    function AddPane(pane: Pane): (r: Layout)
      ensures r.format == format
      ensures |r.panes| == |panes| + 1
      ensures r.panes[..|panes|] == panes && r.panes[|panes|] == pane
    {
      Layout(format, panes + [pane])
    }
  }

  /** A rectangle of terminal cells, 1-indexed: columns x .. x+width-1, rows y .. y+height-1. */
  datatype Context = Context(x: nat, y: nat, width: nat, height: nat)
  {
    /** The first row of the context: a non-empty context holds the full-width strip on row Top(). */
    function Top(): (t: nat)
      ensures height >= 1 ==> Inside(Context(x, t, width, 1), this)
    {
      y
    }

    /** The first column of the context: a non-empty context holds the full-height strip on column Left(). */
    function Left(): (l: nat)
      ensures width >= 1 ==> Inside(Context(l, y, 1, height), this)
    {
      x
    }

    /** The last row inside the context; the machine subtraction fails only when y + height is 0. */
    function Bottom(): (b: nat)
      requires y + height >= 1
      ensures b + 1 == Top() + height
      ensures height >= 1 ==> Top() <= b
      ensures height == 0 ==> b + 1 == Top()
    {
      y + height - 1
    }

    /** The last column inside the context; the machine subtraction fails only when x + width is 0. */
    function Right(): (r: nat)
      requires x + width >= 1
      ensures r + 1 == Left() + width
      ensures width >= 1 ==> Left() <= r
      ensures width == 0 ==> r + 1 == Left()
    {
      x + width - 1
    }
  }

  /** First cell of a context along the axis that `f` cuts. */
  function Lo(c: Context, f: Format): nat
  {
    match f
    case Rows => c.y
    case Columns => c.x
  }

  /** Extent of a context along the axis that `f` cuts. */
  function Len(c: Context, f: Format): nat
  {
    match f
    case Rows => c.height
    case Columns => c.width
  }

  /** The other axis: the one a split in format `f` leaves alone. */
  function Across(f: Format): Format
  {
    match f
    case Rows => Columns
    case Columns => Rows
  }

  /** `inner` lies entirely within `outer` (half-open extents, so empty contexts are allowed). */
  predicate Inside(inner: Context, outer: Context)
  {
    && outer.x <= inner.x && inner.x + inner.width <= outer.x + outer.width
    && outer.y <= inner.y && inner.y + inner.height <= outer.y + outer.height
  }

  /** Along axis `f`, one of the two contexts ends before the other begins. */
  predicate Separated(a: Context, b: Context, f: Format)
  {
    Lo(a, f) + Len(a, f) <= Lo(b, f) || Lo(b, f) + Len(b, f) <= Lo(a, f)
  }

  /** The two contexts share no cell. */
  predicate Disjoint(a: Context, b: Context)
  {
    Separated(a, b, Rows) || Separated(a, b, Columns)
  }

  /**
   * Band number `offset` of `paneCount` equal bands of `context`: the band size is the
   * parent's size divided by the count, rounded down; the other axis is inherited.
   * Dividing by a zero count fails in the machine arithmetic, hence the precondition.
   */
  function ContextsOffset(context: Context, offset: nat, paneCount: nat, format: Format): (band: Context)
    requires paneCount > 0
    ensures Lo(band, Across(format)) == Lo(context, Across(format))
    ensures Len(band, Across(format)) == Len(context, Across(format))
  {
    match format
    case Rows =>
      var height := context.height / paneCount;
      var bottom := context.Top() + height * offset;
      Context(context.Left(), bottom, context.width, height)
    case Columns =>
      var width := context.width / paneCount;
      var left := context.Left() + width * offset;
      Context(left, context.Top(), width, context.height)
  }

  /** k bands of size size/n take no more room than n of them, and n of them fit in size. */
  lemma BandFits(size: nat, n: nat, k: nat)
    requires n > 0
    ensures k <= n ==> (size / n) * k <= size
    ensures k < n ==> (size / n) * k + size / n <= size
  {
    var q := size / n;
    assert q * n + size % n == size;
    if k <= n {
      ScaleMonotone(q, k, n);
    }
    if k < n {
      assert q * k + q == q * (k + 1);
      ScaleMonotone(q, k + 1, n);
    }
  }

  /** Scaling by a fixed band size keeps the order of the band counts. */
  lemma ScaleMonotone(q: nat, a: nat, b: nat)
    requires a <= b
    ensures q * a <= q * b
  {
    assert q * b == q * a + q * (b - a);
  }

  /** Every band of the split lies inside the parent context. */
  lemma BandInside(context: Context, offset: nat, n: nat, f: Format)
    requires offset < n
    ensures Inside(ContextsOffset(context, offset, n, f), context)
    ensures Lo(context, f) <= Lo(ContextsOffset(context, offset, n, f), f)
  {
    match f
    case Rows => BandFits(context.height, n, offset);
    case Columns => BandFits(context.width, n, offset);
  }

  /** Where band `offset` starts and how long it is, along the cut axis and across it. */
  lemma BandGeometry(context: Context, offset: nat, n: nat, f: Format)
    requires n > 0
    ensures Lo(ContextsOffset(context, offset, n, f), f) == Lo(context, f) + (Len(context, f) / n) * offset
    ensures Len(ContextsOffset(context, offset, n, f), f) == Len(context, f) / n
    ensures Lo(ContextsOffset(context, offset, n, f), Across(f)) == Lo(context, Across(f))
    ensures Len(ContextsOffset(context, offset, n, f), Across(f)) == Len(context, Across(f))
  {
  }

  /** Band offset+1 starts on the cell right after band offset ends. */
  lemma {:induction false} BandsAdjacent(context: Context, offset: nat, n: nat, f: Format)
    requires offset + 1 < n
    ensures var here := ContextsOffset(context, offset, n, f);
            var next := ContextsOffset(context, offset + 1, n, f);
            Lo(next, f) == Lo(here, f) + Len(here, f)
  {
    BandGeometry(context, offset, n, f);
    BandGeometry(context, offset + 1, n, f);
    var q := Len(context, f) / n;
    assert q * (offset + 1) == q * offset + q;
  }

  /** Bands come in increasing order along the cut axis and never share a cell. */
  lemma {:induction false} BandsOrdered(context: Context, i: nat, j: nat, n: nat, f: Format)
    requires i < j < n
    ensures var a := ContextsOffset(context, i, n, f);
            var b := ContextsOffset(context, j, n, f);
            Lo(a, f) + Len(a, f) <= Lo(b, f) && Disjoint(a, b)
  {
    BandGeometry(context, i, n, f);
    BandGeometry(context, j, n, f);
    var q := Len(context, f) / n;
    assert q * i + q == q * (i + 1);
    ScaleMonotone(q, i + 1, j);
    var a := ContextsOffset(context, i, n, f);
    var b := ContextsOffset(context, j, n, f);
    assert Separated(a, b, f);
    match f
    case Rows =>
    case Columns =>
  }

  /**
   * Rounding loss of an even split: the n bands together cover (size/n)*n cells of the
   * cut axis, never more than the parent's size; exactly size % n trailing cells are
   * lost, so the bands tile the parent exactly when n divides its size.
   */
  lemma {:induction false} SplitRoundingLoss(context: Context, n: nat, f: Format)
    requires n > 0
    ensures var last := ContextsOffset(context, n - 1, n, f);
            var covered := Lo(last, f) + Len(last, f) - Lo(context, f);
            && covered == (Len(context, f) / n) * n
            && covered <= Len(context, f)
            && Len(context, f) - covered == Len(context, f) % n
            && (covered == Len(context, f) <==> Len(context, f) % n == 0)
  {
    BandGeometry(context, n - 1, n, f);
    DivisionCover(Len(context, f), n);
  }

  /** The last of n bands of size len/n ends after (len/n)*n cells, len % n short of len. */
  lemma DivisionCover(len: nat, n: nat)
    requires n > 0
    ensures (len / n) * (n - 1) + len / n == (len / n) * n
    ensures (len / n) * n + len % n == len
  {
    var q := len / n;
    assert q * (n - 1) + q == q * n;
  }

  /** A drawn region: the context a leaf pane receives and that pane's colour. */
  type Segment = (Context, Color)

  /**
   * What `generate_layout` returns: the segments of the children in order, each child
   * laid out in its own band; a pane whose children yield nothing is itself one segment.
   */
  function Segments(pane: Pane, context: Context): (r: seq<Segment>)
    ensures |r| >= 1
    ensures |pane.layout.panes| == 0 ==> r == [(context, pane.color)]
    decreases pane
  {
    var segments := ChildSegments(pane.layout, context, |pane.layout.panes|);
    if |segments| > 0 then segments else [(context, pane.color)]
  }

  /** The concatenated segments of the first k children of `layout` inside `context`. */
  function ChildSegments(layout: Layout, context: Context, k: nat): seq<Segment>
    requires k <= |layout.panes|
    decreases layout, k
  {
    if k == 0 then []
    else
      ChildSegments(layout, context, k - 1)
      + Segments(layout.panes[k - 1], ContextsOffset(context, k - 1, |layout.panes|, layout.format))
  }

  /** `generate_layout`: one recursive call per child pane, appended in order. */
  method GenerateLayout(pane: Pane, context: Context) returns (segments: seq<Segment>)
    ensures segments == Segments(pane, context)
    decreases pane
  {
    segments := [];
    var paneCount := |pane.layout.panes|;
    var i := 0;
    while i < paneCount
      invariant 0 <= i <= paneCount
      invariant segments == ChildSegments(pane.layout, context, i)
    {
      var p := pane.layout.panes[i];
      var childSegments := GenerateLayout(p, ContextsOffset(context, i, paneCount, pane.layout.format));
      segments := segments + childSegments;
      i := i + 1;
    }
    if |segments| > 0 {
      return;
    }
    segments := [(context, pane.color)];
  }

  /** The leaf panes of the tree in pre-order, left to right. */
  function Leaves(pane: Pane): (r: seq<Pane>)
    ensures |r| >= 1
    ensures forall i :: 0 <= i < |r| ==> |r[i].layout.panes| == 0
    decreases pane
  {
    if |pane.layout.panes| == 0 then [pane]
    else ChildLeaves(pane.layout, |pane.layout.panes|)
  }

  /** The leaves of the first k children of `layout`, in order. */
  function ChildLeaves(layout: Layout, k: nat): (r: seq<Pane>)
    requires k <= |layout.panes|
    ensures k > 0 ==> |r| >= 1
    ensures forall i :: 0 <= i < |r| ==> |r[i].layout.panes| == 0
    decreases layout, k
  {
    if k == 0 then []
    else ChildLeaves(layout, k - 1) + Leaves(layout.panes[k - 1])
  }

  /**
   * One segment per leaf pane, in pre-order, carrying that leaf's colour: so the number of
   * segments is the number of leaves, and the colour of a pane with children is never drawn.
   */
  lemma {:induction false} SegmentsFollowLeaves(pane: Pane, context: Context)
    ensures |Segments(pane, context)| == |Leaves(pane)|
    ensures forall i :: 0 <= i < |Leaves(pane)| ==> Segments(pane, context)[i].1 == Leaves(pane)[i].color
    decreases pane
  {
    var n := |pane.layout.panes|;
    if n > 0 {
      ChildSegmentsFollowLeaves(pane.layout, context, n);
    }
  }

  lemma {:induction false} ChildSegmentsFollowLeaves(layout: Layout, context: Context, k: nat)
    requires k <= |layout.panes|
    ensures |ChildSegments(layout, context, k)| == |ChildLeaves(layout, k)|
    ensures forall i :: 0 <= i < |ChildLeaves(layout, k)| ==>
      ChildSegments(layout, context, k)[i].1 == ChildLeaves(layout, k)[i].color
    decreases layout, k
  {
    if k > 0 {
      ChildSegmentsFollowLeaves(layout, context, k - 1);
      SegmentsFollowLeaves(layout.panes[k - 1], ContextsOffset(context, k - 1, |layout.panes|, layout.format));
    }
  }

  /** Every segment of `s` lies inside `outer`. */
  predicate AllInside(s: seq<Segment>, outer: Context)
  {
    forall i :: 0 <= i < |s| ==> Inside(s[i].0, outer)
  }

  /** Along axis `f`, every segment of `s` lies within cells lo .. hi-1. */
  predicate AllWithin(s: seq<Segment>, lo: nat, hi: nat, f: Format)
  {
    forall i :: 0 <= i < |s| ==> lo <= Lo(s[i].0, f) && Lo(s[i].0, f) + Len(s[i].0, f) <= hi
  }

  /** Cell just past band `offset` of an n-way split, along the cut axis. */
  function BandEnd(context: Context, offset: nat, n: nat, f: Format): nat
    requires n > 0
  {
    var band := ContextsOffset(context, offset, n, f);
    Lo(band, f) + Len(band, f)
  }

  /** Every segment lies inside the context it was laid out in. */
  lemma {:induction false} SegmentsInside(pane: Pane, context: Context)
    ensures AllInside(Segments(pane, context), context)
    decreases pane, 0
  {
    var n := |pane.layout.panes|;
    var s := Segments(pane, context);
    if n > 0 && |ChildSegments(pane.layout, context, n)| > 0 {
      ChildSegmentsInside(pane.layout, context, n);
      assert s == ChildSegments(pane.layout, context, n);
    } else {
      assert s == [(context, pane.color)];
    }
  }

  /** The first k children's segments lie inside the parent and end no later than band k-1. */
  lemma {:induction false} ChildSegmentsInside(layout: Layout, context: Context, k: nat)
    requires 0 < k <= |layout.panes|
    ensures AllInside(ChildSegments(layout, context, k), context)
    ensures AllWithin(ChildSegments(layout, context, k), Lo(context, layout.format),
                      BandEnd(context, k - 1, |layout.panes|, layout.format), layout.format)
    decreases layout, k
  {
    var n, f := |layout.panes|, layout.format;
    var band := ContextsOffset(context, k - 1, n, f);
    var last := Segments(layout.panes[k - 1], band);
    var lo, hi := Lo(context, f), BandEnd(context, k - 1, n, f);
    LaidOutInBand(layout.panes[k - 1], context, k - 1, n, f);
    BandInside(context, k - 1, n, f);
    WithinWidened(last, Lo(band, f), hi, lo, hi, f);
    var prefix := ChildSegments(layout, context, k - 1);
    if k > 1 {
      ChildSegmentsInside(layout, context, k - 1);
      BandsAdjacent(context, k - 2, n, f);
      WithinWidened(prefix, lo, BandEnd(context, k - 2, n, f), lo, hi, f);
    } else {
      assert prefix == [];
    }
    assert ChildSegments(layout, context, k) == prefix + last;
    InsideConcat(prefix, last, context);
    WithinConcat(prefix, last, lo, hi, f);
  }

  lemma InsideConcat(a: seq<Segment>, b: seq<Segment>, outer: Context)
    requires AllInside(a, outer) && AllInside(b, outer)
    ensures AllInside(a + b, outer)
  {
    var s := a + b;
    forall i | 0 <= i < |s| ensures Inside(s[i].0, outer) {
      if i < |a| { assert s[i] == a[i]; } else { assert s[i] == b[i - |a|]; }
    }
  }

  lemma WithinConcat(a: seq<Segment>, b: seq<Segment>, lo: nat, hi: nat, f: Format)
    requires AllWithin(a, lo, hi, f) && AllWithin(b, lo, hi, f)
    ensures AllWithin(a + b, lo, hi, f)
  {
    var s := a + b;
    forall i | 0 <= i < |s| ensures lo <= Lo(s[i].0, f) && Lo(s[i].0, f) + Len(s[i].0, f) <= hi {
      if i < |a| { assert s[i] == a[i]; } else { assert s[i] == b[i - |a|]; }
    }
  }

  lemma WithinWidened(s: seq<Segment>, lo: nat, hi: nat, lo': nat, hi': nat, f: Format)
    requires AllWithin(s, lo, hi, f) && lo' <= lo && hi <= hi'
    ensures AllWithin(s, lo', hi', f)
  {
  }

  /** The segments of a child laid out in band `offset` lie inside that band, hence inside the parent. */
  lemma LaidOutInBand(child: Pane, context: Context, offset: nat, n: nat, f: Format)
    requires offset < n
    ensures AllInside(Segments(child, ContextsOffset(context, offset, n, f)), context)
    ensures AllWithin(Segments(child, ContextsOffset(context, offset, n, f)),
                      Lo(ContextsOffset(context, offset, n, f), f), BandEnd(context, offset, n, f), f)
    decreases child, 1
  {
    var band := ContextsOffset(context, offset, n, f);
    SegmentsInside(child, band);
    BandInside(context, offset, n, f);
    var s := Segments(child, band);
    forall i | 0 <= i < |s|
      ensures Inside(s[i].0, context)
      ensures Lo(band, f) <= Lo(s[i].0, f) && Lo(s[i].0, f) + Len(s[i].0, f) <= BandEnd(context, offset, n, f)
    {
      assert Inside(s[i].0, band);
      match f
      case Rows =>
      case Columns =>
    }
  }

  /** A context that ends before a cut on axis `f` shares no cell with one that starts after it. */
  lemma SeparatedByBand(a: Context, b: Context, cut: nat, f: Format)
    requires Lo(a, f) + Len(a, f) <= cut <= Lo(b, f)
    ensures Disjoint(a, b)
  {
    match f
    case Rows =>
    case Columns =>
  }

  /** No two segments in the sequence share a cell. */
  predicate PairwiseDisjoint(s: seq<Segment>)
  {
    forall i, j :: 0 <= i < j < |s| ==> Disjoint(s[i].0, s[j].0)
  }

  lemma DisjointConcat(a: seq<Segment>, b: seq<Segment>)
    requires PairwiseDisjoint(a) && PairwiseDisjoint(b)
    requires forall i, j :: 0 <= i < |a| && 0 <= j < |b| ==> Disjoint(a[i].0, b[j].0)
    ensures PairwiseDisjoint(a + b)
  {
    var s := a + b;
    forall i, j | 0 <= i < j < |s|
      ensures Disjoint(s[i].0, s[j].0)
    {
      if j < |a| {
        assert s[i] == a[i] && s[j] == a[j];
      } else if i < |a| {
        assert s[i] == a[i] && s[j] == b[j - |a|];
      } else {
        assert s[i] == b[i - |a|] && s[j] == b[j - |a|];
      }
    }
  }

  /** No two leaves of a layout overlap. */
  lemma {:induction false} SegmentsDisjoint(pane: Pane, context: Context)
    ensures PairwiseDisjoint(Segments(pane, context))
    decreases pane
  {
    var n := |pane.layout.panes|;
    if n > 0 {
      ChildSegmentsDisjoint(pane.layout, context, n);
    }
  }

  lemma {:induction false} ChildSegmentsDisjoint(layout: Layout, context: Context, k: nat)
    requires k <= |layout.panes|
    ensures PairwiseDisjoint(ChildSegments(layout, context, k))
    decreases layout, k
  {
    if k > 0 {
      var n, f := |layout.panes|, layout.format;
      var band := ContextsOffset(context, k - 1, n, f);
      var prefix := ChildSegments(layout, context, k - 1);
      var last := Segments(layout.panes[k - 1], band);
      ChildSegmentsDisjoint(layout, context, k - 1);
      SegmentsDisjoint(layout.panes[k - 1], band);
      LaidOutInBand(layout.panes[k - 1], context, k - 1, n, f);
      if k > 1 {
        ChildSegmentsInside(layout, context, k - 1);
        BandsAdjacent(context, k - 2, n, f);
      }
      forall i, j | 0 <= i < |prefix| && 0 <= j < |last|
        ensures Disjoint(prefix[i].0, last[j].0)
      {
        assert Lo(last[j].0, f) >= Lo(band, f);
        SeparatedByBand(prefix[i].0, last[j].0, Lo(band, f), f);
      }
      DisjointConcat(prefix, last);
    }
  }

  /** The pane tree of the splits demo: two rows, the top one cut into two columns, the left column into two rows. */
  function SplitsDemo(): Pane
  {
    var topLeft := Pane(Layout(Rows, [Pane(Layout.Default(), Magenta), Pane(Layout.Default(), Cyan)]), Blue);
    var top := Pane(Layout(Columns, [topLeft, Pane(Layout.Default(), Green)]), Blue);
    Pane(Layout.Default().AddPane(top).AddPane(Pane(Layout.Default(), White)), Blue)
  }

  /** Whatever the terminal size, the demo draws four leaves, in order Magenta, Cyan, Green, White. */
  lemma SplitsDemoColors(width: nat, height: nat)
    ensures var s := Segments(SplitsDemo(), Context(1, 1, width, height));
            |s| == 4 && s[0].1 == Magenta && s[1].1 == Cyan && s[2].1 == Green && s[3].1 == White
  {
    var demo := SplitsDemo();
    SegmentsFollowLeaves(demo, Context(1, 1, width, height));
    var top := demo.layout.panes[0];
    var topLeft := top.layout.panes[0];
    assert Leaves(topLeft) == [topLeft.layout.panes[0], topLeft.layout.panes[1]];
    assert Leaves(top) == Leaves(topLeft) + [top.layout.panes[1]];
    assert Leaves(demo) == Leaves(top) + [demo.layout.panes[1]];
  }

  /** On an 80 by 24 terminal the demo's regions are exactly these. */
  lemma SplitsDemoOn80By24()
    ensures Segments(SplitsDemo(), Context(1, 1, 80, 24)) ==
      [ (Context(1, 1, 40, 6), Magenta), (Context(1, 7, 40, 6), Cyan),
        (Context(41, 1, 40, 12), Green), (Context(1, 13, 80, 12), White) ]
  {
    var demo := SplitsDemo();
    var top := demo.layout.panes[0];
    var topLeft := top.layout.panes[0];
    assert Segments(topLeft, Context(1, 1, 40, 12)) == [(Context(1, 1, 40, 6), Magenta), (Context(1, 7, 40, 6), Cyan)];
    assert Segments(top, Context(1, 1, 80, 12)) ==
      [(Context(1, 1, 40, 6), Magenta), (Context(1, 7, 40, 6), Cyan), (Context(41, 1, 40, 12), Green)];
  }

  /** Adding a pane to a layout that already has children appends that pane's leaves. */
  lemma {:induction false} AddPaneAppendsLeaves(layout: Layout, pane: Pane, color: Color)
    ensures |layout.panes| > 0 ==>
      Leaves(Pane(layout.AddPane(pane), color)) == Leaves(Pane(layout, color)) + Leaves(pane)
    ensures |layout.panes| == 0 ==> Leaves(Pane(layout.AddPane(pane), color)) == Leaves(pane)
  {
    var grown := layout.AddPane(pane);
    var n := |layout.panes|;
    ChildLeavesPrefix(layout, grown, n);
    assert ChildLeaves(grown, n + 1) == ChildLeaves(grown, n) + Leaves(pane);
  }

  /** ChildLeaves of the first k children depends only on those k children. */
  lemma {:induction false} ChildLeavesPrefix(a: Layout, b: Layout, k: nat)
    requires k <= |a.panes| && k <= |b.panes| && a.panes[..k] == b.panes[..k]
    ensures ChildLeaves(a, k) == ChildLeaves(b, k)
  {
    if k > 0 {
      assert a.panes[..k - 1] == b.panes[..k - 1] by {
        assert a.panes[..k - 1] == a.panes[..k][..k - 1];
        assert b.panes[..k - 1] == b.panes[..k][..k - 1];
      }
      assert a.panes[k - 1] == a.panes[..k][k - 1] == b.panes[..k][k - 1] == b.panes[k - 1];
      ChildLeavesPrefix(a, b, k - 1);
    }
  }
}
