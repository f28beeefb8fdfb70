/**
 * Stacked layout of desktop-style file icons.
 *
 * Icons are placed in a grid anchored at the top right of the viewport: they
 * flow downward from the top margin and, when the next icon would pass the
 * bottom edge, the cursor moves one column to the left and back to the top.
 * Centered items are not stacked (their slot stays empty), and a highlighted
 * item shifts the cursor a fixed distance to the left, a shift that is never
 * undone.
 *
 * `Run` is the reference definition: it lays out a sequence of items by
 * taking one step per item, so `Run(g, vp, items[..i])` is exactly the state
 * of the loop after `i` iterations. `ComputeStackedPositions` is the loop
 * itself, filling an array in place, and is proved equal to `Run`. The
 * lemmas state what the layout promises.
 */
module FileUtils {

  datatype Option<T> = None | Some(value: T)

  /** The layout flags of one file or folder; its name, link and icon play no part. */
  datatype Item = Item(centered: bool, highlight: bool)

  /** Pixel geometry of the grid; every value is an unbounded integer. */
  datatype Geometry = Geometry(
    fileWidth: int,
    fileHeight: int,
    marginTop: int,
    marginRight: int,
    verticalGap: int,
    horizontalGap: int)

  /** The viewport, passed explicitly instead of being read from the browser window. */
  datatype Viewport = Viewport(width: int, height: int)

  /** The top-left corner of a placed icon. */
  datatype Pos = Pos(x: int, y: int)

  /** The running cursor `(x, y)` of the loop. */
  datatype Cursor = Cursor(x: int, y: int)

  /** The slots produced so far, index-aligned with the items, and the cursor after them. */
  datatype Layout = Layout(slots: seq<Option<Pos>>, cursor: Cursor)

  /** How far left a highlighted item moves the cursor. */
  const HighlightShift: int := 10

  /** The parameter defaults of the source. */
  const DefaultGeometry: Geometry := Geometry(80, 80, 50, 40, 20, 80)

  /** Horizontal distance between two columns. */
  function ColumnStep(g: Geometry): int
  {
    g.fileWidth + g.horizontalGap
  }

  /** Vertical distance between two icons of one column. */
  function RowStep(g: Geometry): int
  {
    g.fileHeight + g.verticalGap
  }

  /** The top-right slot, where the cursor starts. */
  function Start(g: Geometry, vp: Viewport): Cursor
  {
    Cursor(vp.width - g.marginRight - g.fileWidth, g.marginTop)
  }

  /** The x at which a non-centered item is placed from cursor `c`. */
  function ShiftedX(c: Cursor, it: Item): int
  {
    if it.highlight then c.x - HighlightShift else c.x
  }

  /** The slot an item receives from cursor `c`. */
  function SlotFor(c: Cursor, it: Item): Option<Pos>
  {
    if it.centered then None else Some(Pos(ShiftedX(c, it), c.y))
  }

  /**
   * True when placing `it` at cursor `c` is followed by a column break:
   * the advanced `y` would put the next icon past the bottom edge.
   */
  predicate BreaksAfter(g: Geometry, vp: Viewport, c: Cursor, it: Item)
  {
    !it.centered && c.y + RowStep(g) + g.fileHeight > vp.height
  }

  /** The cursor after handling `it` from cursor `c`. */
  function Advance(g: Geometry, vp: Viewport, c: Cursor, it: Item): Cursor
  {
    if it.centered then c
    else if BreaksAfter(g, vp, c, it) then Cursor(ShiftedX(c, it) - ColumnStep(g), g.marginTop)
    else Cursor(ShiftedX(c, it), c.y + RowStep(g))
  }

  /** The layout of `items`, one step per item, in order. */
  function Run(g: Geometry, vp: Viewport, items: seq<Item>): (r: Layout)
    ensures |r.slots| == |items|
    decreases |items|
  {
    if items == [] then Layout([], Start(g, vp))
    else
      var prev := Run(g, vp, items[..|items| - 1]);
      var it := items[|items| - 1];
      Layout(prev.slots + [SlotFor(prev.cursor, it)], Advance(g, vp, prev.cursor, it))
  }

  /** The positions of `items`: one slot per item. */
  function Positions(g: Geometry, vp: Viewport, items: seq<Item>): seq<Option<Pos>>
  {
    Run(g, vp, items).slots
  }

  /** The cursor just before item `i` is handled. */
  function CursorBefore(g: Geometry, vp: Viewport, items: seq<Item>, i: nat): Cursor
    requires i <= |items|
  {
    Run(g, vp, items[..i]).cursor
  }

  /**
   * The loop of the source: an array of empty slots, filled in place while
   * the cursor moves. Its result is the reference layout.
   */
  method ComputeStackedPositions(vp: Viewport, files: seq<Item>, g: Geometry)
    returns (positions: array<Option<Pos>>)
    ensures positions.Length == |files|
    ensures positions[..] == Positions(g, vp, files)
  {
    positions := new Option<Pos>[|files|](_ => None);

    var x := vp.width - g.marginRight - g.fileWidth;
    var y := g.marginTop;

    for i := 0 to |files|
      invariant positions[..i] == Run(g, vp, files[..i]).slots
      invariant forall k :: i <= k < |files| ==> positions[k] == None
      invariant Cursor(x, y) == Run(g, vp, files[..i]).cursor
    {
      assert files[..i + 1][..i] == files[..i];
      var file := files[i];

      if file.centered {
        assert positions[..i + 1] == positions[..i] + [None];
        continue;
      }

      if file.highlight {
        x := x - HighlightShift;
      }

      positions[i] := Some(Pos(x, y));

      y := y + g.fileHeight + g.verticalGap;

      if y + g.fileHeight > vp.height {
        x := x - (g.fileWidth + g.horizontalGap);
        y := g.marginTop;
      }
    }
    assert files[..|files|] == files;
  }

  // ---------------------------------------------------------------------
  // Index-wise facts about the reference layout

  /** Extending the items never changes the slots already produced. */
  lemma {:induction false} RunPrefix(g: Geometry, vp: Viewport, items: seq<Item>, k: nat)
    requires k <= |items|
    ensures Run(g, vp, items[..k]).slots == Run(g, vp, items).slots[..k]
    decreases |items|
  {
    if k < |items| {
      var init := items[..|items| - 1];
      assert init[..k] == items[..k];
      RunPrefix(g, vp, init, k);
    } else {
      assert items[..k] == items;
    }
  }

  /** Appending one item appends its slot and advances the cursor. */
  lemma RunSnoc(g: Geometry, vp: Viewport, items: seq<Item>, it: Item)
    ensures Run(g, vp, items + [it])
         == Layout(Run(g, vp, items).slots + [SlotFor(Run(g, vp, items).cursor, it)],
                   Advance(g, vp, Run(g, vp, items).cursor, it))
  {
    assert (items + [it])[..|items|] == items;
  }

  /** Slot `i` is the slot item `i` receives from the cursor left by the items before it. */
  lemma SlotAt(g: Geometry, vp: Viewport, items: seq<Item>, i: nat)
    requires i < |items|
    ensures Positions(g, vp, items)[i] == SlotFor(CursorBefore(g, vp, items, i), items[i])
  {
    RunPrefix(g, vp, items, i + 1);
    assert items[..i + 1][..i] == items[..i];
  }

  /** The cursor after item `i` is the cursor before it, advanced by that item. */
  lemma CursorStep(g: Geometry, vp: Viewport, items: seq<Item>, i: nat)
    requires i < |items|
    ensures CursorBefore(g, vp, items, i + 1)
         == Advance(g, vp, CursorBefore(g, vp, items, i), items[i])
  {
    assert items[..i + 1][..i] == items[..i];
  }

  /** One slot per item, and a slot is empty exactly when its item is centered. */
  lemma CenteredIffNull(g: Geometry, vp: Viewport, items: seq<Item>, i: nat)
    requires i < |items|
    ensures |Positions(g, vp, items)| == |items|
    ensures Positions(g, vp, items)[i] == None <==> items[i].centered
  {
    SlotAt(g, vp, items, i);
  }

  /** A run of centered items leaves the cursor where it was. */
  lemma {:induction false} CenteredKeepCursor(g: Geometry, vp: Viewport, items: seq<Item>, i: nat, j: nat)
    requires i <= j <= |items|
    requires forall k :: i <= k < j ==> items[k].centered
    ensures CursorBefore(g, vp, items, j) == CursorBefore(g, vp, items, i)
    decreases j
  {
    if i < j {
      CenteredKeepCursor(g, vp, items, i, j - 1);
      CursorStep(g, vp, items, j - 1);
    }
  }

  /**
   * The first non-centered item is placed in the top-right slot, shifted
   * left only if it is itself highlighted.
   */
  lemma FirstPlacement(g: Geometry, vp: Viewport, items: seq<Item>, k: nat)
    requires k < |items|
    requires forall j :: 0 <= j < k ==> items[j].centered
    requires !items[k].centered
    ensures Positions(g, vp, items)[k]
         == Some(Pos(vp.width - g.marginRight - g.fileWidth - (if items[k].highlight then HighlightShift else 0),
                     g.marginTop))
  {
    CenteredKeepCursor(g, vp, items, 0, k);
    assert items[..0] == [];
    SlotAt(g, vp, items, k);
  }

  // ---------------------------------------------------------------------
  // Vertical bounds

  /** The cursor's y is the top margin, or an icon placed there fits on screen. */
  predicate YInBounds(g: Geometry, vp: Viewport, y: int)
  {
    y == g.marginTop || y + g.fileHeight <= vp.height
  }

  lemma {:induction false} CursorInBounds(g: Geometry, vp: Viewport, items: seq<Item>)
    ensures YInBounds(g, vp, Run(g, vp, items).cursor.y)
    decreases |items|
  {
    if items != [] {
      CursorInBounds(g, vp, items[..|items| - 1]);
    }
  }

  /**
   * Every placed y is the top margin or keeps the icon on screen: only an
   * icon at the top of a column can overflow the bottom edge.
   */
  lemma PlacedYInBounds(g: Geometry, vp: Viewport, items: seq<Item>, i: nat)
    requires i < |items|
    requires !items[i].centered
    ensures Positions(g, vp, items)[i].Some?
    ensures var y := Positions(g, vp, items)[i].value.y;
            y == g.marginTop || y + g.fileHeight <= vp.height
  {
    SlotAt(g, vp, items, i);
    CursorInBounds(g, vp, items[..i]);
  }

  // ---------------------------------------------------------------------
  // Horizontal drift: highlight shifts and column breaks add up

  /** The number of highlighted items that are stacked (not centered). */
  function Highlights(items: seq<Item>): (n: nat)
    ensures n <= |items|
    decreases |items|
  {
    if items == [] then 0
    else Highlights(items[..|items| - 1])
         + (if items[|items| - 1].highlight && !items[|items| - 1].centered then 1 else 0)
  }

  /** The number of column breaks the layout of `items` takes. */
  function Breaks(g: Geometry, vp: Viewport, items: seq<Item>): (n: nat)
    ensures n <= |items|
    decreases |items|
  {
    if items == [] then 0
    else
      var init := items[..|items| - 1];
      Breaks(g, vp, init) + (if BreaksAfter(g, vp, Run(g, vp, init).cursor, items[|items| - 1]) then 1 else 0)
  }

  /**
   * The cursor's x is the starting x, less one shift per highlighted item
   * and one column step per column break: nothing is ever reset.
   */
  lemma {:induction false} CursorX(g: Geometry, vp: Viewport, items: seq<Item>)
    ensures Run(g, vp, items).cursor.x
         == Start(g, vp).x - HighlightShift * Highlights(items) - ColumnStep(g) * Breaks(g, vp, items)
    decreases |items|
  {
    if items != [] {
      var init := items[..|items| - 1];
      var it := items[|items| - 1];
      CursorX(g, vp, init);
      var c := Run(g, vp, init).cursor;
      var h := Highlights(init);
      var b := Breaks(g, vp, init);
      var dh := if it.highlight && !it.centered then 1 else 0;
      var db := if BreaksAfter(g, vp, c, it) then 1 else 0;
      assert Highlights(items) == h + dh;
      assert Breaks(g, vp, items) == b + db;
      assert HighlightShift * (h + dh) == HighlightShift * h + HighlightShift * dh;
      assert ColumnStep(g) * (b + db) == ColumnStep(g) * b + ColumnStep(g) * db;
    }
  }

  /**
   * Item `i` is placed at the starting x less one shift for each highlighted
   * item up to and including itself, and one column step for each column
   * break before it, whichever column it lands in.
   */
  lemma PlacedX(g: Geometry, vp: Viewport, items: seq<Item>, i: nat)
    requires i < |items|
    requires !items[i].centered
    ensures Positions(g, vp, items)[i].Some?
    ensures Positions(g, vp, items)[i].value.x
         == Start(g, vp).x - HighlightShift * Highlights(items[..i + 1])
            - ColumnStep(g) * Breaks(g, vp, items[..i])
  {
    SlotAt(g, vp, items, i);
    CursorX(g, vp, items[..i]);
    assert items[..i + 1][..i] == items[..i];
  }

  /** With non-negative column steps the cursor's x never increases. */
  lemma {:induction false} CursorXNonIncreasing(g: Geometry, vp: Viewport, items: seq<Item>, i: nat, j: nat)
    requires ColumnStep(g) >= 0
    requires i <= j <= |items|
    ensures CursorBefore(g, vp, items, j).x <= CursorBefore(g, vp, items, i).x
    decreases j
  {
    if i < j {
      CursorXNonIncreasing(g, vp, items, i, j - 1);
      CursorStep(g, vp, items, j - 1);
    }
  }

  /**
   * With non-negative column steps a later placed item is never to the right
   * of an earlier one. Nothing clamps x, so it may become negative.
   */
  lemma PlacedXNonIncreasing(g: Geometry, vp: Viewport, items: seq<Item>, i: nat, j: nat)
    requires ColumnStep(g) >= 0
    requires i < j < |items|
    requires !items[i].centered && !items[j].centered
    ensures Positions(g, vp, items)[i].Some? && Positions(g, vp, items)[j].Some?
    ensures Positions(g, vp, items)[j].value.x <= Positions(g, vp, items)[i].value.x
  {
    SlotAt(g, vp, items, i);
    SlotAt(g, vp, items, j);
    CursorStep(g, vp, items, i);
    CursorXNonIncreasing(g, vp, items, i + 1, j);
  }

  // ---------------------------------------------------------------------
  // Consecutive placements

  /**
   * Between two consecutive placed items (only centered items in between),
   * the next one is one row lower in the same column if another icon fits
   * below the previous one, and otherwise at the top of the next column to
   * the left; either way it is shifted a further 10 left if highlighted.
   */
  lemma Consecutive(g: Geometry, vp: Viewport, items: seq<Item>, i: nat, j: nat)
    requires i < j < |items|
    requires !items[i].centered && !items[j].centered
    requires forall k :: i < k < j ==> items[k].centered
    ensures Positions(g, vp, items)[i].Some? && Positions(g, vp, items)[j].Some?
    ensures var p := Positions(g, vp, items)[i].value;
            var q := Positions(g, vp, items)[j].value;
            var shift := if items[j].highlight then HighlightShift else 0;
            if p.y + RowStep(g) + g.fileHeight <= vp.height
            then q == Pos(p.x - shift, p.y + RowStep(g))
            else q == Pos(p.x - ColumnStep(g) - shift, g.marginTop)
  {
    SlotAt(g, vp, items, i);
    SlotAt(g, vp, items, j);
    CursorStep(g, vp, items, i);
    CenteredKeepCursor(g, vp, items, i + 1, j);
  }

  /**
   * Highlight shifts are cumulative: two highlighted items in a row that
   * share a column put the second 20 left of the starting x.
   */
  lemma TwoHighlights(g: Geometry, vp: Viewport, items: seq<Item>)
    requires |items| == 2
    requires items[0] == Item(false, true) && items[1] == Item(false, true)
    requires g.marginTop + RowStep(g) + g.fileHeight <= vp.height
    ensures Positions(g, vp, items)
         == [Some(Pos(Start(g, vp).x - HighlightShift, g.marginTop)),
             Some(Pos(Start(g, vp).x - 2 * HighlightShift, g.marginTop + RowStep(g)))]
  {
    FirstPlacement(g, vp, items, 0);
    Consecutive(g, vp, items, 0, 1);
  }

  /**
   * N plain items (neither centered nor highlighted) share one column when
   * `marginTop + N * (fileHeight + verticalGap) <= height + verticalGap`,
   * that is, when the last of them still ends above the bottom edge: item
   * `i` is at the starting x and `i` rows below the top margin.
   */
  lemma {:induction false} OneColumn(g: Geometry, vp: Viewport, items: seq<Item>, i: nat)
    requires RowStep(g) >= 0
    requires forall k :: 0 <= k < |items| ==> items[k] == Item(false, false)
    requires g.marginTop + |items| * RowStep(g) <= vp.height + g.verticalGap
    requires i < |items|
    ensures Positions(g, vp, items)[i] == Some(Pos(Start(g, vp).x, g.marginTop + i * RowStep(g)))
    decreases i
  {
    if i == 0 {
      FirstPlacement(g, vp, items, 0);
    } else {
      OneColumn(g, vp, items, i - 1);
      RowArithmetic(i, |items|, RowStep(g));
      Consecutive(g, vp, items, i - 1, i);
    }
  }

  /** Row `i` is one row step below row `i - 1`, and no lower than row `n - 1`. */
  lemma RowArithmetic(i: int, n: int, r: int)
    requires 0 < i < n && r >= 0
    ensures (i - 1) * r + r == i * r
    ensures i * r <= (n - 1) * r
    ensures (n - 1) * r + r == n * r
  {
    assert (n - 1) * r - i * r == (n - 1 - i) * r;
  }

  /**
   * When a second icon never fits below the first, every plain item opens a
   * column of its own: item `i` is at the top margin, `i` column steps left
   * of the starting x. Nothing clamps x, so it goes negative once enough
   * columns are opened.
   */
  lemma {:induction false} OnePerColumn(g: Geometry, vp: Viewport, items: seq<Item>, i: nat)
    requires forall k :: 0 <= k < |items| ==> items[k] == Item(false, false)
    requires g.marginTop + RowStep(g) + g.fileHeight > vp.height
    requires i < |items|
    ensures Positions(g, vp, items)[i] == Some(Pos(Start(g, vp).x - i * ColumnStep(g), g.marginTop))
    decreases i
  {
    if i == 0 {
      FirstPlacement(g, vp, items, 0);
    } else {
      OnePerColumn(g, vp, items, i - 1);
      assert (i - 1) * ColumnStep(g) + ColumnStep(g) == i * ColumnStep(g);
      Consecutive(g, vp, items, i - 1, i);
    }
  }

  // ---------------------------------------------------------------------
  // Centered items do not take part in stacking

  /** The items that are stacked, in order. */
  function Stacked(items: seq<Item>): (r: seq<Item>)
    ensures |r| <= |items|
    ensures forall k :: 0 <= k < |r| ==> !r[k].centered
    decreases |items|
  {
    if items == [] then []
    else if items[|items| - 1].centered then Stacked(items[..|items| - 1])
    else Stacked(items[..|items| - 1]) + [items[|items| - 1]]
  }

  /** The non-empty slots, in order. */
  function Filled(slots: seq<Option<Pos>>): (r: seq<Option<Pos>>)
    ensures |r| <= |slots|
    ensures forall k :: 0 <= k < |r| ==> r[k].Some?
    decreases |slots|
  {
    if slots == [] then []
    else if slots[|slots| - 1].None? then Filled(slots[..|slots| - 1])
    else Filled(slots[..|slots| - 1]) + [slots[|slots| - 1]]
  }

  /**
   * Removing the centered items leaves every other position, and the final
   * cursor, unchanged.
   */
  lemma {:induction false} DropCentered(g: Geometry, vp: Viewport, items: seq<Item>)
    ensures Positions(g, vp, Stacked(items)) == Filled(Positions(g, vp, items))
    ensures Run(g, vp, Stacked(items)).cursor == Run(g, vp, items).cursor
    decreases |items|
  {
    if items != [] {
      var init := items[..|items| - 1];
      var it := items[|items| - 1];
      DropCentered(g, vp, init);
      var slots := Positions(g, vp, items);
      assert slots[..|slots| - 1] == Positions(g, vp, init);
      if !it.centered {
        var s := Stacked(items);
        assert s[..|s| - 1] == Stacked(init);
      }
    }
  }
}
