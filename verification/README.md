# Stacked icon layout

A model of `computeStackedPositions` from `src/lib/fileUtils.js`. This function places desktop-style file and folder icons in a grid anchored at the top right of the browser window.

A cursor `(x, y)` starts at the top-right slot: `x = width - marginRight - fileWidth`, `y = marginTop`. The items are then handled in order:

- a **centered** item keeps its empty (`null`) slot, and the cursor does not move;
- a **highlighted** item moves the cursor 10 pixels left before it is placed, and that shift is never undone;
- every other step places the item at the cursor and moves `y` down by `fileHeight + verticalGap`;
- if an icon at the new `y` would pass the bottom edge, the cursor moves one column left (`fileWidth + horizontalGap`) and back to `marginTop`. This check runs after the current item has been placed, so it only affects the next item.

The module `FileUtils` (`file_utils.dfy`) holds:

- the data: `Item`, `Geometry`, `Viewport`, `Pos` and the running `Cursor`;
- `Run`, a reference definition that takes one step per item;
- `ComputeStackedPositions`, the source's loop over an array of slots, proved to produce exactly `Run`'s slots;
- lemmas stating what the layout guarantees.

The module `FileUtilsExamples` (`file_utils_examples.dfy`) works out concrete layouts. One of them uses the flags of the configured `files` list.

Geometry and the viewport are unbounded integers (pixels). The viewport is an explicit `Viewport` parameter. The source reads `window.innerWidth` and `window.innerHeight` instead. It also declares `windowHeight` and `windowWidth` parameters that it never uses, so the model does not take those. The default geometry of the source is `DefaultGeometry` (80, 80, 50, 40, 20, 80).

Two consequences of checking the bottom edge after placing an icon:

- On a viewport 200 pixels high with the default geometry, the column breaks right after the first icon: `150 + 80 > 200`. So each icon opens its own column (`FileUtilsExamples.ShortViewport`). After seven icons, `x` has become negative (`FileUtilsExamples.NegativeX`).
- `N` plain items share one column when `marginTop + N*(fileHeight+verticalGap) <= height + verticalGap` (`FileUtils.OneColumn`). This bound suffices. The looser bound `<= height + fileHeight + verticalGap` is not enough: on a viewport 150 pixels high, two plain items meet it, yet the second opens a new column (`FileUtilsExamples.LooseBoundBreaks`).

The layout is a function of its inputs, so calling it twice with the same inputs gives the same result. In Dafny this holds by construction and needs no lemma.

## Model

| member | source | states |
|---|---|---|
| FileUtils.ComputeStackedPositions | src/lib/fileUtils.js:40-88 | the array filled in place by the loop has one slot per item and equals the reference layout `Positions` |
| FileUtils.Run | src/lib/fileUtils.js:51-85 | the reference layout produces exactly one slot per input item |
| FileUtils.RunPrefix | src/lib/fileUtils.js:61-85 | the slots of a prefix of the items are the same prefix of the slots: a later item never changes an earlier slot |
| FileUtils.SlotAt | src/lib/fileUtils.js:61-75 | slot `i` is what item `i` gets from the cursor left by items `0..i-1`, so slot `i` belongs to `files[i]` |
| FileUtils.CenteredIffNull | src/lib/fileUtils.js:51-75 | one slot per item, and slot `i` is null if and only if item `i` is centered (so every non-centered item gets a position) |
| FileUtils.CenteredKeepCursor | src/lib/fileUtils.js:65-68 | a run of centered items leaves the cursor exactly where it was |
| FileUtils.FirstPlacement | src/lib/fileUtils.js:58-75 | the first non-centered item is at `(width - marginRight - fileWidth, marginTop)`, or 10 further left if it is itself highlighted |
| FileUtils.CursorInBounds | src/lib/fileUtils.js:59-84 | after any number of items, the cursor's `y` is `marginTop` or `y + fileHeight <= height` |
| FileUtils.PlacedYInBounds | src/lib/fileUtils.js:75-84 | every placed `y` equals `marginTop` or keeps the icon on screen; only a top-of-column icon can overflow |
| FileUtils.CursorX | src/lib/fileUtils.js:58-84 | the cursor's `x` is the start `x` minus 10 per highlighted stacked item and minus `fileWidth + horizontalGap` per column break, with nothing ever reset or clamped, so `x` can go negative |
| FileUtils.PlacedX | src/lib/fileUtils.js:70-84 | item `i` is placed at the start `x` minus 10 per highlighted item up to and including `i` and one column step per earlier break, in whichever column it lands |
| FileUtils.CursorXNonIncreasing | src/lib/fileUtils.js:70-84 | when `fileWidth + horizontalGap >= 0`, the cursor's `x` never increases from one item to a later one |
| FileUtils.PlacedXNonIncreasing | src/lib/fileUtils.js:70-84 | when `fileWidth + horizontalGap >= 0`, a later placed item is never right of an earlier one |
| FileUtils.Consecutive | src/lib/fileUtils.js:70-84 | for consecutive placed items: if another icon fits below, the next is one row lower at the same `x`; otherwise it is at `marginTop` one column step left; either way 10 more left if it is highlighted |
| FileUtils.TwoHighlights | src/lib/fileUtils.js:70-75 | two highlighted items sharing a column are at start `x - 10` and start `x - 20`: the shifts add up |
| FileUtils.OneColumn | src/lib/fileUtils.js:58-84 | plain items with `marginTop + N*(fileHeight+verticalGap) <= height + verticalGap` all share the start `x`, and `y` values are `marginTop + i*(fileHeight+verticalGap)` |
| FileUtils.OnePerColumn | src/lib/fileUtils.js:58-84 | when a second icon never fits below the first, plain item `i` is at `marginTop`, `i` column steps left of the start `x`, with no clamping |
| FileUtils.DropCentered | src/lib/fileUtils.js:65-68 | removing the centered items gives exactly the non-null positions, in order, and the same final cursor |
| FileUtilsExamples.ConfiguredFilesLayout | src/lib/fileUtils.js:1-38 | on a 1000x500 viewport the configured files get (880,50), (880,150), (880,250), (870,350) and null |
| FileUtilsExamples.SixPlainItems | src/lib/fileUtils.js:44-84 | with the default geometry on 1000x500, six plain items fill four rows at x 880 and then start a column at x 720 |
| FileUtilsExamples.ShortViewport | src/lib/fileUtils.js:78-84 | on a 200-pixel-high viewport the column breaks right after the first icon, so each icon opens its own column |
| FileUtilsExamples.NegativeX | src/lib/fileUtils.js:78-84 | on a 200-pixel-high viewport the seventh plain icon is at `(-80, 50)`: `x` is not clamped |
| FileUtilsExamples.LooseBoundBreaks | src/lib/fileUtils.js:78-84 | two plain items on a 150-pixel-high viewport meet `marginTop + N*(fileHeight+verticalGap) <= height + fileHeight + verticalGap`, yet land at (880,50) and (720,50) |
| FileUtilsExamples.TinyViewport | src/lib/fileUtils.js:70-84 | on a viewport shorter than one icon, the first (highlighted) icon is still placed at `(870, 50)`, and its bottom is below the 100-pixel edge |

## Left out

- Reading `window.innerWidth` and `window.innerHeight` is browser I/O. The viewport is a `Viewport` parameter instead. The unused `windowHeight` and `windowWidth` parameters are not modelled.
- JavaScript numbers are floating point. Geometry is modelled as unbounded integers. The code never divides or rounds. Integer inputs therefore give the same results as long as every input and intermediate value stays below 2^53 in absolute value. Beyond that, JavaScript addition rounds and the model differs.
- The configured `files` list (names, links, icons) is data. Only its layout flags appear, in `FileUtilsExamples.ConfiguredFiles`.
- The source does not say where centered items end up: another part of the page positions them. Rendering and the DOM are also not part of this model.
- ComputeStackedPositions: does not state that the returned array is freshly allocated. Callers here only read the array.
