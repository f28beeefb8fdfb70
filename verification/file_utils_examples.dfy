/**
 * Worked layouts with the default geometry (80-pixel icons, 50 top margin,
 * 40 right margin, 20 vertical gap, 80 horizontal gap).
 */
module FileUtilsExamples {
  import opened FileUtils

  const Plain: Item := Item(false, false)
  const Highlighted: Item := Item(false, true)
  const Centered: Item := Item(true, false)

  /**
   * The layout flags of the configured files, in order: welcome, houses,
   * assets, s5_anthem (highlighted) and update_1 (centered).
   */
  const ConfiguredFiles: seq<Item> := [Plain, Plain, Plain, Highlighted, Centered]

  /**
   * On a 1000 by 500 viewport the configured files stack down the right
   * edge at x = 880; the highlighted one moves 10 left, and the centered one
   * gets no position. The highlighted icon leaves no room below it, so the
   * cursor ends at the top of the next column, 160 further left.
   */
  lemma ConfiguredFilesLayout()
    ensures Run(DefaultGeometry, Viewport(1000, 500), ConfiguredFiles)
         == Layout([Some(Pos(880, 50)), Some(Pos(880, 150)), Some(Pos(880, 250)),
                     Some(Pos(870, 350)), None],
                    Cursor(710, 50))
  {
    var g, vp := DefaultGeometry, Viewport(1000, 500);
    var p1, p2, p3, p4 := [Plain], [Plain, Plain], [Plain, Plain, Plain], [Plain, Plain, Plain, Highlighted];
    RunSnoc(g, vp, [], Plain);
    assert [] + [Plain] == p1;
    assert Run(g, vp, p1) == Layout([Some(Pos(880, 50))], Cursor(880, 150));
    RunSnoc(g, vp, p1, Plain);
    assert p1 + [Plain] == p2;
    assert Run(g, vp, p2).cursor == Cursor(880, 250);
    RunSnoc(g, vp, p2, Plain);
    assert p2 + [Plain] == p3;
    assert Run(g, vp, p3).cursor == Cursor(880, 350);
    RunSnoc(g, vp, p3, Highlighted);
    assert p3 + [Highlighted] == p4;
    assert Run(g, vp, p4).cursor == Cursor(710, 50);
    RunSnoc(g, vp, p4, Centered);
    assert p4 + [Centered] == ConfiguredFiles;
  }

  /**
   * Six plain items on a 1000 by 500 viewport: four fit in the first column
   * (the next would end at 530), the last two open a second column at
   * x = 880 - 160 = 720.
   */
  lemma SixPlainItems()
    ensures Positions(DefaultGeometry, Viewport(1000, 500), [Plain, Plain, Plain, Plain, Plain, Plain])
         == [Some(Pos(880, 50)), Some(Pos(880, 150)), Some(Pos(880, 250)), Some(Pos(880, 350)),
             Some(Pos(720, 50)), Some(Pos(720, 150))]
  {
    var g, vp := DefaultGeometry, Viewport(1000, 500);
    FirstFourPlain();
    var p4 := [Plain, Plain, Plain, Plain];
    var p5 := [Plain, Plain, Plain, Plain, Plain];
    var s4 := [Some(Pos(880, 50)), Some(Pos(880, 150)), Some(Pos(880, 250)), Some(Pos(880, 350))];
    RunSnoc(g, vp, p4, Plain);
    assert p4 + [Plain] == p5;
    assert Run(g, vp, p5) == Layout(s4 + [Some(Pos(720, 50))], Cursor(720, 150));
    RunSnoc(g, vp, p5, Plain);
    assert p5 + [Plain] == [Plain, Plain, Plain, Plain, Plain, Plain];
  }

  /** The first four of six plain items on a 1000 by 500 viewport fill the first column. */
  lemma FirstFourPlain()
    ensures Run(DefaultGeometry, Viewport(1000, 500), [Plain, Plain, Plain, Plain])
         == Layout([Some(Pos(880, 50)), Some(Pos(880, 150)), Some(Pos(880, 250)), Some(Pos(880, 350))],
                   Cursor(720, 50))
  {
    var g, vp := DefaultGeometry, Viewport(1000, 500);
    var p1, p2, p3 := [Plain], [Plain, Plain], [Plain, Plain, Plain];
    RunSnoc(g, vp, [], Plain);
    assert [] + [Plain] == p1;
    assert Run(g, vp, p1) == Layout([Some(Pos(880, 50))], Cursor(880, 150));
    RunSnoc(g, vp, p1, Plain);
    assert p1 + [Plain] == p2;
    assert Run(g, vp, p2) == Layout([Some(Pos(880, 50)), Some(Pos(880, 150))], Cursor(880, 250));
    RunSnoc(g, vp, p2, Plain);
    assert p2 + [Plain] == p3;
    RunSnoc(g, vp, p3, Plain);
    assert p3 + [Plain] == [Plain, Plain, Plain, Plain];
  }

  /**
   * A viewport 200 high: after the first icon at y = 50 the cursor would be
   * at 150, and 150 + 80 > 200, so the column breaks at once and each icon
   * opens a column of its own.
   */
  lemma ShortViewport()
    ensures Positions(DefaultGeometry, Viewport(1000, 200), [Plain, Plain, Plain])
         == [Some(Pos(880, 50)), Some(Pos(720, 50)), Some(Pos(560, 50))]
  {
    var g, vp := DefaultGeometry, Viewport(1000, 200);
    RunSnoc(g, vp, [], Plain);
    assert [] + [Plain] == [Plain];
    assert Run(g, vp, [Plain]) == Layout([Some(Pos(880, 50))], Cursor(720, 50));
    RunSnoc(g, vp, [Plain], Plain);
    assert [Plain] + [Plain] == [Plain, Plain];
    assert Run(g, vp, [Plain, Plain]).cursor == Cursor(560, 50);
    RunSnoc(g, vp, [Plain, Plain], Plain);
    assert [Plain, Plain] + [Plain] == [Plain, Plain, Plain];
  }

  /**
   * On the same 200-pixel-high viewport the seventh plain icon is six
   * columns of 160 left of x = 880, at x = -80: x is never clamped.
   */
  lemma NegativeX()
    ensures Positions(DefaultGeometry, Viewport(1000, 200), seq(7, _ => Plain))[6] == Some(Pos(-80, 50))
  {
    OnePerColumn(DefaultGeometry, Viewport(1000, 200), seq(7, _ => Plain), 6);
  }

  /**
   * Two plain items on a 1000 by 150 viewport meet the looser bound
   * `marginTop + N * (fileHeight + verticalGap) <= height + fileHeight + verticalGap`
   * (250 <= 250), yet the second opens a new column: the bottom of the next
   * icon, not its top, decides the column break.
   */
  lemma LooseBoundBreaks()
    ensures DefaultGeometry.marginTop + 2 * RowStep(DefaultGeometry)
            <= 150 + DefaultGeometry.fileHeight + DefaultGeometry.verticalGap
    ensures Positions(DefaultGeometry, Viewport(1000, 150), [Plain, Plain])
         == [Some(Pos(880, 50)), Some(Pos(720, 50))]
  {
    var g, vp, items := DefaultGeometry, Viewport(1000, 150), [Plain, Plain];
    OnePerColumn(g, vp, items, 0);
    OnePerColumn(g, vp, items, 1);
  }

  /**
   * A viewport shorter than one icon: the first icon is still placed at the
   * top margin and overflows the bottom edge, since the bottom edge is only
   * checked after an icon is placed.
   */
  lemma TinyViewport()
    ensures Positions(DefaultGeometry, Viewport(1000, 100), [Highlighted])
         == [Some(Pos(870, 50))]
    ensures Positions(DefaultGeometry, Viewport(1000, 100), [Highlighted])[0].value.y
            + DefaultGeometry.fileHeight > 100
  {
    RunSnoc(DefaultGeometry, Viewport(1000, 100), [], Highlighted);
    assert [] + [Highlighted] == [Highlighted];
  }
}
