/** `update_y_position` and `create_pdf_cover` over a canvas object that
    records what it is asked to draw. The method follows the drawing code
    statement by statement; a ghost list of the steps taken so far ties its
    state to `Layout.Run`, so everything proved about the layout holds of the
    canvas it fills. */
module Cover {
  import opened Strings
  import opened BibFields
  import opened Layout

  /** The PDF canvas, reduced to the operations it was asked to carry out, in order. */
  class Canvas {
    var ops: seq<DrawOp>

    constructor()
      ensures ops == []
    {
      ops := [];
    }

    /** `drawString(x, y, text)`. */
    method DrawString(x: int, y: int, text: string)
      modifies this
      ensures ops == old(ops) + [Text(x, y, text)]
    {
      ops := ops + [Text(x, y, text)];
    }

    /** `drawImage(path, x, y, width=w, height=h)`. */
    method DrawImage(path: string, x: int, y: int, w: int, h: int)
      modifies this
      ensures ops == old(ops) + [Image(path, x, y, w, h)]
    {
      ops := ops + [Image(path, x, y, w, h)];
    }

    /** `linkURL(url, (x1, y1, x2, y2))`. */
    method LinkURL(url: string, x1: int, y1: int, x2: int, y2: int)
      modifies this
      ensures ops == old(ops) + [LinkRegion(url, x1, y1, x2, y2)]
    {
      ops := ops + [LinkRegion(url, x1, y1, x2, y2)];
    }

    /** `showPage()`: close the current page and start a new one. */
    method ShowPage()
      modifies this
      ensures ops == old(ops) + [PageBreak]
    {
      ops := ops + [PageBreak];
    }
  }

  /** Move the cursor down by `offset`; when that would cross the bottom
      margin, break the page and put the cursor at the top of the new one. */
  method UpdateYPosition(y: int, offset: int, height: int, topMargin: int, bottomMargin: int, c: Canvas)
    returns (newY: int)
    modifies c
    ensures y - offset >= bottomMargin ==> newY == y - offset && c.ops == old(c.ops)
    ensures y - offset < bottomMargin ==> newY == height - topMargin && c.ops == old(c.ops) + [PageBreak]
    ensures newY == NextY(y, offset, height, topMargin, bottomMargin)
  {
    newY := y - offset;
    if newY < bottomMargin {
      c.ShowPage();
      newY := height - topMargin;
    }
  }

  /** Lay out the cover sheet of a record on a fresh canvas. The logo path
      is the answer to the logo prompt ("" to skip) and `wrap` is the line
      breaker. The canvas ends up holding exactly the operations of
      `CoverOps`: the logo image when a path is given, then the header and
      the record's lines in document order. On a page at least 100 tall
      these lie inside the margins and never move up within a page. The
      sections are drawn by the methods below, one per section of the
      drawing code. */
  method CreatePdfCover(r: Record, logoFile: string, page: PageSize, wrap: Wrap) returns (c: Canvas)
    ensures fresh(c)
    ensures c.ops == CoverOps(r, logoFile, page, wrap)
    ensures TextsOf(c.ops) == DocumentLines(r, page, wrap)
    ensures Top(page) >= BottomMargin ==> PlacedInBand(c.ops, page) && DescendsWithinPages(c.ops)
  {
    c := new Canvas();
    var width, height := page.width, page.height;
    var y := height - TopMargin;

    // Logo
    if logoFile != "" {
      c.DrawImage(logoFile, width - RightMargin - LogoWidth, height - TopMargin - LogoHeight, LogoWidth, LogoHeight);
      RunSnoc([], Logo(logoFile), page);
    }
    ghost var done := LogoSteps(logoFile);

    y := DrawHeader(c, y, page, done);
    done := done + HeaderSteps();

    // Title
    var titleLines := wrap(r.title, HelveticaBold, 16, width - LeftMargin - RightMargin);
    y := DrawLines(c, y, titleLines, 20, page, done);
    done := done + TitleSteps(r, page, wrap);

    // Authors
    var authorLines := wrap("Authors: " + r.authors, Helvetica, 12, width - LeftMargin - RightMargin);
    y := DrawLines(c, y, authorLines, 15, page, done);
    done := done + AuthorSteps(r, page, wrap);

    y := DrawVenue(c, y, r, page, done);
    done := done + VenueSteps(r);
    y := DrawDetails(c, y, r, page, wrap, done);
    done := done + DetailSteps(r, page, wrap);
    y := DrawLink(c, y, r, page, done);
    done := done + LinkSteps(r);
    y := DrawArxiv(c, y, r, page, done);
    done := done + ArxivSteps(r);
    y := DrawAbstract(c, y, r, page, wrap, done);
    done := done + AbstractSteps(r, page, wrap);
    y := DrawCitation(c, y, r, page, wrap, done);
    done := done + CitationSteps(r, page, wrap);
    assert done == CoverSteps(r, logoFile, page, wrap);

    CoverTexts(r, logoFile, page, wrap);
    if Top(page) >= BottomMargin {
      CoverCursor(r, logoFile, page, wrap);
    }
  }

  /** The header: "Preprint Version" and the explanatory sentence. */
  method DrawHeader(c: Canvas, y: int, page: PageSize, ghost done: seq<Step>) returns (newY: int)
    requires Run(done, page) == Pen(y, c.ops)
    modifies c
    ensures Run(done + HeaderSteps(), page) == Pen(newY, c.ops)
  {
    newY := UpdateYPosition(y, 20, page.height, TopMargin, BottomMargin, c);
    RunSnoc(done, Advance(20), page);
    ghost var steps := done + [Advance(20)];
    newY := DrawLine(c, LeftMargin, newY, "Preprint Version", 30, page, steps);
    steps := steps + [Draw(LeftMargin, "Preprint Version"), Advance(30)];
    newY := DrawLine(c, LeftMargin, newY, "This is a preprint version of the following publication:", 30, page, steps);
    steps := steps + [Draw(LeftMargin, "This is a preprint version of the following publication:"), Advance(30)];
    assert steps == done + HeaderSteps();
  }

  /** "Published in: venue (year)", after a small gap. */
  method DrawVenue(c: Canvas, y: int, r: Record, page: PageSize, ghost done: seq<Step>) returns (newY: int)
    requires Run(done, page) == Pen(y, c.ops)
    modifies c
    ensures Run(done + VenueSteps(r), page) == Pen(newY, c.ops)
  {
    ghost var steps := done;
    newY := UpdateYPosition(y, 5, page.height, TopMargin, BottomMargin, c);
    RunSnoc(steps, Advance(5), page);
    steps := steps + [Advance(5)];
    newY := DrawLine(c, LeftMargin, newY, "Published in: " + r.journal + " (" + r.year + ")", 20, page, steps);
    assert steps + [Draw(LeftMargin, "Published in: " + r.journal + " (" + r.year + ")"), Advance(20)]
        == done + VenueSteps(r);
  }

  /** Volume and issue, pages, publisher, editors, institution, series: each when present. */
  method DrawDetails(c: Canvas, y: int, r: Record, page: PageSize, wrap: Wrap, ghost done: seq<Step>)
    returns (newY: int)
    requires Run(done, page) == Pen(y, c.ops)
    modifies c
    ensures Run(done + DetailSteps(r, page, wrap), page) == Pen(newY, c.ops)
  {
    newY := DrawVolume(c, y, r, page, done);
    ghost var steps := done + VolumeSteps(r);
    newY := DrawIfSet(c, newY, "Pages: ", r.pages, page, steps);
    steps := steps + IfSet("Pages: ", r.pages);
    newY := DrawIfSet(c, newY, "Publisher: ", r.publisher, page, steps);
    steps := steps + IfSet("Publisher: ", r.publisher);
    newY := DrawEditors(c, newY, r, page, wrap, steps);
    steps := steps + EditorSteps(r, page, wrap);
    newY := DrawIfSet(c, newY, "Institution: ", r.institution, page, steps);
    steps := steps + IfSet("Institution: ", r.institution);
    newY := DrawIfSet(c, newY, "Series: ", r.series, page, steps);
    steps := steps + IfSet("Series: ", r.series);
    AppendSix(done, VolumeSteps(r), IfSet("Pages: ", r.pages), IfSet("Publisher: ", r.publisher),
              EditorSteps(r, page, wrap), IfSet("Institution: ", r.institution), IfSet("Series: ", r.series));
  }

  /** The volume line, drawn only when both the volume and the issue are set. */
  method DrawVolume(c: Canvas, y: int, r: Record, page: PageSize, ghost done: seq<Step>) returns (newY: int)
    requires Run(done, page) == Pen(y, c.ops)
    modifies c
    ensures Run(done + VolumeSteps(r), page) == Pen(newY, c.ops)
  {
    newY := y;
    if r.volume != "" && r.issue != "" {
      newY := DrawLine(c, LeftMargin, newY, "Volume: " + r.volume + ", Issue: " + r.issue, 20, page, done);
    } else {
      assert done + VolumeSteps(r) == done;
    }
  }

  /** The editors, wrapped and re-joined into one line, when there are any. */
  method DrawEditors(c: Canvas, y: int, r: Record, page: PageSize, wrap: Wrap, ghost done: seq<Step>)
    returns (newY: int)
    requires Run(done, page) == Pen(y, c.ops)
    modifies c
    ensures Run(done + EditorSteps(r, page, wrap), page) == Pen(newY, c.ops)
  {
    newY := y;
    if r.editors != "" {
      var editors := Join(wrap(r.editors, Helvetica, 12, page.width - 100), " ");
      newY := DrawLine(c, LeftMargin, newY, "Edited by: " + editors, 20, page, done);
    } else {
      assert done + EditorSteps(r, page, wrap) == done;
    }
  }

  /** The DOI or URL line with its clickable area, when there is a link. */
  method DrawLink(c: Canvas, y: int, r: Record, page: PageSize, ghost done: seq<Step>) returns (newY: int)
    requires Run(done, page) == Pen(y, c.ops)
    modifies c
    ensures Run(done + LinkSteps(r), page) == Pen(newY, c.ops)
  {
    newY := y;
    if r.link != "" {
      c.DrawString(LeftMargin, newY, "Official version available at: ");
      RunSnoc(done, Draw(LeftMargin, "Official version available at: "), page);
      ghost var steps := done + [Draw(LeftMargin, "Official version available at: ")];
      c.LinkURL(r.link, LeftMargin + LinkIndent, newY, LinkRight, newY + LinkHeight);
      RunSnoc(steps, Link(r.link), page);
      steps := steps + [Link(r.link)];
      newY := DrawLine(c, LeftMargin + LinkIndent, newY, r.link, 20, page, steps);
      assert steps + [Draw(LeftMargin + LinkIndent, r.link), Advance(20)] == done + LinkSteps(r);
    } else {
      assert done + LinkSteps(r) == done;
    }
  }

  /** The arXiv identifier when there is one, then a small gap. */
  method DrawArxiv(c: Canvas, y: int, r: Record, page: PageSize, ghost done: seq<Step>) returns (newY: int)
    requires Run(done, page) == Pen(y, c.ops)
    modifies c
    ensures Run(done + ArxivSteps(r), page) == Pen(newY, c.ops)
  {
    newY := DrawIfSet(c, y, "ArXiv ID: ", r.arxivId, page, done);
    newY := UpdateYPosition(newY, 5, page.height, TopMargin, BottomMargin, c);
    RunSnoc(done + IfSet("ArXiv ID: ", r.arxivId), Advance(5), page);
    assert done + IfSet("ArXiv ID: ", r.arxivId) + [Advance(5)] == done + ArxivSteps(r);
  }

  /** The "Abstract" heading and the wrapped abstract, when there is one. */
  method DrawAbstract(c: Canvas, y: int, r: Record, page: PageSize, wrap: Wrap, ghost done: seq<Step>)
    returns (newY: int)
    requires Run(done, page) == Pen(y, c.ops)
    modifies c
    ensures Run(done + AbstractSteps(r, page, wrap), page) == Pen(newY, c.ops)
  {
    newY := y;
    if r.summary != "" {
      newY := DrawLine(c, LeftMargin, newY, "Abstract", 15, page, done);
      var summaryLines := wrap(r.summary, Helvetica, 10, page.width - 100);
      newY := DrawLines(c, newY, summaryLines, 12, page, done + [Draw(LeftMargin, "Abstract"), Advance(15)]);
      assert done + [Draw(LeftMargin, "Abstract"), Advance(15)] + Lines(summaryLines, 12)
          == done + AbstractSteps(r, page, wrap);
    } else {
      assert done + AbstractSteps(r, page, wrap) == done;
    }
  }

  /** The citation heading and the raw BibTeX text, wrapped. */
  method DrawCitation(c: Canvas, y: int, r: Record, page: PageSize, wrap: Wrap, ghost done: seq<Step>)
    returns (newY: int)
    requires Run(done, page) == Pen(y, c.ops)
    modifies c
    ensures Run(done + CitationSteps(r, page, wrap), page) == Pen(newY, c.ops)
  {
    ghost var heading := [Advance(13), Draw(LeftMargin, CiteHeading), Advance(15)];
    newY := UpdateYPosition(y, 13, page.height, TopMargin, BottomMargin, c);
    RunSnoc(done, Advance(13), page);
    newY := DrawLine(c, LeftMargin, newY, CiteHeading, 15, page, done + [Advance(13)]);
    assert Run(done + heading, page) == Pen(newY, c.ops) by {
      AppendAssoc(done, [Advance(13)], [Draw(LeftMargin, CiteHeading), Advance(15)]);
      assert [Advance(13)] + [Draw(LeftMargin, CiteHeading), Advance(15)] == heading;
    }
    var bibLines := wrap(r.bibContent, Courier, 8, page.width - 100);
    newY := DrawLines(c, newY, bibLines, 10, page, done + heading);
    assert done + heading + Lines(bibLines, 10) == done + CitationSteps(r, page, wrap) by {
      AppendAssoc(done, heading, Lines(bibLines, 10));
    }
  }

  /** One line of text at `x`, then the cursor moves down by `offset`. */
  method DrawLine(c: Canvas, x: int, y: int, text: string, offset: int, page: PageSize, ghost done: seq<Step>)
    returns (newY: int)
    requires Run(done, page) == Pen(y, c.ops)
    modifies c
    ensures Run(done + [Draw(x, text), Advance(offset)], page) == Pen(newY, c.ops)
  {
    c.DrawString(x, y, text);
    RunSnoc(done, Draw(x, text), page);
    newY := UpdateYPosition(y, offset, page.height, TopMargin, BottomMargin, c);
    RunSnoc(done + [Draw(x, text)], Advance(offset), page);
    assert done + [Draw(x, text)] + [Advance(offset)] == done + [Draw(x, text), Advance(offset)];
  }

  /** `if value:` draw "caption value" and advance by 20. */
  method DrawIfSet(c: Canvas, y: int, caption: string, value: string, page: PageSize, ghost done: seq<Step>)
    returns (newY: int)
    requires Run(done, page) == Pen(y, c.ops)
    modifies c
    ensures Run(done + IfSet(caption, value), page) == Pen(newY, c.ops)
  {
    newY := y;
    if value != "" {
      newY := DrawLine(c, LeftMargin, y, caption + value, 20, page, done);
    } else {
      assert done + IfSet(caption, value) == done;
    }
  }

  /** A `for line in lines:` loop: each line at the left margin, each followed
      by an advance of `offset`. */
  method DrawLines(c: Canvas, y: int, lines: seq<string>, offset: int, page: PageSize, ghost done: seq<Step>)
    returns (newY: int)
    requires Run(done, page) == Pen(y, c.ops)
    modifies c
    ensures Run(done + Lines(lines, offset), page) == Pen(newY, c.ops)
  {
    newY := y;
    ghost var steps := done;
    assert Lines(lines[..0], offset) == [];
    for i := 0 to |lines|
      invariant steps == done + Lines(lines[..i], offset)
      invariant Run(steps, page) == Pen(newY, c.ops)
    {
      newY := DrawLine(c, LeftMargin, newY, lines[i], offset, page, steps);
      steps := steps + [Draw(LeftMargin, lines[i]), Advance(offset)];
      LinesSnoc(lines, i, offset);
    }
    assert lines[..|lines|] == lines;
  }
}
