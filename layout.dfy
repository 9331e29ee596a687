/** The layout engine of `create_pdf_cover`, as data.

    The drawing code is a fixed sequence of three kinds of action: draw a
    string at the cursor, move the cursor (`update_y_position`), and the two
    one-off actions for the logo and the clickable link. `Step` names those
    actions, `CoverSteps` lists them in document order, and `Run` plays a
    list of steps from the top of the first page, producing the draw
    operations the canvas receives. */
module Layout {
  import opened Strings
  import opened BibFields

  const LeftMargin := 50
  const RightMargin := 50
  const TopMargin := 50
  const BottomMargin := 50
  const LogoWidth := 100
  const LogoHeight := 50
  /** The link text and its clickable area start this far right of the left margin. */
  const LinkIndent := 150
  /** The clickable area ends at this x and is this tall. */
  const LinkRight := 500
  const LinkHeight := 12
  /** The heading of the citation block. */
  const CiteHeading := "How to cite this work (.bib)"

  /** The page size handed to the canvas (A4 in the program). */
  datatype PageSize = PageSize(width: int, height: int)

  /** Where a page's first line goes. */
  function Top(page: PageSize): int
  {
    page.height - TopMargin
  }

  /** Width used for the title and the authors. */
  function ContentWidth(page: PageSize): int
  {
    page.width - LeftMargin - RightMargin
  }

  /** Width used for the editors, the abstract and the BibTeX block. */
  function NarrowWidth(page: PageSize): int
  {
    page.width - 100
  }

  datatype Font = Helvetica | HelveticaBold | Courier

  /** reportlab's `simpleSplit(text, fontName, fontSize, maxWidth)`: the lines
      a text is wrapped into. Its font metrics are outside the model, so the
      layout takes it as a parameter and assumes nothing about it. */
  type Wrap = (string, Font, int, int) -> seq<string>

  /** What the canvas is asked to do. */
  datatype DrawOp =
    | Text(x: int, y: int, text: string)
    | Image(path: string, x: int, y: int, w: int, h: int)
    | LinkRegion(url: string, x1: int, y1: int, x2: int, y2: int)
    | PageBreak

  /** One action of the drawing code. */
  datatype Step =
    | Draw(x: int, text: string)  // c.drawString(x, y_position, text)
    | Advance(offset: int)        // y_position = update_y_position(y_position, offset, ...)
    | Logo(path: string)          // c.drawImage(...) in the top-right box
    | Link(url: string)           // c.linkURL(url, (left + 150, y, 500, y + 12))

  /** The cursor and everything drawn so far. */
  datatype Pen = Pen(y: int, ops: seq<DrawOp>)

  /** The value `update_y_position` returns. */
  function NextY(y: int, offset: int, height: int, topMargin: int, bottomMargin: int): (y': int)
    // Either one plain step down, or back to the top of a fresh page when the step would cross the bottom margin.
    ensures y - offset >= bottomMargin ==> y' == y - offset
    ensures y - offset < bottomMargin ==> y' == height - topMargin
    // A page tall enough for one line keeps the cursor at or above the bottom margin.
    ensures height - topMargin >= bottomMargin ==> y' >= bottomMargin
  {
    if y - offset < bottomMargin then height - topMargin else y - offset
  }

  /** One step. Only `Advance` moves the cursor, and only it breaks pages. */
  function Exec(p: Pen, s: Step, page: PageSize): (q: Pen)
    // Only an advance moves the cursor.
    ensures !s.Advance? ==> q.y == p.y
    ensures s.Advance? ==> q.y == NextY(p.y, s.offset, page.height, TopMargin, BottomMargin)
    // Every step issues at most one operation, and only an advance can issue a page break.
    ensures |q.ops| <= |p.ops| + 1
    ensures PageBreak in q.ops && PageBreak !in p.ops ==> s.Advance? && p.y - s.offset < BottomMargin
  {
    match s
    case Draw(x, text) => Pen(p.y, p.ops + [Text(x, p.y, text)])
    case Advance(offset) =>
      Pen(NextY(p.y, offset, page.height, TopMargin, BottomMargin),
          p.ops + (if p.y - offset < BottomMargin then [PageBreak] else []))
    case Logo(path) =>
      Pen(p.y, p.ops + [Image(path, page.width - RightMargin - LogoWidth,
                              page.height - TopMargin - LogoHeight, LogoWidth, LogoHeight)])
    case Link(url) =>
      Pen(p.y, p.ops + [LinkRegion(url, LeftMargin + LinkIndent, p.y, LinkRight, p.y + LinkHeight)])
  }

  /** One step keeps everything drawn before it and adds to the end; the
      page break it adds, if any, comes from an advance that crosses the
      bottom margin. */
  lemma ExecAppends(p: Pen, s: Step, page: PageSize)
    ensures Exec(p, s, page).ops[..|p.ops|] == p.ops
    ensures PageBreak in Exec(p, s, page).ops[|p.ops|..] <==> s.Advance? && p.y - s.offset < BottomMargin
  {
  }

  /** The steps played in order from the top of the first page. */
  function Run(steps: seq<Step>, page: PageSize): (p: Pen)
    // Every step issues at most one operation.
    ensures |p.ops| <= |steps|
    decreases |steps|
  {
    if |steps| == 0 then Pen(Top(page), [])
    else Exec(Run(steps[..|steps| - 1], page), steps[|steps| - 1], page)
  }

  /** Playing more steps never changes what was drawn before them. */
  lemma {:induction false} RunExtends(steps: seq<Step>, k: nat, page: PageSize)
    requires k <= |steps|
    ensures |Run(steps[..k], page).ops| <= |Run(steps, page).ops|
    ensures Run(steps, page).ops[..|Run(steps[..k], page).ops|] == Run(steps[..k], page).ops
    decreases |steps|
  {
    if k < |steps| {
      var prefix := steps[..|steps| - 1];
      assert prefix[..k] == steps[..k];
      RunExtends(prefix, k, page);
      ExecAppends(Run(prefix, page), steps[|steps| - 1], page);
    } else {
      assert steps[..k] == steps;
    }
  }

  /** Playing one more step. */
  lemma RunSnoc(steps: seq<Step>, s: Step, page: PageSize)
    ensures Run(steps + [s], page) == Exec(Run(steps, page), s, page)
  {
    assert (steps + [s])[..|steps|] == steps;
  }

  /** Regrouping three appended pieces. */
  lemma AppendAssoc(a: seq<Step>, b: seq<Step>, c: seq<Step>)
    ensures a + b + c == a + (b + c)
  {
  }

  /** Regrouping a run of appended sections. */
  lemma AppendSix(done: seq<Step>, a: seq<Step>, b: seq<Step>, c: seq<Step>, d: seq<Step>, e: seq<Step>, f: seq<Step>)
    ensures done + a + b + c + d + e + f == done + (a + b + c + d + e + f)
  {
  }

  /** Regrouping the ten sections of the sheet as head, details and tail. */
  lemma RegroupTen(a: seq<Step>, b: seq<Step>, c: seq<Step>, d: seq<Step>, e: seq<Step>,
                   f: seq<Step>, g: seq<Step>, h: seq<Step>, i: seq<Step>, j: seq<Step>)
    ensures a + b + c + d + e + f + g + h + i + j == (a + b + c + d + e) + f + (g + h + i + j)
  {
  }

  /** A `for line in lines:` loop: draw the line at the left margin, then advance. */
  function Lines(lines: seq<string>, offset: int): (steps: seq<Step>)
    // One draw and one advance per line.
    ensures |steps| == 2 * |lines|
    decreases |lines|
  {
    if |lines| == 0 then []
    else Lines(lines[..|lines| - 1], offset) + [Draw(LeftMargin, lines[|lines| - 1]), Advance(offset)]
  }

  /** Line i is drawn at step 2i and followed by its advance at step 2i + 1. */
  lemma {:induction false} LinesAt(lines: seq<string>, offset: int)
    ensures forall i :: 0 <= i < |lines| ==>
      Lines(lines, offset)[2 * i] == Draw(LeftMargin, lines[i]) && Lines(lines, offset)[2 * i + 1] == Advance(offset)
    decreases |lines|
  {
    if |lines| > 0 {
      var prefix := lines[..|lines| - 1];
      LinesAt(prefix, offset);
      forall i | 0 <= i < |lines|
        ensures Lines(lines, offset)[2 * i] == Draw(LeftMargin, lines[i]) && Lines(lines, offset)[2 * i + 1] == Advance(offset)
      {
        if i < |lines| - 1 {
          assert lines[i] == prefix[i];
        }
      }
    }
  }

  /** One more pass of the line loop. */
  lemma LinesSnoc(lines: seq<string>, i: int, offset: int)
    requires 0 <= i < |lines|
    ensures Lines(lines[..i + 1], offset) == Lines(lines[..i], offset) + [Draw(LeftMargin, lines[i]), Advance(offset)]
  {
    assert lines[..i + 1][..i] == lines[..i];
  }

  /** A metadata line drawn only when its value is non-empty. */
  function IfSet(caption: string, value: string): seq<Step>
  {
    if value != "" then [Draw(LeftMargin, caption + value), Advance(20)] else []
  }

  function LogoSteps(logoFile: string): seq<Step>
  {
    if logoFile != "" then [Logo(logoFile)] else []
  }

  function HeaderSteps(): seq<Step>
  {
    [Advance(20), Draw(LeftMargin, "Preprint Version"), Advance(30),
     Draw(LeftMargin, "This is a preprint version of the following publication:"), Advance(30)]
  }

  function TitleSteps(r: Record, page: PageSize, wrap: Wrap): seq<Step>
  {
    Lines(wrap(r.title, HelveticaBold, 16, ContentWidth(page)), 20)
  }

  function AuthorSteps(r: Record, page: PageSize, wrap: Wrap): seq<Step>
  {
    Lines(wrap("Authors: " + r.authors, Helvetica, 12, ContentWidth(page)), 15)
  }

  function VenueSteps(r: Record): seq<Step>
  {
    [Advance(5), Draw(LeftMargin, "Published in: " + r.journal + " (" + r.year + ")"), Advance(20)]
  }

  /** The editors are wrapped and re-joined with single spaces into one line. */
  function EditorsLine(r: Record, page: PageSize, wrap: Wrap): string
  {
    "Edited by: " + Join(wrap(r.editors, Helvetica, 12, NarrowWidth(page)), " ")
  }

  /** The volume line needs both the volume and the issue. */
  function VolumeSteps(r: Record): seq<Step>
  {
    if r.volume != "" && r.issue != ""
    then [Draw(LeftMargin, "Volume: " + r.volume + ", Issue: " + r.issue), Advance(20)] else []
  }

  function EditorSteps(r: Record, page: PageSize, wrap: Wrap): seq<Step>
  {
    if r.editors != "" then [Draw(LeftMargin, EditorsLine(r, page, wrap)), Advance(20)] else []
  }

  function DetailSteps(r: Record, page: PageSize, wrap: Wrap): seq<Step>
  {
    VolumeSteps(r) + IfSet("Pages: ", r.pages) + IfSet("Publisher: ", r.publisher)
    + EditorSteps(r, page, wrap) + IfSet("Institution: ", r.institution) + IfSet("Series: ", r.series)
  }

  function LinkSteps(r: Record): seq<Step>
  {
    if r.link != "" then
      [Draw(LeftMargin, "Official version available at: "), Link(r.link),
       Draw(LeftMargin + LinkIndent, r.link), Advance(20)]
    else []
  }

  function ArxivSteps(r: Record): seq<Step>
  {
    IfSet("ArXiv ID: ", r.arxivId) + [Advance(5)]
  }

  function AbstractSteps(r: Record, page: PageSize, wrap: Wrap): seq<Step>
  {
    if r.summary != "" then
      [Draw(LeftMargin, "Abstract"), Advance(15)]
      + Lines(wrap(r.summary, Helvetica, 10, NarrowWidth(page)), 12)
    else []
  }

  function CitationSteps(r: Record, page: PageSize, wrap: Wrap): seq<Step>
  {
    [Advance(13), Draw(LeftMargin, CiteHeading), Advance(15)]
    + Lines(wrap(r.bibContent, Courier, 8, NarrowWidth(page)), 10)
  }

  /** Every action of `create_pdf_cover`, in document order. */
  function CoverSteps(r: Record, logoFile: string, page: PageSize, wrap: Wrap): (steps: seq<Step>)
    // No advance of the cover sheet has a negative offset.
    ensures ForwardOnly(steps)
  {
    CoverForward(r, logoFile, page, wrap);
    LogoSteps(logoFile) + HeaderSteps() + TitleSteps(r, page, wrap) + AuthorSteps(r, page, wrap)
    + VenueSteps(r) + DetailSteps(r, page, wrap) + LinkSteps(r) + ArxivSteps(r)
    + AbstractSteps(r, page, wrap) + CitationSteps(r, page, wrap)
  }

  /** The draw operations of the cover sheet. */
  function CoverOps(r: Record, logoFile: string, page: PageSize, wrap: Wrap): seq<DrawOp>
  {
    Run(CoverSteps(r, logoFile, page, wrap), page).ops
  }

  // ---------------------------------------------------------------------------
  // What is drawn, regardless of pagination

  /** The strings of the text operations, in order. */
  function TextsOf(ops: seq<DrawOp>): seq<string>
  {
    if |ops| == 0 then []
    else (if ops[0].Text? then [ops[0].text] else []) + TextsOf(ops[1..])
  }

  /** The strings of the `Draw` steps, in order. */
  function LinesOf(steps: seq<Step>): seq<string>
  {
    if |steps| == 0 then []
    else (if steps[0].Draw? then [steps[0].text] else []) + LinesOf(steps[1..])
  }

  /** A line shown only when its value is non-empty. */
  function Optional(caption: string, value: string): seq<string>
  {
    if value != "" then [caption + value] else []
  }

  function VolumeLines(r: Record): seq<string>
  {
    if r.volume != "" && r.issue != "" then ["Volume: " + r.volume + ", Issue: " + r.issue] else []
  }

  function EditorLines(r: Record, page: PageSize, wrap: Wrap): seq<string>
  {
    if r.editors != "" then [EditorsLine(r, page, wrap)] else []
  }

  function DetailLines(r: Record, page: PageSize, wrap: Wrap): seq<string>
  {
    VolumeLines(r) + Optional("Pages: ", r.pages) + Optional("Publisher: ", r.publisher)
    + EditorLines(r, page, wrap) + Optional("Institution: ", r.institution) + Optional("Series: ", r.series)
  }

  function LinkLines(r: Record): seq<string>
  {
    if r.link != "" then ["Official version available at: ", r.link] else []
  }

  function AbstractLines(r: Record, page: PageSize, wrap: Wrap): seq<string>
  {
    if r.summary != "" then ["Abstract"] + wrap(r.summary, Helvetica, 10, NarrowWidth(page)) else []
  }

  function CitationLines(r: Record, page: PageSize, wrap: Wrap): seq<string>
  {
    [CiteHeading] + wrap(r.bibContent, Courier, 8, NarrowWidth(page))
  }

  /** The text lines of the cover sheet in reading order: the two heading
      lines, the wrapped title and authors, the venue line, the metadata lines
      whose values are set, the link, the arXiv identifier, the abstract when
      there is one, and the wrapped BibTeX source. */
  function DocumentLines(r: Record, page: PageSize, wrap: Wrap): seq<string>
  {
    ["Preprint Version", "This is a preprint version of the following publication:"]
    + wrap(r.title, HelveticaBold, 16, ContentWidth(page))
    + wrap("Authors: " + r.authors, Helvetica, 12, ContentWidth(page))
    + ["Published in: " + r.journal + " (" + r.year + ")"]
    + DetailLines(r, page, wrap)
    + LinkLines(r)
    + Optional("ArXiv ID: ", r.arxivId)
    + AbstractLines(r, page, wrap)
    + CitationLines(r, page, wrap)
  }

  lemma {:induction false} TextsOfAppend(a: seq<DrawOp>, b: seq<DrawOp>)
    ensures TextsOf(a + b) == TextsOf(a) + TextsOf(b)
  {
    if |a| > 0 {
      assert (a + b)[1..] == a[1..] + b;
      TextsOfAppend(a[1..], b);
    } else {
      assert a + b == b;
    }
  }

  lemma {:induction false} LinesOfAppend(a: seq<Step>, b: seq<Step>)
    ensures LinesOf(a + b) == LinesOf(a) + LinesOf(b)
  {
    if |a| > 0 {
      assert (a + b)[1..] == a[1..] + b;
      LinesOfAppend(a[1..], b);
    } else {
      assert a + b == b;
    }
  }

  /** Playing steps draws exactly the strings of their `Draw` steps, in order:
      page breaks never add, drop or reorder text. */
  lemma {:induction false} RunTexts(steps: seq<Step>, page: PageSize)
    ensures TextsOf(Run(steps, page).ops) == LinesOf(steps)
    decreases |steps|
  {
    if |steps| > 0 {
      var prefix, s := steps[..|steps| - 1], steps[|steps| - 1];
      var p := Run(prefix, page);
      var q := Exec(p, s, page);
      var delta := q.ops[|p.ops|..];
      assert q.ops == p.ops + delta;
      assert TextsOf(delta) == LinesOf([s]) by {
        match s
        case Draw(x, text) =>
          assert delta == [Text(x, p.y, text)];
        case Advance(offset) =>
          assert delta == [] || delta == [PageBreak];
        case Logo(path) =>
          assert delta == [q.ops[|p.ops|]] && !delta[0].Text?;
        case Link(url) =>
          assert delta == [q.ops[|p.ops|]] && !delta[0].Text?;
      }
      RunTexts(prefix, page);
      TextsOfAppend(p.ops, delta);
      assert steps == prefix + [s];
      LinesOfAppend(prefix, [s]);
    }
  }

  lemma {:induction false} LinesOfLines(lines: seq<string>, offset: int)
    ensures LinesOf(Lines(lines, offset)) == lines
    decreases |lines|
  {
    if |lines| > 0 {
      var front := lines[..|lines| - 1];
      LinesOfLines(front, offset);
      LinesOfAppend(Lines(front, offset), [Draw(LeftMargin, lines[|lines| - 1]), Advance(offset)]);
      LinesOfPair(lines[|lines| - 1], offset);
      assert lines == front + [lines[|lines| - 1]];
    }
  }

  /** A drawn line followed by an advance contributes that line. */
  lemma LinesOfPair(text: string, offset: int)
    ensures LinesOf([Draw(LeftMargin, text), Advance(offset)]) == [text]
  {
    assert [Draw(LeftMargin, text), Advance(offset)][1..] == [Advance(offset)];
    assert [Advance(offset)][1..] == [];
    assert LinesOf([Advance(offset)]) == [] + LinesOf([]);
  }

  lemma LinesOfIfSet(caption: string, value: string)
    ensures LinesOf(IfSet(caption, value)) == Optional(caption, value)
  {
    if value != "" {
      LinesOfPair(caption + value, 20);
    }
  }

  lemma LinesOfDetails(r: Record, page: PageSize, wrap: Wrap)
    ensures LinesOf(DetailSteps(r, page, wrap)) == DetailLines(r, page, wrap)
  {
    var vol, ed := VolumeSteps(r), EditorSteps(r, page, wrap);
    var pg, pb := IfSet("Pages: ", r.pages), IfSet("Publisher: ", r.publisher);
    var ins, ser := IfSet("Institution: ", r.institution), IfSet("Series: ", r.series);
    assert LinesOf(vol) == VolumeLines(r) by {
      if r.volume != "" && r.issue != "" { LinesOfPair("Volume: " + r.volume + ", Issue: " + r.issue, 20); }
    }
    assert LinesOf(ed) == EditorLines(r, page, wrap) by {
      if r.editors != "" { LinesOfPair(EditorsLine(r, page, wrap), 20); }
    }
    LinesOfIfSet("Pages: ", r.pages);
    LinesOfIfSet("Publisher: ", r.publisher);
    LinesOfIfSet("Institution: ", r.institution);
    LinesOfIfSet("Series: ", r.series);
    LinesOfAppend(vol, pg);
    LinesOfAppend(vol + pg, pb);
    LinesOfAppend(vol + pg + pb, ed);
    LinesOfAppend(vol + pg + pb + ed, ins);
    LinesOfAppend(vol + pg + pb + ed + ins, ser);
  }

  lemma LinesOfLink(r: Record)
    ensures LinesOf(LinkSteps(r)) == LinkLines(r)
  {
    if r.link != "" {
      var l := LinkSteps(r);
      assert l[1..] == [Link(r.link), Draw(LeftMargin + LinkIndent, r.link), Advance(20)];
      assert l[1..][1..] == [Draw(LeftMargin + LinkIndent, r.link), Advance(20)];
      LinesOfPair(r.link, 20);
      assert LinesOf(l[1..]) == [] + LinesOf(l[1..][1..]);
      assert LinesOf(l) == ["Official version available at: "] + LinesOf(l[1..]);
    }
  }

  lemma LinesOfArxiv(r: Record)
    ensures LinesOf(ArxivSteps(r)) == Optional("ArXiv ID: ", r.arxivId)
  {
    LinesOfIfSet("ArXiv ID: ", r.arxivId);
    LinesOfAppend(IfSet("ArXiv ID: ", r.arxivId), [Advance(5)]);
    assert LinesOf([Advance(5)]) == [] + LinesOf([]);
  }

  lemma LinesOfAbstract(r: Record, page: PageSize, wrap: Wrap)
    ensures LinesOf(AbstractSteps(r, page, wrap)) == AbstractLines(r, page, wrap)
  {
    if r.summary != "" {
      var lines := wrap(r.summary, Helvetica, 10, NarrowWidth(page));
      LinesOfLines(lines, 12);
      LinesOfPair("Abstract", 15);
      LinesOfAppend([Draw(LeftMargin, "Abstract"), Advance(15)], Lines(lines, 12));
    }
  }

  lemma LinesOfCitation(r: Record, page: PageSize, wrap: Wrap)
    ensures LinesOf(CitationSteps(r, page, wrap)) == CitationLines(r, page, wrap)
  {
    var head := [Advance(13), Draw(LeftMargin, CiteHeading), Advance(15)];
    var lines := wrap(r.bibContent, Courier, 8, NarrowWidth(page));
    assert head[1..] == [Draw(LeftMargin, CiteHeading), Advance(15)];
    LinesOfPair(CiteHeading, 15);
    LinesOfLines(lines, 10);
    LinesOfAppend(head, Lines(lines, 10));
  }

  lemma LinesOfHeader()
    ensures LinesOf(HeaderSteps()) == ["Preprint Version", "This is a preprint version of the following publication:"]
  {
    var h := HeaderSteps();
    var second := "This is a preprint version of the following publication:";
    assert h[1..] == [Draw(LeftMargin, "Preprint Version"), Advance(30), Draw(LeftMargin, second), Advance(30)];
    assert h[1..][1..] == [Advance(30), Draw(LeftMargin, second), Advance(30)];
    assert h[1..][1..][1..] == [Draw(LeftMargin, second), Advance(30)];
    LinesOfPair(second, 30);
  }

  lemma LinesOfVenue(r: Record)
    ensures LinesOf(VenueSteps(r)) == ["Published in: " + r.journal + " (" + r.year + ")"]
  {
    var v := VenueSteps(r);
    assert v[1..] == [Draw(LeftMargin, "Published in: " + r.journal + " (" + r.year + ")"), Advance(20)];
    LinesOfPair("Published in: " + r.journal + " (" + r.year + ")", 20);
  }

  /** The cover sheet draws exactly `DocumentLines`, in that order. */
  lemma CoverTexts(r: Record, logoFile: string, page: PageSize, wrap: Wrap)
    ensures TextsOf(CoverOps(r, logoFile, page, wrap)) == DocumentLines(r, page, wrap)
  {
    var s0, s1 := LogoSteps(logoFile), HeaderSteps();
    var s2, s3 := TitleSteps(r, page, wrap), AuthorSteps(r, page, wrap);
    var s4, s5 := VenueSteps(r), DetailSteps(r, page, wrap);
    var s6, s7 := LinkSteps(r), ArxivSteps(r);
    var s8, s9 := AbstractSteps(r, page, wrap), CitationSteps(r, page, wrap);
    var l1 := ["Preprint Version", "This is a preprint version of the following publication:"];
    var l2 := wrap(r.title, HelveticaBold, 16, ContentWidth(page));
    var l3 := wrap("Authors: " + r.authors, Helvetica, 12, ContentWidth(page));
    var l4 := ["Published in: " + r.journal + " (" + r.year + ")"];
    var l5, l6, l7 := DetailLines(r, page, wrap), LinkLines(r), Optional("ArXiv ID: ", r.arxivId);
    var l8, l9 := AbstractLines(r, page, wrap), CitationLines(r, page, wrap);
    assert LinesOf(s0) == [] by {
      if logoFile != "" { assert LinesOf(s0) == [] + LinesOf([]); }
    }
    LinesOfHeader();
    LinesOfLines(l2, 20);
    LinesOfLines(l3, 15);
    LinesOfVenue(r);
    LinesOfDetails(r, page, wrap);
    LinesOfLink(r);
    LinesOfArxiv(r);
    LinesOfAbstract(r, page, wrap);
    LinesOfCitation(r, page, wrap);
    var acc := s0;
    assert LinesOf(acc) == [];
    LinesOfAppend(acc, s1); acc := acc + s1;
    assert LinesOf(acc) == l1;
    LinesOfAppend(acc, s2); acc := acc + s2;
    assert LinesOf(acc) == l1 + l2;
    LinesOfAppend(acc, s3); acc := acc + s3;
    assert LinesOf(acc) == l1 + l2 + l3;
    LinesOfAppend(acc, s4); acc := acc + s4;
    assert LinesOf(acc) == l1 + l2 + l3 + l4;
    LinesOfAppend(acc, s5); acc := acc + s5;
    assert LinesOf(acc) == l1 + l2 + l3 + l4 + l5;
    LinesOfAppend(acc, s6); acc := acc + s6;
    assert LinesOf(acc) == l1 + l2 + l3 + l4 + l5 + l6;
    LinesOfAppend(acc, s7); acc := acc + s7;
    assert LinesOf(acc) == l1 + l2 + l3 + l4 + l5 + l6 + l7;
    LinesOfAppend(acc, s8); acc := acc + s8;
    assert LinesOf(acc) == l1 + l2 + l3 + l4 + l5 + l6 + l7 + l8;
    LinesOfAppend(acc, s9); acc := acc + s9;
    assert LinesOf(acc) == l1 + l2 + l3 + l4 + l5 + l6 + l7 + l8 + l9;
    assert acc == CoverSteps(r, logoFile, page, wrap);
    RunTexts(acc, page);
  }

  // ---------------------------------------------------------------------------
  // The cursor

  /** The band a line may be drawn in: between the bottom margin and the top of the page. */
  predicate InBand(y: int, page: PageSize)
  {
    BottomMargin <= y <= Top(page)
  }

  /** Every text line sits at a cursor position inside the band; every link
      area has its lower edge there and is one link height tall, so its upper
      edge is at most `LinkHeight` above the top of the page. */
  ghost predicate PlacedInBand(ops: seq<DrawOp>, page: PageSize)
  {
    forall i :: 0 <= i < |ops| ==>
      (ops[i].Text? ==> InBand(ops[i].y, page)) &&
      (ops[i].LinkRegion? ==> InBand(ops[i].y1, page) && ops[i].y2 == ops[i].y1 + LinkHeight)
  }

  /** No advance has a negative offset. */
  ghost predicate ForwardOnly(steps: seq<Step>)
  {
    forall i :: 0 <= i < |steps| && steps[i].Advance? ==> steps[i].offset >= 0
  }

  /** With room for at least one line on a page and no upward moves, the
      cursor never leaves the band, so every line and the lower edge of
      every link area are drawn inside it. */
  lemma {:induction false} RunStaysInBand(steps: seq<Step>, page: PageSize)
    requires Top(page) >= BottomMargin
    requires ForwardOnly(steps)
    ensures InBand(Run(steps, page).y, page)
    ensures PlacedInBand(Run(steps, page).ops, page)
    decreases |steps|
  {
    if |steps| > 0 {
      var prefix := steps[..|steps| - 1];
      assert ForwardOnly(prefix) by {
        forall i | 0 <= i < |prefix| && prefix[i].Advance? ensures prefix[i].offset >= 0 {
          assert prefix[i] == steps[i];
        }
      }
      assert steps[|steps| - 1].Advance? ==> steps[|steps| - 1].offset >= 0;
      RunStaysInBand(prefix, page);
      var p := Run(prefix, page);
      var ops := Run(steps, page).ops;
      forall i | 0 <= i < |ops|
        ensures (ops[i].Text? ==> InBand(ops[i].y, page)) &&
                (ops[i].LinkRegion? ==> InBand(ops[i].y1, page) && ops[i].y2 == ops[i].y1 + LinkHeight)
      {
        if i < |p.ops| {
          assert ops[i] == p.ops[i];
        }
      }
    }
  }

  /** The total of the advance offsets. */
  function Descent(steps: seq<Step>): int
    decreases |steps|
  {
    if |steps| == 0 then 0
    else Descent(steps[..|steps| - 1]) + (if steps[|steps| - 1].Advance? then steps[|steps| - 1].offset else 0)
  }

  /** As long as no page has been broken, the cursor is the top of the page
      minus everything advanced so far. */
  lemma {:induction false} RunWithoutBreaks(steps: seq<Step>, page: PageSize)
    requires PageBreak !in Run(steps, page).ops
    ensures Run(steps, page).y == Top(page) - Descent(steps)
    decreases |steps|
  {
    if |steps| > 0 {
      var prefix := steps[..|steps| - 1];
      var p := Run(prefix, page);
      assert Run(steps, page).ops[..|p.ops|] == p.ops;
      RunWithoutBreaks(prefix, page);
    }
  }

  /** While everything advanced so far fits between the top and the bottom
      margin, no page is broken. */
  lemma {:induction false} RunFits(steps: seq<Step>, page: PageSize)
    requires ForwardOnly(steps)
    requires Descent(steps) <= Top(page) - BottomMargin
    ensures PageBreak !in Run(steps, page).ops
    decreases |steps|
  {
    if |steps| > 0 {
      var prefix := steps[..|steps| - 1];
      var s := steps[|steps| - 1];
      assert ForwardOnly(prefix) by {
        forall i | 0 <= i < |prefix| && prefix[i].Advance? ensures prefix[i].offset >= 0 {
          assert prefix[i] == steps[i];
        }
      }
      assert s.Advance? ==> s.offset >= 0;
      RunFits(prefix, page);
      RunWithoutBreaks(prefix, page);
    }
  }

  /** A document is broken into pages exactly when its advances add up to
      more than fits between the top and the bottom margin. */
  lemma RunBreaksIff(steps: seq<Step>, page: PageSize)
    requires Top(page) >= BottomMargin
    requires ForwardOnly(steps)
    ensures PageBreak in Run(steps, page).ops <==> Descent(steps) > Top(page) - BottomMargin
  {
    if Descent(steps) <= Top(page) - BottomMargin {
      RunFits(steps, page);
    } else if PageBreak !in Run(steps, page).ops {
      RunWithoutBreaks(steps, page);
      RunStaysInBand(steps, page);
    }
  }

  /** No page break between two operations. */
  ghost predicate SamePage(ops: seq<DrawOp>, i: int, j: int)
    requires 0 <= i <= j <= |ops|
  {
    forall k :: i < k < j ==> ops[k] != PageBreak
  }

  /** On each page, every text line is drawn at or below the ones before it. */
  ghost predicate DescendsWithinPages(ops: seq<DrawOp>)
  {
    forall i, j :: 0 <= i < j < |ops| && ops[i].Text? && ops[j].Text? && SamePage(ops, i, j)
      ==> ops[j].y <= ops[i].y
  }

  /** The cursor is at or below every line drawn since the last page break. */
  ghost predicate CursorBelowPage(p: Pen)
  {
    forall i :: 0 <= i < |p.ops| && p.ops[i].Text? && SamePage(p.ops, i, |p.ops|) ==> p.y <= p.ops[i].y
  }

  /** Lines on one page never move up: the cursor only descends until a page break. */
  lemma {:induction false} RunDescends(steps: seq<Step>, page: PageSize)
    requires ForwardOnly(steps)
    ensures DescendsWithinPages(Run(steps, page).ops)
    ensures CursorBelowPage(Run(steps, page))
    decreases |steps|
  {
    if |steps| > 0 {
      var prefix := steps[..|steps| - 1];
      var s := steps[|steps| - 1];
      assert ForwardOnly(prefix) by {
        forall i | 0 <= i < |prefix| && prefix[i].Advance? ensures prefix[i].offset >= 0 {
          assert prefix[i] == steps[i];
        }
      }
      assert s.Advance? ==> s.offset >= 0;
      RunDescends(prefix, page);
      var p := Run(prefix, page);
      var q := Run(steps, page);
      var n := |p.ops|;
      assert q.ops[..n] == p.ops;
      forall i, j | 0 <= i < j < |q.ops| && q.ops[i].Text? && q.ops[j].Text? && SamePage(q.ops, i, j)
        ensures q.ops[j].y <= q.ops[i].y
      {
        assert q.ops[i] == p.ops[i];
        if j < n {
          assert q.ops[j] == p.ops[j];
          assert SamePage(p.ops, i, j) by {
            forall k | i < k < j ensures p.ops[k] != PageBreak { assert q.ops[k] == p.ops[k]; }
          }
        } else {
          assert SamePage(p.ops, i, n) by {
            forall k | i < k < n ensures p.ops[k] != PageBreak { assert q.ops[k] == p.ops[k]; }
          }
        }
      }
      assert s.Advance? && p.y - s.offset < BottomMargin ==> q.ops[n] == PageBreak;
      forall i | 0 <= i < |q.ops| && q.ops[i].Text? && SamePage(q.ops, i, |q.ops|)
        ensures q.y <= q.ops[i].y
      {
        if i < n {
          assert q.ops[i] == p.ops[i];
          assert SamePage(p.ops, i, n) by {
            forall k | i < k < n ensures p.ops[k] != PageBreak { assert q.ops[k] == p.ops[k]; }
          }
        }
      }
    }
  }

  lemma ForwardOnlyAppend(a: seq<Step>, b: seq<Step>)
    requires ForwardOnly(a) && ForwardOnly(b)
    ensures ForwardOnly(a + b)
  {
    forall i | 0 <= i < |a + b| && (a + b)[i].Advance? ensures (a + b)[i].offset >= 0 {
      if i >= |a| {
        assert (a + b)[i] == b[i - |a|];
      }
    }
  }

  lemma {:induction false} LinesForward(lines: seq<string>, offset: int)
    requires offset >= 0
    ensures ForwardOnly(Lines(lines, offset))
    decreases |lines|
  {
    if |lines| > 0 {
      LinesForward(lines[..|lines| - 1], offset);
      ForwardOnlyAppend(Lines(lines[..|lines| - 1], offset), [Draw(LeftMargin, lines[|lines| - 1]), Advance(offset)]);
    }
  }

  lemma DetailsForward(r: Record, page: PageSize, wrap: Wrap)
    ensures ForwardOnly(DetailSteps(r, page, wrap))
  {
    var d1 := VolumeSteps(r) + IfSet("Pages: ", r.pages);
    ForwardOnlyAppend(VolumeSteps(r), IfSet("Pages: ", r.pages));
    var d2 := d1 + IfSet("Publisher: ", r.publisher);
    ForwardOnlyAppend(d1, IfSet("Publisher: ", r.publisher));
    var d3 := d2 + EditorSteps(r, page, wrap);
    ForwardOnlyAppend(d2, EditorSteps(r, page, wrap));
    var d4 := d3 + IfSet("Institution: ", r.institution);
    ForwardOnlyAppend(d3, IfSet("Institution: ", r.institution));
    ForwardOnlyAppend(d4, IfSet("Series: ", r.series));
  }

  lemma TailForward(r: Record, page: PageSize, wrap: Wrap)
    ensures ForwardOnly(LinkSteps(r) + ArxivSteps(r) + AbstractSteps(r, page, wrap) + CitationSteps(r, page, wrap))
  {
    LinesForward(wrap(r.summary, Helvetica, 10, NarrowWidth(page)), 12);
    LinesForward(wrap(r.bibContent, Courier, 8, NarrowWidth(page)), 10);
    if r.summary != "" {
      ForwardOnlyAppend([Draw(LeftMargin, "Abstract"), Advance(15)], Lines(wrap(r.summary, Helvetica, 10, NarrowWidth(page)), 12));
    }
    ForwardOnlyAppend([Advance(13), Draw(LeftMargin, CiteHeading), Advance(15)],
                      Lines(wrap(r.bibContent, Courier, 8, NarrowWidth(page)), 10));
    ForwardOnlyAppend(IfSet("ArXiv ID: ", r.arxivId), [Advance(5)]);
    ForwardOnlyAppend(LinkSteps(r), ArxivSteps(r));
    ForwardOnlyAppend(LinkSteps(r) + ArxivSteps(r), AbstractSteps(r, page, wrap));
    ForwardOnlyAppend(LinkSteps(r) + ArxivSteps(r) + AbstractSteps(r, page, wrap), CitationSteps(r, page, wrap));
  }

  lemma HeadForward(r: Record, logoFile: string, page: PageSize, wrap: Wrap)
    ensures ForwardOnly(LogoSteps(logoFile) + HeaderSteps() + TitleSteps(r, page, wrap) + AuthorSteps(r, page, wrap) + VenueSteps(r))
  {
    LinesForward(wrap(r.title, HelveticaBold, 16, ContentWidth(page)), 20);
    LinesForward(wrap("Authors: " + r.authors, Helvetica, 12, ContentWidth(page)), 15);
    var s1 := LogoSteps(logoFile) + HeaderSteps();
    ForwardOnlyAppend(LogoSteps(logoFile), HeaderSteps());
    var s2 := s1 + TitleSteps(r, page, wrap);
    ForwardOnlyAppend(s1, TitleSteps(r, page, wrap));
    var s3 := s2 + AuthorSteps(r, page, wrap);
    ForwardOnlyAppend(s2, AuthorSteps(r, page, wrap));
    ForwardOnlyAppend(s3, VenueSteps(r));
  }

  /** The sections of the cover sheet, each moving the cursor down only. */
  lemma CoverForward(r: Record, logoFile: string, page: PageSize, wrap: Wrap)
    ensures ForwardOnly(LogoSteps(logoFile) + HeaderSteps() + TitleSteps(r, page, wrap) + AuthorSteps(r, page, wrap)
      + VenueSteps(r) + DetailSteps(r, page, wrap) + LinkSteps(r) + ArxivSteps(r)
      + AbstractSteps(r, page, wrap) + CitationSteps(r, page, wrap))
  {
    var head := LogoSteps(logoFile) + HeaderSteps() + TitleSteps(r, page, wrap) + AuthorSteps(r, page, wrap) + VenueSteps(r);
    var details := DetailSteps(r, page, wrap);
    var tail := LinkSteps(r) + ArxivSteps(r) + AbstractSteps(r, page, wrap) + CitationSteps(r, page, wrap);
    HeadForward(r, logoFile, page, wrap);
    DetailsForward(r, page, wrap);
    TailForward(r, page, wrap);
    ForwardOnlyAppend(head, details);
    ForwardOnlyAppend(head + details, tail);
    RegroupTen(LogoSteps(logoFile), HeaderSteps(), TitleSteps(r, page, wrap), AuthorSteps(r, page, wrap),
               VenueSteps(r), details, LinkSteps(r), ArxivSteps(r), AbstractSteps(r, page, wrap), CitationSteps(r, page, wrap));
  }

  /** On a page with room for a line, the cover sheet draws every line and
      the lower edge of every link area inside the margins, never moves up
      within a page, and issues a page break exactly when its advances
      overrun the room between the margins. */
  lemma CoverCursor(r: Record, logoFile: string, page: PageSize, wrap: Wrap)
    requires Top(page) >= BottomMargin
    ensures PlacedInBand(CoverOps(r, logoFile, page, wrap), page)
    ensures DescendsWithinPages(CoverOps(r, logoFile, page, wrap))
    ensures PageBreak in CoverOps(r, logoFile, page, wrap)
            <==> Descent(CoverSteps(r, logoFile, page, wrap)) > Top(page) - BottomMargin
  {
    var steps := CoverSteps(r, logoFile, page, wrap);
    RunStaysInBand(steps, page);
    RunDescends(steps, page);
    RunBreaksIff(steps, page);
  }
}
