# Preprint cover sheet generator, modelled in Dafny

`generate_preprint_cover.py` reads one BibTeX record and lays out a
one-page PDF cover sheet for it: a logo, a "Preprint Version" header, the
title and authors, where and when the work was published, the optional
bibliographic details, a clickable DOI or URL, the arXiv identifier, the
abstract and the raw BibTeX text as a citation block. All of it is laid out
by a single vertical cursor that moves down after each line and starts a new
page when it would cross the bottom margin.

The model has four modules, one file each:

- `strings.dfy` (`Strings`): the Python string operations the program
  relies on: `replace("\n", " ")`, `lower()`, the substring test and
  `strip()` in the resolver, and `" ".join` in the layout. Each has a
  contract that states what it computes. The substring test is also proved
  equal to "occurs at some index", and `Join` is pinned down together with
  `JoinSnoc`, which adds one part at a time.
- `bib_fields.dfy` (`BibFields`): the field resolver of `parse_bib_file`.
  A parsed entry is a `map<string, string>`. `ParseBibFile` turns it into
  the fifteen display values. An absent key gets its placeholder; a key
  bound to "" keeps "".
- `layout.dfy` (`Layout`): the drawing code as data. A `Step` is drawing a
  string, advancing the cursor, placing the logo or registering the link
  area. `CoverSteps` lists the steps of the cover sheet in document order.
  `Run` plays them from the top of the first page and yields the canvas
  operations (`DrawOp`). On top of `Run` it proves:
  - which lines appear, and in what order;
  - that within one page, text never moves up;
  - on a page at least 100 tall (so that one line fits between the top and
    bottom margins of 50), that the cursor stays inside the margins, and
    exactly when the drawing code issues a page break.
- `cover.dfy` (`Cover`): the imperative side.
  - `Canvas` is a class whose `ops` field records every drawing call.
  - `UpdateYPosition` is the advance primitive on that canvas.
  - `CreatePdfCover` runs the drawing code on a fresh canvas. A ghost list
    of the steps taken so far ties it to `Layout.Run`. It is proved to leave
    the canvas holding exactly `CoverOps`, so every layout lemma transfers
    to the canvas it fills.
  - The method is cut into the parts of the drawing code: logo, header,
    title, authors, venue, details, link, arXiv, abstract and BibTeX. Most
    follow the code's own section comments; the header has none, and the
    venue and details share the comment at line 88. The
    repeated "draw a line, then advance" pattern, and the four
    `for line in lines` loops, share the helpers `DrawLine` and `DrawLines`.

Inputs the program reads from outside become parameters:

- the parsed entry and the raw text of the `.bib` file;
- the answer to the DOI prompt (`manualDoi`);
- the answer to the logo prompt (`logoFile`, "" for skip);
- the page size;
- ReportLab's `simpleSplit` line breaker (`wrap`, a function parameter
  about which nothing is assumed).

Three details of the code worth knowing, all kept in the model:

- The header advances the cursor by 20 *before* "Preprint Version", by 30
  after it, and by 30 after the explanatory sentence.
- A DOI taken from the record is used as the link exactly as written, with
  no `https://doi.org/` in front. Only a DOI typed at the prompt gets that
  prefix. So the link is not always an absolute URL. `ResolveLink` states
  this: a non-empty `doi` field is the link as is.
- The prompt answer is checked for emptiness before it is stripped. An answer
  of blanks only therefore gives the bare prefix `https://doi.org/`.

## Model

| member | source | states |
|---|---|---|
| Strings.ReplaceNewlines | generate_preprint_cover.py:18 | Same length as the input; every line feed becomes a space and every other character is kept; no line feed is left. |
| Strings.ReplaceNewlinesKeeps | generate_preprint_cover.py:18 | A string without line feeds is returned unchanged. |
| Strings.AsciiLower | generate_preprint_cover.py:27 | Same length; each character is lower-cased (A-Z only); no upper-case ASCII letter is left. |
| Strings.Contains | generate_preprint_cover.py:27 | The substring test: a match needs the pattern to fit in the string; the empty pattern and the string itself always match. |
| Strings.ContainsIff | generate_preprint_cover.py:27 | The scanning substring test holds exactly when the pattern occurs at some index of the string. |
| Strings.IsSpace | generate_preprint_cover.py:37 | Python's `str.isspace()` for one character: blank, tab, line feed, vertical tab, form feed and carriage return count as whitespace; digits and letters do not. |
| Strings.SkipSpaces | generate_preprint_cover.py:37 | The index of the first non-whitespace character at or after `lo`; everything skipped is whitespace. |
| Strings.TrimEnd | generate_preprint_cover.py:37 | The end of the slice once trailing whitespace is dropped; everything dropped is whitespace. |
| Strings.Strip | generate_preprint_cover.py:37 | The result is a slice with only whitespace outside it. When non-empty, it starts and ends with non-whitespace. It is empty exactly when the input is all whitespace. |
| Strings.Join | generate_preprint_cover.py:103 | `sep.join(parts)`: "" for no parts; otherwise the parts' total length plus one separator between each pair of neighbours, starting with the first part (so a single part is returned as is). |
| Strings.JoinSnoc | generate_preprint_cover.py:103 | Joining one more part appends one separator and that part to the join of the others; with `Join`'s single-part case this fixes every part and every separator. |
| BibFields.Get | generate_preprint_cover.py:17-31 | `entry.get(key, default)`: the entry's value when the key is present, else the default. |
| BibFields.PlaceholderIsSingleLine | generate_preprint_cover.py:18 | Replacing newlines leaves the "Unknown Authors" placeholder as it is. |
| BibFields.Venue | generate_preprint_cover.py:20 | The journal if present; else the booktitle if present; else "Unknown Journal/Conference". |
| BibFields.ArxivId | generate_preprint_cover.py:27 | A non-empty identifier is the entry's eprint value, and only an entry with an archive prefix has one. |
| BibFields.ResolveLink | generate_preprint_cover.py:33-37 | DOI first, then URL, then the prompt answer stripped behind `https://doi.org/`. The link is empty exactly when all three are empty. An all-blank answer gives the bare prefix. |
| BibFields.ParseBibFile | generate_preprint_cover.py:17-37 | Each field is the entry's value when its key is present. When absent, title, authors, year and venue get their placeholders and every other field gets "". Authors and editors contain no line feed. Link, arXiv id and the raw text follow their own rules. |
| BibFields.ArxivIdRule | generate_preprint_cover.py:27 | The arXiv id is the eprint value (or "") when "arxiv" occurs in the lower-cased archive prefix, and "" when it does not. |
| BibFields.NoArxivWithoutPrefix | generate_preprint_cover.py:27 | Without an archive prefix the arXiv id is empty, whatever the eprint field says. |
| BibFields.ArxivPrefixIgnoresCase | generate_preprint_cover.py:27 | The prefix "ArXiv" in mixed case still keeps the eprint number. |
| BibFields.OnlyTitle | generate_preprint_cover.py:17-31 | For an entry with only a title, the whole record: the three placeholders, and "" for every optional field. |
| Layout.NextY | generate_preprint_cover.py:41-46 | Either exactly one step down, or the top of a new page when the step would cross the bottom margin. On a page with room for a line, the result never lies below the bottom margin. |
| Layout.Exec | generate_preprint_cover.py:41-46 | One drawing call or one advance. Only an advance moves the cursor, and it moves it to `NextY`. Each step issues at most one operation, and the first page break can only come from an advance that would cross the bottom margin. |
| Layout.ExecAppends | generate_preprint_cover.py:41-46 | Every step keeps all earlier operations as they were, and it adds a page break exactly when it is an advance that would cross the bottom margin. |
| Layout.Run | generate_preprint_cover.py:55-151 | The steps played in order from the top of the first page; every step issues at most one operation. |
| Layout.RunExtends | generate_preprint_cover.py:55-151 | Playing more steps never changes or drops what the earlier steps drew: the operations of a prefix of the steps are a prefix of the operations of all of them. |
| Layout.Lines | generate_preprint_cover.py:77-79 | A `for line in lines` loop issues one draw and one advance per line. |
| Layout.LinesAt | generate_preprint_cover.py:77-79 | In that loop, line i is drawn at step 2i at the left margin, and step 2i + 1 is its advance. |
| Layout.CoverSteps | generate_preprint_cover.py:57-151 | The steps of the whole sheet in document order; no advance among them has a negative offset. |
| Layout.RunTexts | generate_preprint_cover.py:41-46 | Playing steps draws exactly the texts of the draw steps, in order; advancing and page breaks add or drop no text. |
| Layout.CoverTexts | generate_preprint_cover.py:66-151 | The sheet's text, in order: the two header lines, and the wrapped title and authors. Then the venue line, and each detail line only when its field is set. Then the link pair, the arXiv line, the abstract block and the citation block. |
| Layout.RunStaysInBand | generate_preprint_cover.py:41-46 | On a page at least 100 tall and with no negative offsets, the cursor, every text line and the lower edge of every link area stay between the bottom margin and the top of the page; every link area is 12 tall, so its upper edge is at most 12 above the top. |
| Layout.RunWithoutBreaks | generate_preprint_cover.py:41-46 | While no page has been broken, the cursor is the top of the page minus the sum of the advances. |
| Layout.RunFits | generate_preprint_cover.py:41-46 | When the sum of the advances fits between the margins, no page is broken. |
| Layout.RunBreaksIff | generate_preprint_cover.py:41-46 | On a page at least 100 tall and with no negative offsets, a page break happens exactly when the sum of the advances exceeds the room between the top and bottom margins. |
| Layout.RunDescends | generate_preprint_cover.py:41-46 | Within one page, each text line is drawn at or below every earlier one, and the cursor is at or below all of them. |
| Layout.CoverForward | generate_preprint_cover.py:66-151 | Every advance of the cover sheet is a non-negative offset. |
| Layout.CoverCursor | generate_preprint_cover.py:48-151 | For the cover sheet on a page at least 100 tall: every line and the lower edge of every link area lie inside the margins, each link area is 12 tall, and text never moves up within a page. A page break is issued exactly when the sheet's advances, the final one included, overrun the room on one page. |
| Cover.Canvas.constructor | generate_preprint_cover.py:49 | A new canvas has drawn nothing. |
| Cover.Canvas.DrawString | generate_preprint_cover.py:78 | Appends one text operation at the given position; nothing else changes. |
| Cover.Canvas.DrawImage | generate_preprint_cover.py:64 | Appends one image operation with the given box. |
| Cover.Canvas.LinkURL | generate_preprint_cover.py:118 | Appends one link area with the given rectangle. |
| Cover.Canvas.ShowPage | generate_preprint_cover.py:44 | Appends one page break. |
| Cover.UpdateYPosition | generate_preprint_cover.py:41-46 | Moves the cursor down by `offset` and leaves the canvas alone. If that would cross the bottom margin, it breaks the page once and returns the top of the new page. |
| Cover.CreatePdfCover | generate_preprint_cover.py:48-153 | The fresh canvas ends up holding exactly `CoverOps`. So its texts are the sheet's lines in document order; on a page at least 100 tall, its lines and the lower edges of its link areas lie inside the margins and text never moves up within a page. |
| Cover.DrawHeader | generate_preprint_cover.py:66-72 | Plays the header steps on the canvas: advance 20, the heading, advance 30, the sentence, advance 30. |
| Cover.DrawLines | generate_preprint_cover.py:77-79 | A `for line in lines` loop: each line at the left margin, each followed by one advance. |
| Cover.DrawVenue | generate_preprint_cover.py:89-92 | A gap of 5, then "Published in: venue (year)" and an advance of 20. |
| Cover.DrawVolume | generate_preprint_cover.py:93-95 | The volume line, only when both the volume and the issue are set. |
| Cover.DrawEditors | generate_preprint_cover.py:102-105 | The editors, wrapped and re-joined with single spaces, drawn as one line only when there are any. |
| Cover.DrawDetails | generate_preprint_cover.py:93-111 | Volume and issue (both needed), pages, publisher, the re-joined editors, institution and series: each line only when its value is set. |
| Cover.DrawLink | generate_preprint_cover.py:114-121 | When there is a link: the label, the link area from x=200 to x=500 and up 12 from the cursor, the link text at x=200, then an advance of 20. |
| Cover.DrawArxiv | generate_preprint_cover.py:124-129 | The arXiv line when the id is set, then a gap of 5 either way. |
| Cover.DrawAbstract | generate_preprint_cover.py:132-140 | When there is an abstract: the heading, then its wrapped lines with an advance of 12 each. |
| Cover.DrawCitation | generate_preprint_cover.py:143-151 | A gap of 13, the citation heading, then the raw BibTeX text wrapped in Courier 8 with an advance of 10 per line. |
| Cover.DrawLine | generate_preprint_cover.py:97-98 | One line of text at `x` followed by one advance of the cursor. |
| Cover.DrawIfSet | generate_preprint_cover.py:96-98 | "caption value" and an advance of 20 when the value is non-empty; nothing otherwise. |

## Left out

- Reading the `.bib` file and BibTeX parsing itself (`bibtexparser`): the parsed first entry and the file's text are inputs.
- `simpleSplit`'s font metrics: the line breaker is a parameter, and no property depends on how it breaks lines.
- `logoFile` is assumed to name a readable image. For any other non-empty answer, `drawImage` (line 64) raises, `save()` is never reached and no PDF is written; the model always records the image.
- The two `input()` prompts: their answers are parameters. The DOI answer is used only when the record has neither DOI nor URL, as in the code.
- `Strings.AsciiLower`: case-folds ASCII letters only, not the whole of Unicode as Python's `lower()` does. It is only used to look for "arxiv".
- The page size is a pair of integers; A4 in points (595.27 x 841.89) is not integral, and floating point is not modelled. With height 841 the pages still break at exactly the same steps as with 841.89. Offsets and margins are integers, so after an advance total k both `791.89 - k < 50` and `791 - k < 50` hold exactly when k >= 742. Only the fractions are lost: 0.89pt of every y position, and 0.28pt of the logo's x and of the widths passed to the line breaker (495 instead of 495.28), at which a real line breaker could break differently.
- Font selection (`setFont`), fill colours, `preserveAspectRatio`, `relative=0`, the output path and `save()`: they change how the page looks, not what is drawn or where.
- The `print` of authors and editors, `main`, its command-line checks and the output file name.
