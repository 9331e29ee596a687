/** The field resolver of `parse_bib_file`: from the first parsed BibTeX entry
    (a map from field name to raw value) to the fifteen display values the
    cover generator lays out. Reading the file and the BibTeX parser itself
    are outside the model: the entry and the raw file text are inputs. */
module BibFields {
  import opened Strings

  /** A parsed entry. An absent key and a key bound to "" are different. */
  type Entry = map<string, string>

  /** The tuple `parse_bib_file` returns, in its order. `journal` holds the venue. */
  datatype Record = Record(
    title: string, authors: string, year: string, journal: string,
    volume: string, issue: string, pages: string, publisher: string,
    link: string, arxivId: string, summary: string, editors: string,
    institution: string, series: string, bibContent: string)

  const UnknownTitle := "Unknown Title"
  const UnknownAuthors := "Unknown Authors"
  const UnknownYear := "Unknown Year"
  const UnknownVenue := "Unknown Journal/Conference"
  const DoiResolver := "https://doi.org/"

  /** Python's `entry.get(key, default)`. */
  function Get(entry: Entry, key: string, default: string): (v: string)
    ensures key in entry ==> v == entry[key]
    ensures key !in entry ==> v == default
  {
    if key in entry then entry[key] else default
  }

  /** The `.replace("\n", " ")` applied to the authors placeholder leaves it as it is. */
  lemma PlaceholderIsSingleLine()
    ensures ReplaceNewlines(UnknownAuthors) == UnknownAuthors
  {
    ReplaceNewlinesKeeps(UnknownAuthors);
  }

  /** The venue: `entry.get("journal", entry.get("booktitle", ...))`. */
  function Venue(entry: Entry): (v: string)
    ensures "journal" in entry ==> v == entry["journal"]
    ensures "journal" !in entry && "booktitle" in entry ==> v == entry["booktitle"]
    ensures "journal" !in entry && "booktitle" !in entry ==> v == UnknownVenue
  {
    Get(entry, "journal", Get(entry, "booktitle", UnknownVenue))
  }

  /** The eprint value, kept only when the lower-cased archive prefix contains "arxiv". */
  function ArxivId(entry: Entry): (id: string)
    // A non-empty identifier is the eprint value, and only an entry with an archive prefix has one.
    ensures id != "" ==> "eprint" in entry && id == entry["eprint"] && "archiveprefix" in entry
    ensures "archiveprefix" !in entry ==> id == ""
  {
    if Contains(AsciiLower(Get(entry, "archiveprefix", "")), "arxiv") then Get(entry, "eprint", "")
    else ""
  }

  /** The link: the DOI field, else the URL field, else the DOI typed at the
      prompt (`manualDoi`, consulted only in that last case), stripped and put
      behind the doi.org resolver; an empty answer leaves the link empty. */
  function ResolveLink(doi: string, url: string, manualDoi: string): (link: string)
    ensures doi != "" ==> link == doi
    ensures doi == "" && url != "" ==> link == url
    ensures doi == "" && url == "" && manualDoi != "" ==> link == DoiResolver + Strip(manualDoi)
    ensures link == "" <==> doi == "" && url == "" && manualDoi == ""
    // The emptiness test is made before stripping: an answer of blanks only
    // still yields the bare resolver prefix.
    ensures doi == "" && url == "" && manualDoi != "" && (forall k :: 0 <= k < |manualDoi| ==> IsSpace(manualDoi[k]))
            ==> link == DoiResolver
  {
    var link := if doi != "" then doi else url;
    if link != "" then link
    else if manualDoi != "" then DoiResolver + Strip(manualDoi)
    else manualDoi
  }

  /** `parse_bib_file` after the entry is parsed: every field resolved by its own rule. */
  function ParseBibFile(entry: Entry, bibContent: string, manualDoi: string): (r: Record)
    // Placeholders for the four mandatory fields, only when the key is absent.
    ensures "title" in entry ==> r.title == entry["title"]
    ensures "title" !in entry ==> r.title == UnknownTitle
    ensures "year" in entry ==> r.year == entry["year"]
    ensures "year" !in entry ==> r.year == UnknownYear
    ensures "author" in entry ==> r.authors == ReplaceNewlines(entry["author"])
    ensures "author" !in entry ==> r.authors == UnknownAuthors
    ensures r.journal == Venue(entry)
    // Optional fields become "" when absent.
    ensures "volume" in entry ==> r.volume == entry["volume"]
    ensures "volume" !in entry ==> r.volume == ""
    ensures "number" in entry ==> r.issue == entry["number"]
    ensures "number" !in entry ==> r.issue == ""
    ensures "pages" in entry ==> r.pages == entry["pages"]
    ensures "pages" !in entry ==> r.pages == ""
    ensures "publisher" in entry ==> r.publisher == entry["publisher"]
    ensures "publisher" !in entry ==> r.publisher == ""
    ensures "abstract" in entry ==> r.summary == entry["abstract"]
    ensures "abstract" !in entry ==> r.summary == ""
    ensures "institution" in entry ==> r.institution == entry["institution"]
    ensures "institution" !in entry ==> r.institution == ""
    ensures "series" in entry ==> r.series == entry["series"]
    ensures "series" !in entry ==> r.series == ""
    ensures "editor" in entry ==> r.editors == ReplaceNewlines(entry["editor"])
    ensures "editor" !in entry ==> r.editors == ""
    // Authors and editors are single-line.
    ensures '\n' !in r.authors && '\n' !in r.editors
    ensures r.link == ResolveLink(Get(entry, "doi", ""), Get(entry, "url", ""), manualDoi)
    ensures r.arxivId == ArxivId(entry)
    ensures r.bibContent == bibContent
  {
    PlaceholderIsSingleLine();
    Record(
      Get(entry, "title", UnknownTitle),
      ReplaceNewlines(Get(entry, "author", UnknownAuthors)),
      Get(entry, "year", UnknownYear),
      Venue(entry),
      Get(entry, "volume", ""),
      Get(entry, "number", ""),
      Get(entry, "pages", ""),
      Get(entry, "publisher", ""),
      ResolveLink(Get(entry, "doi", ""), Get(entry, "url", ""), manualDoi),
      ArxivId(entry),
      Get(entry, "abstract", ""),
      ReplaceNewlines(Get(entry, "editor", "")),
      Get(entry, "institution", ""),
      Get(entry, "series", ""),
      bibContent)
  }

  /** The arXiv rule in terms of occurrence: the identifier is the eprint value
      (or "" without one) exactly when "arxiv" occurs in the lower-cased prefix. */
  lemma ArxivIdRule(entry: Entry, bibContent: string, manualDoi: string)
    ensures var prefix := AsciiLower(Get(entry, "archiveprefix", ""));
            var r := ParseBibFile(entry, bibContent, manualDoi);
            ((exists i :: OccursAt(prefix, "arxiv", i)) ==> r.arxivId == Get(entry, "eprint", ""))
            && (!(exists i :: OccursAt(prefix, "arxiv", i)) ==> r.arxivId == "")
  {
    var prefix := AsciiLower(Get(entry, "archiveprefix", ""));
    var r := ParseBibFile(entry, bibContent, manualDoi);
    ContainsIff(prefix, "arxiv");
    if Contains(prefix, "arxiv") {
      assert r.arxivId == Get(entry, "eprint", "");
    } else {
      assert ArxivId(entry) == "";
      assert r.arxivId == "";
    }
  }

  /** Without an archive prefix there is no arXiv identifier, whatever eprint says. */
  lemma NoArxivWithoutPrefix(entry: Entry, bibContent: string, manualDoi: string)
    requires "archiveprefix" !in entry
    ensures ParseBibFile(entry, bibContent, manualDoi).arxivId == ""
  {
    ContainsIff("", "arxiv");
  }

  /** A mixed-case "ArXiv" prefix keeps the eprint number. */
  lemma ArxivPrefixIgnoresCase(eprint: string, bibContent: string)
    ensures ParseBibFile(map["archiveprefix" := "ArXiv", "eprint" := eprint], bibContent, "").arxivId == eprint
  {
    var e := map["archiveprefix" := "ArXiv", "eprint" := eprint];
    assert Get(e, "archiveprefix", "") == "ArXiv" && Get(e, "eprint", "") == eprint;
    assert AsciiLower("ArXiv") == "arxiv";
    assert Contains("arxiv", "arxiv");
    assert ArxivId(e) == eprint;
  }

  /** A record with only a title: placeholders for authors, year and venue,
      and every optional field empty. */
  lemma OnlyTitle(title: string, bibContent: string)
    ensures ParseBibFile(map["title" := title], bibContent, "")
         == Record(title, UnknownAuthors, UnknownYear, UnknownVenue, "", "", "", "", "", "",
                   "", "", "", "", bibContent)
  {
    var e := map["title" := title];
    assert "author" !in e && "year" !in e && "journal" !in e && "booktitle" !in e;
    assert "volume" !in e && "number" !in e && "pages" !in e && "publisher" !in e;
    assert "doi" !in e && "url" !in e && "abstract" !in e && "editor" !in e;
    assert "institution" !in e && "series" !in e;
    NoArxivWithoutPrefix(e, bibContent, "");
  }
}
