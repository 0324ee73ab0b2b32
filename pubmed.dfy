// bin/PubMed_retrieve.py: one Entrez query per keyword, paged with `retstart`,
// a client-side journal filter, and one text record per kept article.
//
// Entrez is a parameter: `search` stands for `esearch` + `read` on a query
// and a `retstart` (the date range and `retmax` are fixed for the run and are
// part of it), and `fetch` for `efetch` + `read` on a list of ids. A raised
// exception is the `...Failed` reply.
module PubMed {
  import opened Wrappers
  import opened Text
  import opened Dates
  import opened Retrieval

  // ---------------------------------------------------------------------
  // Records as Entrez returns them

  datatype Author = Author(lastName: Option<string>, initials: Option<string>)

  /** `Journal/JournalIssue/PubDate`: each part is absent or the text stored. */
  datatype PubDate = PubDate(year: Option<string>, month: Option<string>, day: Option<string>)

  datatype ELocation = ELocation(text: string, eidType: Option<string>)

  datatype Article = Article(
    title: Option<string>,         // ArticleTitle
    journalTitle: string,          // Journal/Title
    authors: seq<Author>,          // AuthorList (empty when absent)
    pubDate: PubDate,
    abstractText: Option<string>,  // first AbstractText segment, if any
    elocations: seq<ELocation>)    // ELocationID (empty when absent)

  datatype SearchReply = SearchFailed | Searched(ids: seq<string>, count: int)

  datatype FetchReply = FetchFailed | Fetched(articles: seq<Article>)

  datatype Upstream = Upstream(
    search: (string, int) -> SearchReply,
    fetch: seq<string> -> FetchReply)

  // ---------------------------------------------------------------------
  // Query

  function JournalTerms(journals: seq<string>): (ts: seq<string>)
    ensures |ts| == |journals|
    ensures forall i :: 0 <= i < |ts| ==> ts[i] == journals[i] + "[Journal]"
  {
    seq(|journals|, i requires 0 <= i < |journals| => journals[i] + "[Journal]")
  }

  function JournalClause(journals: seq<string>): string {
    if journals == [] then "" else " AND (" + Join(JournalTerms(journals), " OR ") + ")"
  }

  function ExcludeClause(exclude: seq<string>): string {
    if exclude == [] then "" else " NOT " + Join(exclude, " NOT ")
  }

  /** The Entrez term for one keyword. */
  function Query(keyword: string, journals: seq<string>, exclude: seq<string>): string {
    "(" + keyword + ")" + JournalClause(journals) + ExcludeClause(exclude)
  }

  /** The query starts with the parenthesised keyword; each journal appears as
      a `[Journal]` term after " AND (", each exclusion keyword after " NOT ";
      with no journals there is no journal clause and with no exclusions no
      NOT clause. Exclusion is applied only here, by the server. */
  lemma {:induction false} QueryShape(keyword: string, journals: seq<string>, exclude: seq<string>)
    ensures var q := Query(keyword, journals, exclude);
      && "(" + keyword + ")" <= q
      && (journals == [] && exclude == [] ==> q == "(" + keyword + ")")
      && (journals == [] ==> q == "(" + keyword + ")" + ExcludeClause(exclude))
      && (exclude == [] ==> q == "(" + keyword + ")" + JournalClause(journals))
    ensures forall i :: 0 <= i < |journals| ==>
      Contains(Query(keyword, journals, exclude), " AND (") &&
      Contains(Query(keyword, journals, exclude), journals[i] + "[Journal]")
    ensures forall i :: 0 <= i < |exclude| ==>
      Contains(Query(keyword, journals, exclude), " NOT " + exclude[i])
  {
    var head := "(" + keyword + ")";
    var jc, ec := JournalClause(journals), ExcludeClause(exclude);
    var q := Query(keyword, journals, exclude);
    assert q == head + jc + ec;
    assert head <= q by {
      assert q == head + (jc + ec);
    }
    forall i | 0 <= i < |journals|
      ensures Contains(q, " AND (") && Contains(q, journals[i] + "[Journal]")
    {
      var terms := JournalTerms(journals);
      var body := Join(terms, " OR ");
      assert jc == " AND (" + (body + ")");
      JoinHasPart(terms, " OR ", i);
      ContainsInLeft(body, ")", terms[i]);
      ContainsInRight(" AND (", body + ")", terms[i]);
      ContainsInRight(head, jc, terms[i]);
      ContainsInLeft(head + jc, ec, terms[i]);
      ContainsAt(jc, " AND (", 0);
      ContainsInRight(head, jc, " AND (");
      ContainsInLeft(head + jc, ec, " AND (");
    }
    forall i | 0 <= i < |exclude| ensures Contains(q, " NOT " + exclude[i]) {
      SepJoinHasPart(exclude, " NOT ", i);
      ContainsInRight(head + jc, ec, " NOT " + exclude[i]);
    }
  }

  // ---------------------------------------------------------------------
  // Journal filter

  /** Kept when no journals are configured, or when some configured name
      occurs, ignoring case, in the journal title. This is the only filter
      the script applies to a fetched article. */
  predicate Wanted(a: Article, journals: seq<string>) {
    journals == [] || AnyIn(a.journalTitle, journals)
  }

  // ---------------------------------------------------------------------
  // Date

  const MonthKeys: seq<string> :=
    ["jan", "feb", "mar", "apr", "may", "jun", "jul", "aug", "sep", "oct", "nov", "dec"]

  /** `month_mapping` */
  const MonthMapping: map<string, string> := map[
    "jan" := "01", "feb" := "02", "mar" := "03", "apr" := "04", "may" := "05", "jun" := "06",
    "jul" := "07", "aug" := "08", "sep" := "09", "oct" := "10", "nov" := "11", "dec" := "12"]

  /** `s[:n]` */
  function Prefix(s: string, n: nat): string {
    if |s| <= n then s else s[..n]
  }

  /** `pub_date.get('Month', '').lower()[:3]` */
  function MonthKey(month: Option<string>): string {
    Prefix(Lower(if month.Some? then month.value else ""), 3)
  }

  /** `month_mapping.get(month, "01")` */
  function MonthNumber(month: Option<string>): string {
    var key := MonthKey(month);
    if key in MonthMapping then MonthMapping[key] else "01"
  }

  /** `s.zfill(2)`: pads with zeros on the left, after a leading sign. */
  function ZFill2(s: string): (r: string)
    ensures |r| == if |s| >= 2 then |s| else 2
    ensures |s| >= 2 ==> r == s
    ensures |s| == 1 && s[0] != '+' && s[0] != '-' ==> r == ['0', s[0]]
  {
    if |s| >= 2 then s
    else if s == [] then "00"
    else if s[0] == '+' || s[0] == '-' then [s[0], '0']
    else ['0', s[0]]
  }

  /** `day.zfill(2) if day else '01'` */
  function DayText(day: Option<string>): string {
    if day.None? || day.value == "" then "01" else ZFill2(day.value)
  }

  const UnknownDate := "Unknown Date"

  /** The `Date:` text: `Year-MM-DD`, or "Unknown Date" exactly when the year is
      missing (or is the default text "No Year" itself). */
  function DateString(pd: PubDate): (s: string)
    ensures s == UnknownDate <==> pd.year.None? || pd.year.value == "No Year"
  {
    var year := if pd.year.Some? then pd.year.value else "No Year";
    if year != "No Year" then
      var s := year + "-" + MonthNumber(pd.month) + "-" + DayText(pd.day);
      assert s[|year|] == '-';
      assert forall k :: 0 <= k < |UnknownDate| ==> UnknownDate[k] != '-';
      s
    else UnknownDate
  }

  /** A date with a known month name and no day is the first of that month. */
  lemma {:induction false} DateOfMarch2023()
    ensures DateString(PubDate(Some("2023"), Some("Mar"), Some(""))) == "2023-03-01"
    ensures DateString(PubDate(Some("2023"), Some("March"), None)) == "2023-03-01"
    ensures DateString(PubDate(Some("2023"), Some("Spring"), Some("7"))) == "2023-01-07"
    ensures DateString(PubDate(None, Some("Mar"), Some("5"))) == UnknownDate
  {
    MarchWithoutDay();
    MarchSpelledOut();
    SeasonAsMonth();
  }

  lemma {:induction false} MarchWithoutDay()
    ensures DateString(PubDate(Some("2023"), Some("Mar"), Some(""))) == "2023-03-01"
  {
    assert MonthKey(Some("Mar")) == "mar";
  }

  lemma {:induction false} MarchSpelledOut()
    ensures DateString(PubDate(Some("2023"), Some("March"), None)) == "2023-03-01"
  {
    assert MonthKey(Some("March")) == "mar";
  }

  lemma {:induction false} SeasonAsMonth()
    ensures DateString(PubDate(Some("2023"), Some("Spring"), Some("7"))) == "2023-01-07"
  {
    assert MonthKey(Some("Spring")) == "spr";
    assert DayText(Some("7")) == "07";
  }

  /** A PubDate that spells a real date with a four-digit year, a month name
      and a one- or two-digit day prints as the ISO date of that day, which
      `strptime` reads back. */
  lemma {:induction false} PubDateRoundTrip(d: Date, monthName: string, day: string)
    requires Valid(d)
    requires MonthKey(Some(monthName)) == MonthKeys[d.month - 1]
    requires day == Pad2(d.day) || (d.day < 10 && day == [DigitChar(d.day)])
    ensures DateString(PubDate(Some(Pad4(d.year)), Some(monthName), Some(day))) == FormatIso(d)
    ensures ParseIso(DateString(PubDate(Some(Pad4(d.year)), Some(monthName), Some(day)))) == Some(d)
  {
    var pd := PubDate(Some(Pad4(d.year)), Some(monthName), Some(day));
    assert Pad4(d.year) != "No Year" by {
      assert IsDigit(Pad4(d.year)[0]);
    }
    assert MonthNumber(pd.month) == Pad2(d.month) by {
      MonthMappingPads(d.month);
    }
    assert DayText(pd.day) == Pad2(d.day) by {
      if day != Pad2(d.day) {
        assert Pad2(d.day) == ['0', DigitChar(d.day)];
      }
    }
    ParseFormatIso(d);
  }

  /** The month of the `m`-th key in `month_mapping` is `m`, zero-padded. */
  lemma {:induction false} MonthMappingPads(m: int)
    requires 1 <= m <= 12
    ensures MonthKeys[m - 1] in MonthMapping && MonthMapping[MonthKeys[m - 1]] == Pad2(m)
  {
    if m == 1 {} else if m == 2 {} else if m == 3 {} else if m == 4 {}
    else if m == 5 {} else if m == 6 {} else if m == 7 {} else if m == 8 {}
    else if m == 9 {} else if m == 10 {} else if m == 11 {} else {}
  }

  // ---------------------------------------------------------------------
  // Authors

  /** The authors that have a last name, in list order. */
  function Named(authors: seq<Author>): (ns: seq<Author>)
    ensures |ns| <= |authors|
    ensures forall a :: a in ns <==> a in authors && a.lastName.Some?
    decreases |authors|
  {
    if authors == [] then []
    else
      var last := authors[|authors| - 1];
      var init := Named(authors[..|authors| - 1]);
      assert authors == authors[..|authors| - 1] + [last];
      if last.lastName.Some? then init + [last] else init
  }

  /** `f"{author['LastName']} {author.get('Initials', '')}"` */
  function AuthorName(a: Author): string
    requires a.lastName.Some?
  {
    a.lastName.value + " " + (if a.initials.Some? then a.initials.value else "")
  }

  function AuthorsLine(authors: seq<Author>): string {
    var ns := Named(authors);
    Join(seq(|ns|, i requires 0 <= i < |ns| => AuthorName(ns[i])), ", ")
  }

  /** Every author that has a last name is listed, as "LastName Initials". */
  lemma {:induction false} AuthorsListed(authors: seq<Author>, i: nat)
    requires i < |authors| && authors[i].lastName.Some?
    ensures Contains(AuthorsLine(authors), AuthorName(authors[i]))
  {
    var ns := Named(authors);
    assert authors[i] in ns;
    var j :| 0 <= j < |ns| && ns[j] == authors[i];
    var names := seq(|ns|, k requires 0 <= k < |ns| => AuthorName(ns[k]));
    JoinHasPart(names, ", ", j);
  }

  lemma {:induction false} NoNamedAuthors(authors: seq<Author>)
    requires forall i :: 0 <= i < |authors| ==> authors[i].lastName.None?
    ensures Named(authors) == []
    ensures AuthorsLine(authors) == ""
    decreases |authors|
  {
    if authors != [] {
      NoNamedAuthors(authors[..|authors| - 1]);
    }
  }

  // ---------------------------------------------------------------------
  // Full-text link

  /** Position of the first ELocationID whose `EIdType` is `doi`. */
  function FirstDoiIndex(elocs: seq<ELocation>): (n: nat)
    ensures n <= |elocs|
    ensures forall k :: 0 <= k < n ==> elocs[k].eidType != Some("doi")
    ensures n < |elocs| ==> elocs[n].eidType == Some("doi")
  {
    if elocs == [] || elocs[0].eidType == Some("doi") then 0
    else 1 + FirstDoiIndex(elocs[1..])
  }

  function DoiOf(elocs: seq<ELocation>): Option<string> {
    var n := FirstDoiIndex(elocs);
    if n < |elocs| then Some(elocs[n].text) else None
  }

  /** The `for eloc in elocation_ids` loop that stops at the first DOI. */
  method FindDoi(elocs: seq<ELocation>) returns (doi: Option<string>)
    ensures doi.Some? <==> exists k :: 0 <= k < |elocs| && elocs[k].eidType == Some("doi")
    ensures doi.Some? ==>
      (exists k :: 0 <= k < |elocs| && elocs[k].eidType == Some("doi") &&
        doi.value == elocs[k].text &&
        forall j :: 0 <= j < k ==> elocs[j].eidType != Some("doi"))
    ensures doi == DoiOf(elocs)
  {
    doi := None;
    var i := 0;
    while i < |elocs|
      invariant 0 <= i <= |elocs|
      invariant forall j :: 0 <= j < i ==> elocs[j].eidType != Some("doi")
    {
      if elocs[i].eidType == Some("doi") {
        doi := Some(elocs[i].text);
        return;
      }
      i := i + 1;
    }
  }

  const NoLink := "Full text link not available"

  /** `https://doi.org/<doi>` when a DOI was found and is non-empty. */
  function FullTextUrl(doi: Option<string>): string {
    if doi.Some? && doi.value != "" then "https://doi.org/" + doi.value else NoLink
  }

  /** The link comes from the first DOI entry alone: later ELocationIDs are
      never looked at, and an empty first DOI gives no link. */
  lemma {:induction false} LinkFromFirstDoiOnly(elocs: seq<ELocation>, more: seq<ELocation>)
    requires exists k :: 0 <= k < |elocs| && elocs[k].eidType == Some("doi")
    ensures DoiOf(elocs + more) == DoiOf(elocs)
    ensures DoiOf(elocs).Some?
    ensures FullTextUrl(DoiOf(elocs)) == NoLink <==> DoiOf(elocs).value == ""
  {
    var n := FirstDoiIndex(elocs);
    var k :| 0 <= k < |elocs| && elocs[k].eidType == Some("doi");
    assert n < |elocs|;
    FirstDoiPrefix(elocs, more);
    assert "https://doi.org/" + DoiOf(elocs).value != NoLink by {
      assert ("https://doi.org/" + DoiOf(elocs).value)[0] == 'h' != NoLink[0];
    }
  }

  lemma {:induction false} FirstDoiPrefix(elocs: seq<ELocation>, more: seq<ELocation>)
    requires FirstDoiIndex(elocs) < |elocs|
    ensures FirstDoiIndex(elocs + more) == FirstDoiIndex(elocs)
    decreases |elocs|
  {
    if elocs[0].eidType != Some("doi") {
      assert (elocs + more)[1..] == elocs[1..] + more;
      FirstDoiPrefix(elocs[1..], more);
    }
  }

  // ---------------------------------------------------------------------
  // The entry block

  function TitleOf(a: Article): string {
    if a.title.Some? then a.title.value else "No Title"
  }

  function AbstractOf(a: Article): string {
    if a.abstractText.Some? then a.abstractText.value else "No Abstract"
  }

  /** The six labelled lines of one article. */
  function RecordLinesWith(a: Article, doi: Option<string>): seq<string> {
    [ "Title: " + TitleOf(a),
      "Authors: " + AuthorsLine(a.authors),
      "Journal: " + Capitalize(Lower(a.journalTitle)),
      "Date: " + DateString(a.pubDate),
      "URL: " + FullTextUrl(doi),
      "Abstract: " + AbstractOf(a) ]
  }

  /** The entry block: the six lines, each ended by a newline, then a blank
      line. */
  function RecordWith(a: Article, doi: Option<string>): string {
    Unlines(RecordLinesWith(a, doi) + [""])
  }

  function Record(a: Article): string {
    RecordWith(a, DoiOf(a.elocations))
  }

  /** A record whose texts hold no line break reads as exactly the lines
      Title, Authors, Journal, Date, URL, Abstract and one blank line. */
  lemma {:induction false} RecordLines(a: Article)
    requires NoNewline(TitleOf(a)) && NoNewline(AuthorsLine(a.authors))
    requires NoNewline(a.journalTitle) && NoNewline(DateString(a.pubDate))
    requires NoNewline(FullTextUrl(DoiOf(a.elocations))) && NoNewline(AbstractOf(a))
    ensures Lines(Record(a)) == RecordLinesWith(a, DoiOf(a.elocations)) + [""]
  {
    var ls := RecordLinesWith(a, DoiOf(a.elocations)) + [""];
    LabelsOnOneLine();
    forall i | 0 <= i < |ls| ensures NoNewline(ls[i]) {
      if i == 0 { LabelledNoNewline("Title: ", TitleOf(a)); }
      else if i == 1 { LabelledNoNewline("Authors: ", AuthorsLine(a.authors)); }
      else if i == 2 {
        CapitalizeNoNewline(a.journalTitle);
        LabelledNoNewline("Journal: ", Capitalize(Lower(a.journalTitle)));
      }
      else if i == 3 { LabelledNoNewline("Date: ", DateString(a.pubDate)); }
      else if i == 4 { LabelledNoNewline("URL: ", FullTextUrl(DoiOf(a.elocations))); }
      else if i == 5 { LabelledNoNewline("Abstract: ", AbstractOf(a)); }
    }
    LinesUnlines(ls);
  }

  lemma {:induction false} CapitalizeNoNewline(s: string)
    requires NoNewline(s)
    ensures NoNewline(Capitalize(Lower(s)))
  {
    var j := Lower(s);
    if j != [] {
      forall k | 1 <= k < |j| ensures Capitalize(j)[k] != '\n' {
        assert Capitalize(j)[k] == Lower(j[1..])[k - 1] == LowerChar(j[k]);
      }
    }
  }

  // ---------------------------------------------------------------------
  // Paging through one keyword

  /** The records a fetched batch contributes, in fetch order. */
  function PageRecords(articles: seq<Article>, journals: seq<string>): seq<string>
    decreases |articles|
  {
    if articles == [] then []
    else
      var a := articles[|articles| - 1];
      PageRecords(articles[..|articles| - 1], journals)
        + (if Wanted(a, journals) then [Record(a)] else [])
  }

  /** Why the paging of one keyword ended. `OutOfFuel` is the model's bound on
      the number of searches; the script itself has none. */
  datatype Stop = NoIds | CountReached | SearchError | FetchError | OutOfFuel

  /** What one keyword yields: its records, the `retstart` of every search
      made, and why paging stopped. */
  datatype Harvest = Harvest(entries: seq<string>, retstarts: seq<int>, stop: Stop)

  /** The `while True` loop from a given `retstart`, with at most `fuel`
      searches. The first search is made at `retstart` and each further one
      `batch` later than the one before. */
  function Pages(query: string, journals: seq<string>, batch: int, up: Upstream,
                 retstart: int, fuel: nat): (h: Harvest)
    ensures |h.retstarts| <= fuel
    ensures h.stop == OutOfFuel ==> |h.retstarts| == fuel
    ensures fuel > 0 ==> |h.retstarts| >= 1
    ensures h.retstarts != [] ==> h.retstarts[0] == retstart
    ensures Spaced(h.retstarts, batch)
    decreases fuel
  {
    if fuel == 0 then Harvest([], [], OutOfFuel)
    else match up.search(query, retstart)
      case SearchFailed => Harvest([], [retstart], SearchError)
      case Searched(ids, count) =>
        if ids == [] then Harvest([], [retstart], NoIds)
        else match up.fetch(ids)
          case FetchFailed => Harvest([], [retstart], FetchError)
          case Fetched(articles) =>
            var records := PageRecords(articles, journals);
            if retstart + batch >= count then Harvest(records, [retstart], CountReached)
            else
              var rest := Pages(query, journals, batch, up, retstart + batch, fuel - 1);
              SpacedCons(retstart, rest.retstarts, batch);
              Harvest(records + rest.entries, [retstart] + rest.retstarts, rest.stop)
  }

  /** The stop reason a search at `r` gives, or `None` when the loop goes
      on after it. */
  function StopAfter(query: string, batch: int, up: Upstream, r: int): Option<Stop> {
    match up.search(query, r)
      case SearchFailed => Some(SearchError)
      case Searched(ids, count) =>
        if ids == [] then Some(NoIds)
        else if up.fetch(ids).FetchFailed? then Some(FetchError)
        else if r + batch >= count then Some(CountReached)
        else None
  }

  /** The `retstart`s searched and the stop reason, without the records. */
  datatype Trail = Trail(retstarts: seq<int>, stop: Stop)

  function SearchTrail(query: string, batch: int, up: Upstream, retstart: int, fuel: nat): Trail
    decreases fuel
  {
    if fuel == 0 then Trail([], OutOfFuel)
    else match StopAfter(query, batch, up, retstart)
      case Some(stop) => Trail([retstart], stop)
      case None =>
        var rest := SearchTrail(query, batch, up, retstart + batch, fuel - 1);
        Trail([retstart] + rest.retstarts, rest.stop)
  }

  /** Paging searches where the trail says and stops for its reason. */
  lemma {:induction false} PagesTrail(query: string, journals: seq<string>, batch: int,
                                      up: Upstream, retstart: int, fuel: nat)
    ensures Pages(query, journals, batch, up, retstart, fuel).retstarts
            == SearchTrail(query, batch, up, retstart, fuel).retstarts
    ensures Pages(query, journals, batch, up, retstart, fuel).stop
            == SearchTrail(query, batch, up, retstart, fuel).stop
  {
    StartsTrail(query, journals, batch, up, retstart, fuel);
    StopTrail(query, journals, batch, up, retstart, fuel);
  }

  lemma {:induction false} StartsTrail(query: string, journals: seq<string>, batch: int,
                                       up: Upstream, retstart: int, fuel: nat)
    ensures Pages(query, journals, batch, up, retstart, fuel).retstarts
            == SearchTrail(query, batch, up, retstart, fuel).retstarts
    decreases fuel
  {
    if fuel > 0 && StopAfter(query, batch, up, retstart).None? {
      StartsTrail(query, journals, batch, up, retstart + batch, fuel - 1);
    }
  }

  lemma {:induction false} StopTrail(query: string, journals: seq<string>, batch: int,
                                     up: Upstream, retstart: int, fuel: nat)
    ensures Pages(query, journals, batch, up, retstart, fuel).stop
            == SearchTrail(query, batch, up, retstart, fuel).stop
    decreases fuel
  {
    if fuel > 0 && StopAfter(query, batch, up, retstart).None? {
      StopTrail(query, journals, batch, up, retstart + batch, fuel - 1);
    }
  }

  /** Every search but the last lets the loop go on. */
  lemma {:induction false} TrailContinues(query: string, batch: int, up: Upstream, retstart: int,
                                          fuel: nat, i: nat)
    requires i + 1 < |SearchTrail(query, batch, up, retstart, fuel).retstarts|
    ensures StopAfter(query, batch, up, SearchTrail(query, batch, up, retstart, fuel).retstarts[i]).None?
    decreases fuel
  {
    var t := SearchTrail(query, batch, up, retstart, fuel);
    var rest := SearchTrail(query, batch, up, retstart + batch, fuel - 1);
    assert StopAfter(query, batch, up, retstart).None? && t.retstarts == [retstart] + rest.retstarts;
    if i > 0 {
      TrailContinues(query, batch, up, retstart + batch, fuel - 1, i - 1);
      assert t.retstarts[i] == rest.retstarts[i - 1];
    }
  }

  /** A trail that did not run out of fuel stopped because of its last
      search. */
  lemma {:induction false} TrailStops(query: string, batch: int, up: Upstream, retstart: int, fuel: nat)
    ensures var t := SearchTrail(query, batch, up, retstart, fuel);
      t.stop != OutOfFuel ==> StopAfter(query, batch, up, t.retstarts[|t.retstarts| - 1]) == Some(t.stop)
    decreases fuel
  {
    if fuel > 0 && StopAfter(query, batch, up, retstart).None? {
      var t := SearchTrail(query, batch, up, retstart, fuel);
      var rest := SearchTrail(query, batch, up, retstart + batch, fuel - 1);
      TrailStops(query, batch, up, retstart + batch, fuel - 1);
      assert t.retstarts == [retstart] + rest.retstarts;
      if rest.stop != OutOfFuel {
        assert t.retstarts[|t.retstarts| - 1] == rest.retstarts[|rest.retstarts| - 1];
      }
    }
  }

  /** The loop goes on to another search only after a search that returned
      ids and a count beyond the next `retstart`, and a fetch that did not
      fail. */
  lemma {:induction false} PagingContinues(query: string, journals: seq<string>, batch: int,
                                           up: Upstream, retstart: int, fuel: nat, i: nat)
    requires i + 1 < |Pages(query, journals, batch, up, retstart, fuel).retstarts|
    ensures var r := Pages(query, journals, batch, up, retstart, fuel).retstarts[i];
      && up.search(query, r).Searched?
      && up.search(query, r).ids != []
      && up.fetch(up.search(query, r).ids).Fetched?
      && r + batch < up.search(query, r).count
  {
    PagesTrail(query, journals, batch, up, retstart, fuel);
    TrailContinues(query, batch, up, retstart, fuel, i);
  }

  /** How the last search ended decides the stop reason. */
  lemma {:induction false} PagingStops(query: string, journals: seq<string>, batch: int,
                                       up: Upstream, retstart: int, fuel: nat)
    ensures var h := Pages(query, journals, batch, up, retstart, fuel);
      h.stop != OutOfFuel ==>
        var r := h.retstarts[|h.retstarts| - 1];
        var reply := up.search(query, r);
        && (h.stop == SearchError <==> reply.SearchFailed?)
        && (h.stop == NoIds <==> reply.Searched? && reply.ids == [])
        && (h.stop == FetchError <==> reply.Searched? && reply.ids != [] && up.fetch(reply.ids).FetchFailed?)
        && (h.stop == CountReached <==> reply.Searched? && reply.ids != [] &&
                                        up.fetch(reply.ids).Fetched? && r + batch >= reply.count)
  {
    PagesTrail(query, journals, batch, up, retstart, fuel);
    TrailStops(query, batch, up, retstart, fuel);
  }

  /** Number of searches an upstream that always returns ids and the same
      `count` receives, starting at `retstart`. */
  function SearchesUntilCount(retstart: int, batch: int, count: int): nat
    requires batch > 0
    decreases count - retstart
  {
    if retstart + batch >= count then 1 else 1 + SearchesUntilCount(retstart + batch, batch, count)
  }

  /** Against full pages and a fixed `count`, paging makes exactly the
      searches needed to pass `count`. */
  lemma {:induction false} FullPagesSearchCount(query: string, journals: seq<string>, batch: int,
                                                up: Upstream, retstart: int, fuel: nat, count: int)
    requires batch > 0
    requires forall r :: up.search(query, r).Searched? && up.search(query, r).ids != []
                         && up.search(query, r).count == count
    requires forall ids :: up.fetch(ids).Fetched?
    requires fuel >= SearchesUntilCount(retstart, batch, count)
    ensures |Pages(query, journals, batch, up, retstart, fuel).retstarts| == SearchesUntilCount(retstart, batch, count)
    ensures Pages(query, journals, batch, up, retstart, fuel).stop == CountReached
    decreases count - retstart
  {
    if retstart + batch < count {
      FullPagesSearchCount(query, journals, batch, up, retstart + batch, fuel - 1, count);
    }
  }

  /** With 250 results in total and batches of 100, three searches are made,
      at `retstart` 0, 100 and 200. */
  lemma {:induction false} ThreeSearchesFor250(query: string, journals: seq<string>, up: Upstream, fuel: nat)
    requires forall r :: up.search(query, r).Searched? && up.search(query, r).ids != []
                         && up.search(query, r).count == 250
    requires forall ids :: up.fetch(ids).Fetched?
    requires fuel >= 3
    ensures Pages(query, journals, 100, up, 0, fuel).retstarts == [0, 100, 200]
  {
    assert SearchesUntilCount(0, 100, 250) == 3;
    FullPagesSearchCount(query, journals, 100, up, 0, fuel, 250);
    var rs := Pages(query, journals, 100, up, 0, fuel).retstarts;
    assert rs[1] == rs[0] + 100;
    assert rs[2] == rs[1] + 100;
  }

  // ---------------------------------------------------------------------
  // The loop as the script runs it

  /** `entries` extended with the records of one fetched batch. */
  method AppendPage(entries: seq<string>, articles: seq<Article>, journals: seq<string>)
    returns (out: seq<string>)
    ensures out == entries + PageRecords(articles, journals)
  {
    out := entries;
    var i := 0;
    while i < |articles|
      invariant 0 <= i <= |articles|
      invariant out == entries + PageRecords(articles[..i], journals)
    {
      var a := articles[i];
      PageRecordsStep(articles, i, journals);
      ghost var before := out;
      if journals == [] || AnyIn(a.journalTitle, journals) {
        var doi := FindDoi(a.elocations);
        out := out + [RecordWith(a, doi)];
        SeqAssoc(entries, PageRecords(articles[..i], journals), [Record(a)]);
      } else {
        assert out == before + [];
      }
      i := i + 1;
    }
    assert articles[..i] == articles;
  }

  lemma {:induction false} PageRecordsStep(articles: seq<Article>, i: nat, journals: seq<string>)
    requires i < |articles|
    ensures PageRecords(articles[..i + 1], journals) ==
      PageRecords(articles[..i], journals) + (if Wanted(articles[i], journals) then [Record(articles[i])] else [])
  {
    assert articles[..i + 1][..i] == articles[..i];
  }

  /** The `while True` loop for one keyword, starting at `retstart` 0. */
  method HarvestKeyword(query: string, journals: seq<string>, batch: int, up: Upstream, fuel: nat)
    returns (h: Harvest)
    ensures h == Pages(query, journals, batch, up, 0, fuel)
  {
    var entries: seq<string> := [];
    var starts: seq<int> := [];
    var retstart := 0;
    var left := fuel;
    while true
      invariant Resumes(query, journals, batch, up, fuel, entries, starts, retstart, left)
      decreases left
    {
      if left == 0 {
        h := Harvest(entries, starts, OutOfFuel);
        assert entries + [] == entries && starts + [] == starts;
        return;
      }
      var reply := up.search(query, retstart);
      if reply.SearchFailed? {
        h := Harvest(entries, starts + [retstart], SearchError);
        ResumesLast(query, journals, batch, up, fuel, entries, starts, retstart, left, []);
        return;
      }
      if reply.ids == [] {
        h := Harvest(entries, starts + [retstart], NoIds);
        ResumesLast(query, journals, batch, up, fuel, entries, starts, retstart, left, []);
        return;
      }
      var fetched := up.fetch(reply.ids);
      if fetched.FetchFailed? {
        h := Harvest(entries, starts + [retstart], FetchError);
        ResumesLast(query, journals, batch, up, fuel, entries, starts, retstart, left, []);
        return;
      }
      var before, searched := entries, retstart;
      entries := AppendPage(entries, fetched.articles, journals);
      if retstart + batch >= reply.count {
        h := Harvest(entries, starts + [retstart], CountReached);
        ResumesLast(query, journals, batch, up, fuel, before, starts, retstart, left,
                    PageRecords(fetched.articles, journals));
        return;
      }
      ResumesNext(query, journals, batch, up, fuel, before, starts, retstart, left,
                  PageRecords(fetched.articles, journals));
      starts := starts + [retstart];
      retstart := retstart + batch;
      left := left - 1;
    }
  }

  /** The loop state of `HarvestKeyword`: the records and `retstart`s so far,
      followed by what paging from `retstart` with `left` searches gives, are
      what paging the keyword from 0 gives. */
  ghost predicate Resumes(query: string, journals: seq<string>, batch: int, up: Upstream, fuel: nat,
                          entries: seq<string>, starts: seq<int>, retstart: int, left: nat)
  {
    var rest := Pages(query, journals, batch, up, retstart, left);
    Pages(query, journals, batch, up, 0, fuel) ==
      Harvest(entries + rest.entries, starts + rest.retstarts, rest.stop)
  }

  /** A search that ends paging. */
  lemma {:induction false} ResumesLast(query: string, journals: seq<string>, batch: int, up: Upstream,
                                       fuel: nat, entries: seq<string>, starts: seq<int>,
                                       retstart: int, left: nat, records: seq<string>)
    requires Resumes(query, journals, batch, up, fuel, entries, starts, retstart, left)
    requires var h := Pages(query, journals, batch, up, retstart, left);
      h.entries == records && h.retstarts == [retstart]
    ensures var h := Pages(query, journals, batch, up, retstart, left);
      Pages(query, journals, batch, up, 0, fuel) == Harvest(entries + records, starts + [retstart], h.stop)
  {
  }

  /** A search after which paging goes on. */
  lemma {:induction false} ResumesNext(query: string, journals: seq<string>, batch: int, up: Upstream,
                                       fuel: nat, entries: seq<string>, starts: seq<int>,
                                       retstart: int, left: nat, records: seq<string>)
    requires left > 0
    requires Resumes(query, journals, batch, up, fuel, entries, starts, retstart, left)
    requires var rest := Pages(query, journals, batch, up, retstart + batch, left - 1);
      Pages(query, journals, batch, up, retstart, left) ==
        Harvest(records + rest.entries, [retstart] + rest.retstarts, rest.stop)
    ensures Resumes(query, journals, batch, up, fuel, entries + records, starts + [retstart],
                    retstart + batch, left - 1)
  {
    var rest := Pages(query, journals, batch, up, retstart + batch, left - 1);
    SeqAssoc(entries, records, rest.entries);
    SeqAssoc(starts, [retstart], rest.retstarts);
  }

  // ---------------------------------------------------------------------
  // The whole script

  datatype Flags = Flags(help: bool, daysBeforeToday: Option<int>, batchSize: Option<int>, email: Option<string>)

  function FlagList(f: Flags): seq<(string, bool)> {
    [("--days_before_today", f.daysBeforeToday.Some?),
     ("--batch_size", f.batchSize.Some?),
     ("--email", f.email.Some?)]
  }

  const KeywordsPath := "../config/PubMed_keywords.txt"

  /** What a run ends with: the usage text and exit code 0 for `--help`,
      exit code 1 with the start-up errors, or the harvest of each keyword,
      all entries in order and the output step. */
  datatype Outcome =
    | HelpShown
    | Aborted(errors: seq<StartupError>)
    | Finished(harvests: seq<Harvest>, entries: seq<string>, output: Output)

  function KeywordHarvests(keywords: seq<string>, kw: Keywords, batch: int, up: Upstream, fuel: nat)
    : (hs: seq<Harvest>)
    ensures |hs| == |keywords|
    decreases |keywords|
  {
    if keywords == [] then []
    else
      var k := keywords[|keywords| - 1];
      KeywordHarvests(keywords[..|keywords| - 1], kw, batch, up, fuel)
        + [Pages(Query(k, kw.journals, kw.exclude), kw.journals, batch, up, 0, fuel)]
  }

  function AllEntries(hs: seq<Harvest>): seq<string>
    decreases |hs|
  {
    if hs == [] then [] else AllEntries(hs[..|hs| - 1]) + hs[|hs| - 1].entries
  }

  function RunSpec(flags: Flags, file: Option<Ini>, up: Upstream, fuel: nat): Outcome {
    if flags.help then HelpShown
    else
      var loaded := Loaded(file, true);
      var flagErrors := FlagErrors(FlagList(flags));
      var errors := flagErrors + KeywordFileErrors(KeywordsPath, loaded);
      if errors != [] then Aborted(errors)
      else
        assert flagErrors == [] && FlagList(flags)[1].1;
        var kw := loaded.value;
        var hs := KeywordHarvests(kw.keywords, kw, flags.batchSize.value, up, fuel);
        Finished(hs, AllEntries(hs), WriteEntries(AllEntries(hs)))
  }

  /** The script from argument checking to the output file. */
  method Run(flags: Flags, file: Option<Ini>, up: Upstream, fuel: nat) returns (o: Outcome)
    ensures o == RunSpec(flags, file, up, fuel)
  {
    if flags.help {
      return HelpShown;
    }
    var loaded := LoadKeywords(file, true);
    var errors := StartupErrors(FlagList(flags), KeywordsPath, loaded);
    if errors != [] {
      return Aborted(errors);
    }
    var kw := loaded.value;
    var harvests, entries := HarvestAll(kw, flags.batchSize.value, up, fuel);
    o := Finished(harvests, entries, WriteEntries(entries));
  }

  /** The `for keyword in keywords` loop: each keyword's harvest in turn,
      its entries appended to those before. */
  method HarvestAll(kw: Keywords, batch: int, up: Upstream, fuel: nat)
    returns (harvests: seq<Harvest>, entries: seq<string>)
    ensures harvests == KeywordHarvests(kw.keywords, kw, batch, up, fuel)
    ensures entries == AllEntries(harvests)
  {
    harvests, entries := [], [];
    for i := 0 to |kw.keywords|
      invariant harvests == KeywordHarvests(kw.keywords[..i], kw, batch, up, fuel)
      invariant entries == AllEntries(harvests)
    {
      var query := Query(kw.keywords[i], kw.journals, kw.exclude);
      var h := HarvestKeyword(query, kw.journals, batch, up, fuel);
      HarvestsStep(kw.keywords, i, kw, batch, up, fuel);
      ghost var before := harvests;
      harvests := harvests + [h];
      entries := entries + h.entries;
      assert harvests[..|harvests| - 1] == before;
    }
    assert kw.keywords[..|kw.keywords|] == kw.keywords;
  }

  lemma {:induction false} HarvestsStep(ks: seq<string>, i: nat, kw: Keywords, batch: int, up: Upstream, fuel: nat)
    requires i < |ks|
    ensures KeywordHarvests(ks[..i + 1], kw, batch, up, fuel)
            == KeywordHarvests(ks[..i], kw, batch, up, fuel)
               + [Pages(Query(ks[i], kw.journals, kw.exclude), kw.journals, batch, up, 0, fuel)]
  {
    assert ks[..i + 1][..i] == ks[..i];
  }

  // ---------------------------------------------------------------------
  // Properties of a run

  /** Without `--help`, the run stops with exit code 1, before any search,
      exactly when a flag is missing, the keyword file is missing, or it
      lists no keywords. */
  lemma {:induction false} AbortIff(flags: Flags, file: Option<Ini>, up: Upstream, fuel: nat)
    requires !flags.help
    ensures RunSpec(flags, file, up, fuel).Aborted? <==>
      flags.daysBeforeToday.None? || flags.batchSize.None? || flags.email.None? ||
      file.None? || Section(file.value, "keywords") == []
  {
    var fl := FlagList(flags);
    if flags.daysBeforeToday.None? { assert !fl[0].1; }
    if flags.batchSize.None? { assert !fl[1].1; }
    if flags.email.None? { assert !fl[2].1; }
  }

  /** The `required_keywords` section has no effect on anything the script
      does. */
  lemma {:induction false} RequiredKeywordsUnused(flags: Flags, ini: Ini, required: seq<string>, up: Upstream, fuel: nat)
    ensures RunSpec(flags, Some(ini), up, fuel) ==
            RunSpec(flags, Some(ini["required_keywords" := required]), up, fuel)
  {
    var ini' := ini["required_keywords" := required];
    assert Section(ini', "keywords") == Section(ini, "keywords");
    assert Section(ini', "exclude_keywords") == Section(ini, "exclude_keywords");
    assert Section(ini', "journals_of_interest") == Section(ini, "journals_of_interest");
    var kw, kw' := Loaded(Some(ini), true).value, Loaded(Some(ini'), true).value;
    forall ks: seq<string>, b: int ensures KeywordHarvests(ks, kw, b, up, fuel) == KeywordHarvests(ks, kw', b, up, fuel) {
      HarvestsIgnoreRequired(ks, kw, kw', b, up, fuel);
    }
  }

  lemma {:induction false} HarvestsIgnoreRequired(ks: seq<string>, kw: Keywords, kw': Keywords,
                                                  batch: int, up: Upstream, fuel: nat)
    requires kw.journals == kw'.journals && kw.exclude == kw'.exclude
    ensures KeywordHarvests(ks, kw, batch, up, fuel) == KeywordHarvests(ks, kw', batch, up, fuel)
    decreases |ks|
  {
    if ks != [] {
      HarvestsIgnoreRequired(ks[..|ks| - 1], kw, kw', batch, up, fuel);
    }
  }

  /** Each keyword is paged on its own, from `retstart` 0; a failure while
      paging one keyword ends only that keyword, and its entries are followed
      by those of the next keyword. Nothing is deduplicated, so a keyword
      given twice contributes its records twice. */
  lemma {:induction false} KeywordsIndependent(ks: seq<string>, k: string, kw: Keywords,
                                               batch: int, up: Upstream, fuel: nat)
    ensures var h := Pages(Query(k, kw.journals, kw.exclude), kw.journals, batch, up, 0, fuel);
      && KeywordHarvests(ks + [k], kw, batch, up, fuel) == KeywordHarvests(ks, kw, batch, up, fuel) + [h]
      && AllEntries(KeywordHarvests(ks + [k], kw, batch, up, fuel)) ==
         AllEntries(KeywordHarvests(ks, kw, batch, up, fuel)) + h.entries
      && AllEntries(KeywordHarvests([k, k], kw, batch, up, fuel)) == h.entries + h.entries
  {
    assert (ks + [k])[..|ks + [k]| - 1] == ks;
    var h := Pages(Query(k, kw.journals, kw.exclude), kw.journals, batch, up, 0, fuel);
    assert [k, k][..1] == [k];
    assert [k][..0] == [];
    assert KeywordHarvests([k, k], kw, batch, up, fuel) == [h, h];
    assert [h, h][..1] == [h];
    assert [h][..0] == [];
    assert AllEntries([h]) == h.entries;
    assert AllEntries([h, h]) == AllEntries([h]) + h.entries;
  }
}
