// bin/bioRxiv_retrieve.py: for each keyword, page through the bioRxiv listing
// of the run's date range by offset and keep the items whose abstract mentions
// the keyword, that name no exclusion keyword and, when required keywords are
// configured, name at least one of them.
//
// The server is a parameter: `Server(offset)` stands for `requests.get` on the
// listing URL of the run's fixed date range at that offset, together with the
// status code and the decoded JSON body's "collection", when it has one.
module BioRxiv {
  import opened Wrappers
  import opened Text
  import opened Retrieval

  /** The "authors" value: a JSON list is joined, anything else is printed as
      it is. */
  datatype AuthorsField = AuthorList(names: seq<string>) | AuthorText(text: string)

  datatype Item = Item(
    title: string,
    abstractText: string,
    authors: Option<AuthorsField>,  // None when the key is absent
    date: string,
    doi: string)

  datatype Response = Response(status: int, collection: Option<seq<Item>>)

  type Server = int -> Response

  // ---------------------------------------------------------------------
  // Filters

  /** The keyword test looks at the abstract only. */
  predicate Matches(item: Item, keyword: string) {
    ContainsCI(item.abstractText, keyword)
  }

  /** `item['title'] + " " + item['abstract']`, the text of the other tests. */
  function Combined(item: Item): string {
    item.title + " " + item.abstractText
  }

  predicate Excluded(item: Item, exclude: seq<string>) {
    exclude != [] && AnyIn(Combined(item), exclude)
  }

  predicate MissingRequired(item: Item, required: seq<string>) {
    required != [] && Score(Combined(item), required) == 0
  }

  predicate Accepted(item: Item, keyword: string, kw: Keywords) {
    Matches(item, keyword) && !Excluded(item, kw.exclude) && !MissingRequired(item, kw.required)
  }

  /** An item is kept for a keyword exactly when the keyword occurs in its
      abstract (its title does not count), no exclusion keyword occurs in
      title and abstract, and either no required keywords are configured or
      one of them occurs there: one required keyword is enough. */
  lemma {:induction false} AcceptedIff(item: Item, keyword: string, kw: Keywords)
    ensures Accepted(item, keyword, kw) <==>
      && ContainsCI(item.abstractText, keyword)
      && (forall i :: 0 <= i < |kw.exclude| ==> !ContainsCI(Combined(item), kw.exclude[i]))
      && (kw.required == [] || exists i :: 0 <= i < |kw.required| && ContainsCI(Combined(item), kw.required[i]))
  {
    AnyInIff(Combined(item), kw.exclude);
    AnyInIff(Combined(item), kw.required);
    ScorePositiveIff(Combined(item), kw.required);
  }

  // ---------------------------------------------------------------------
  // The entry block

  function AuthorsText(f: Option<AuthorsField>): string {
    match f
    case None => ""
    case Some(AuthorList(names)) => Join(names, ", ")
    case Some(AuthorText(text)) => text
  }

  function RecordLines(item: Item): seq<string> {
    [ "Title: " + item.title,
      "Authors: " + AuthorsText(item.authors),
      "Date: " + item.date,
      "DOI: " + item.doi,
      "URL: https://doi.org/" + item.doi,
      "Abstract: " + item.abstractText ]
  }

  /** Title, Authors, Date, DOI, URL and Abstract lines, then a blank line;
      there is no Journal line. */
  function Record(item: Item): string {
    Unlines(RecordLines(item) + [""])
  }

  /** A record whose fields hold no line break reads back as its six lines
      and the blank line. */
  lemma {:induction false} RecordShape(item: Item)
    requires NoNewline(item.title) && NoNewline(AuthorsText(item.authors))
    requires NoNewline(item.date) && NoNewline(item.doi) && NoNewline(item.abstractText)
    ensures Lines(Record(item)) == RecordLines(item) + [""]
  {
    var ls := RecordLines(item) + [""];
    forall i | 0 <= i < |ls| ensures NoNewline(ls[i]) {
      if i == 0 { NoNewlineConcat("Title: ", item.title); }
      else if i == 1 { NoNewlineConcat("Authors: ", AuthorsText(item.authors)); }
      else if i == 2 { NoNewlineConcat("Date: ", item.date); }
      else if i == 3 { NoNewlineConcat("DOI: ", item.doi); }
      else if i == 4 { NoNewlineConcat("URL: https://doi.org/", item.doi); }
      else if i == 5 { NoNewlineConcat("Abstract: ", item.abstractText); }
    }
    LinesUnlines(ls);
  }

  /** A list of authors is joined with ", "; a text is kept unchanged. */
  lemma {:induction false} AuthorsJoined(names: seq<string>, i: nat, text: string)
    requires i < |names|
    ensures Contains(AuthorsText(Some(AuthorList(names))), names[i])
    ensures AuthorsText(Some(AuthorText(text))) == text
    ensures AuthorsText(None) == ""
  {
    JoinHasPart(names, ", ", i);
  }

  // ---------------------------------------------------------------------
  // One page, one keyword

  /** The records one page contributes for one keyword, in page order. */
  function PageRecords(items: seq<Item>, keyword: string, kw: Keywords): seq<string>
    decreases |items|
  {
    if items == [] then []
    else
      var item := items[|items| - 1];
      PageRecords(items[..|items| - 1], keyword, kw)
        + (if Accepted(item, keyword, kw) then [Record(item)] else [])
  }

  /** The `for item in collection` loop with its two `continue`s. */
  method AppendPage(entries: seq<string>, items: seq<Item>, keyword: string, kw: Keywords)
    returns (out: seq<string>)
    ensures out == entries + PageRecords(items, keyword, kw)
  {
    out := entries;
    var i := 0;
    while i < |items|
      invariant 0 <= i <= |items|
      invariant out == entries + PageRecords(items[..i], keyword, kw)
    {
      var item := items[i];
      assert items[..i + 1][..i] == items[..i];
      i := i + 1;
      if !ContainsCI(item.abstractText, keyword) {
        continue;
      }
      var combined := item.title + " " + item.abstractText;
      if kw.exclude != [] && AnyIn(combined, kw.exclude) {
        continue;
      }
      if kw.required != [] && Score(combined, kw.required) == 0 {
        continue;
      }
      out := out + [Unlines(RecordLines(item) + [""])];
    }
    assert items[..i] == items;
  }

  /** Why the paging of one keyword ended; `OutOfFuel` is the model's bound
      on the number of requests, the script has none. */
  datatype Stop = EmptyPage | RequestFailed | OutOfFuel

  /** One keyword's records, the offset of every request made, and why
      paging stopped. */
  datatype Harvest = Harvest(entries: seq<string>, offsets: seq<int>, stop: Stop)

  /** A page is usable when the status is 200 and the body has a
      "collection". */
  predicate Usable(r: Response) {
    r.status == 200 && r.collection.Some?
  }

  /** The `while True` loop of one keyword from a given offset, with at most
      `fuel` requests. The first request is at `offset` and each further one
      `batch` later, however many items the previous page held. */
  function Pages(server: Server, keyword: string, kw: Keywords, batch: int, offset: int, fuel: nat)
    : (h: Harvest)
    ensures |h.offsets| <= fuel
    ensures h.stop == OutOfFuel ==> |h.offsets| == fuel
    ensures fuel > 0 ==> |h.offsets| >= 1
    ensures h.offsets != [] ==> h.offsets[0] == offset
    ensures Spaced(h.offsets, batch)
    decreases fuel
  {
    if fuel == 0 then Harvest([], [], OutOfFuel)
    else
      var r := server(offset);
      if !Usable(r) then Harvest([], [offset], RequestFailed)
      else if r.collection.value == [] then Harvest([], [offset], EmptyPage)
      else
        var rest := Pages(server, keyword, kw, batch, offset + batch, fuel - 1);
        SpacedCons(offset, rest.offsets, batch);
        Harvest(PageRecords(r.collection.value, keyword, kw) + rest.entries, [offset] + rest.offsets, rest.stop)
  }

  /** Paging goes on after a request exactly when its page is usable and
      not empty. */
  predicate GoesOn(r: Response) {
    Usable(r) && r.collection.value != []
  }

  /** The offsets requested and the stop reason, without the records. */
  datatype Trail = Trail(offsets: seq<int>, stop: Stop)

  function RequestTrail(server: Server, batch: int, offset: int, fuel: nat): Trail
    decreases fuel
  {
    if fuel == 0 then Trail([], OutOfFuel)
    else if !Usable(server(offset)) then Trail([offset], RequestFailed)
    else if !GoesOn(server(offset)) then Trail([offset], EmptyPage)
    else
      var rest := RequestTrail(server, batch, offset + batch, fuel - 1);
      Trail([offset] + rest.offsets, rest.stop)
  }

  /** Paging requests where the trail says and stops for its reason. */
  lemma {:induction false} PagesTrail(server: Server, keyword: string, kw: Keywords,
                                      batch: int, offset: int, fuel: nat)
    ensures Pages(server, keyword, kw, batch, offset, fuel).offsets
            == RequestTrail(server, batch, offset, fuel).offsets
    ensures Pages(server, keyword, kw, batch, offset, fuel).stop
            == RequestTrail(server, batch, offset, fuel).stop
    decreases fuel
  {
    if fuel > 0 {
      if GoesOn(server(offset)) {
        PagesTrail(server, keyword, kw, batch, offset + batch, fuel - 1);
      } else {
        assert Pages(server, keyword, kw, batch, offset, fuel).offsets == [offset];
      }
    }
  }

  /** Every request but the last lets paging go on. */
  lemma {:induction false} TrailContinues(server: Server, batch: int, offset: int, fuel: nat, i: nat)
    requires i + 1 < |RequestTrail(server, batch, offset, fuel).offsets|
    ensures GoesOn(server(RequestTrail(server, batch, offset, fuel).offsets[i]))
    decreases fuel
  {
    var t := RequestTrail(server, batch, offset, fuel);
    var rest := RequestTrail(server, batch, offset + batch, fuel - 1);
    assert GoesOn(server(offset)) && t.offsets == [offset] + rest.offsets;
    if i > 0 {
      TrailContinues(server, batch, offset + batch, fuel - 1, i - 1);
      assert t.offsets[i] == rest.offsets[i - 1];
    }
  }

  /** A trail that did not run out of fuel stopped because of its last
      request. */
  lemma {:induction false} TrailStops(server: Server, batch: int, offset: int, fuel: nat)
    ensures var t := RequestTrail(server, batch, offset, fuel);
      t.stop != OutOfFuel ==>
        var r := server(t.offsets[|t.offsets| - 1]);
        || (t.stop == RequestFailed && !Usable(r))
        || (t.stop == EmptyPage && Usable(r) && r.collection.value == [])
    decreases fuel
  {
    if fuel > 0 && GoesOn(server(offset)) {
      var t := RequestTrail(server, batch, offset, fuel);
      var rest := RequestTrail(server, batch, offset + batch, fuel - 1);
      TrailStops(server, batch, offset + batch, fuel - 1);
      assert t.offsets == [offset] + rest.offsets;
      if rest.stop != OutOfFuel {
        assert t.offsets[|t.offsets| - 1] == rest.offsets[|rest.offsets| - 1];
      }
    }
  }

  /** Paging goes on past a request only when its page was usable and not
      empty. */
  lemma {:induction false} PagingContinues(server: Server, keyword: string, kw: Keywords,
                                           batch: int, offset: int, fuel: nat, i: nat)
    requires i + 1 < |Pages(server, keyword, kw, batch, offset, fuel).offsets|
    ensures var r := server(Pages(server, keyword, kw, batch, offset, fuel).offsets[i]);
      Usable(r) && r.collection.value != []
  {
    PagesTrail(server, keyword, kw, batch, offset, fuel);
    TrailContinues(server, batch, offset, fuel, i);
  }

  /** The last request made explains the stop: a failed request, or a
      usable but empty page. */
  lemma {:induction false} PagingStops(server: Server, keyword: string, kw: Keywords,
                                       batch: int, offset: int, fuel: nat)
    ensures var h := Pages(server, keyword, kw, batch, offset, fuel);
      h.stop != OutOfFuel ==>
        var r := server(h.offsets[|h.offsets| - 1]);
        || (h.stop == RequestFailed && !Usable(r))
        || (h.stop == EmptyPage && Usable(r) && r.collection.value == [])
  {
    PagesTrail(server, keyword, kw, batch, offset, fuel);
    TrailStops(server, batch, offset, fuel);
  }

  /** The paging loop of one keyword, starting at offset 0. */
  method HarvestKeyword(server: Server, keyword: string, kw: Keywords, batch: int, fuel: nat)
    returns (h: Harvest)
    ensures h == Pages(server, keyword, kw, batch, 0, fuel)
  {
    var entries: seq<string> := [];
    var offsets: seq<int> := [];
    var offset := 0;
    var left := fuel;
    while true
      invariant Resumes(server, keyword, kw, batch, fuel, entries, offsets, offset, left)
      decreases left
    {
      if left == 0 {
        assert entries + [] == entries && offsets + [] == offsets;
        return Harvest(entries, offsets, OutOfFuel);
      }
      var response := server(offset);
      if response.status != 200 || response.collection.None? {
        ResumesLast(server, keyword, kw, batch, fuel, entries, offsets, offset, left);
        return Harvest(entries, offsets + [offset], RequestFailed);
      }
      var collection := response.collection.value;
      if collection == [] {
        ResumesLast(server, keyword, kw, batch, fuel, entries, offsets, offset, left);
        return Harvest(entries, offsets + [offset], EmptyPage);
      }
      ResumesNext(server, keyword, kw, batch, fuel, entries, offsets, offset, left);
      entries := AppendPage(entries, collection, keyword, kw);
      offsets := offsets + [offset];
      offset := offset + batch;
      left := left - 1;
    }
  }

  /** The loop state of `HarvestKeyword`: the records and offsets so far,
      followed by what paging from `offset` with `left` requests gives, are
      what paging the keyword from 0 gives. */
  ghost predicate Resumes(server: Server, keyword: string, kw: Keywords, batch: int, fuel: nat,
                          entries: seq<string>, offsets: seq<int>, offset: int, left: nat)
  {
    var rest := Pages(server, keyword, kw, batch, offset, left);
    Pages(server, keyword, kw, batch, 0, fuel) ==
      Harvest(entries + rest.entries, offsets + rest.offsets, rest.stop)
  }

  /** A request that ends paging. */
  lemma {:induction false} ResumesLast(server: Server, keyword: string, kw: Keywords, batch: int,
                                       fuel: nat, entries: seq<string>, offsets: seq<int>,
                                       offset: int, left: nat)
    requires Resumes(server, keyword, kw, batch, fuel, entries, offsets, offset, left)
    requires left > 0 && !(Usable(server(offset)) && server(offset).collection.value != [])
    ensures Pages(server, keyword, kw, batch, 0, fuel) ==
      Harvest(entries, offsets + [offset], if Usable(server(offset)) then EmptyPage else RequestFailed)
  {
    assert entries + [] == entries;
  }

  /** A request after which paging goes on. */
  lemma {:induction false} ResumesNext(server: Server, keyword: string, kw: Keywords, batch: int,
                                       fuel: nat, entries: seq<string>, offsets: seq<int>,
                                       offset: int, left: nat)
    requires Resumes(server, keyword, kw, batch, fuel, entries, offsets, offset, left)
    requires left > 0 && Usable(server(offset)) && server(offset).collection.value != []
    ensures Resumes(server, keyword, kw, batch, fuel,
                    entries + PageRecords(server(offset).collection.value, keyword, kw),
                    offsets + [offset], offset + batch, left - 1)
  {
    var rest := Pages(server, keyword, kw, batch, offset + batch, left - 1);
    SeqAssoc(entries, PageRecords(server(offset).collection.value, keyword, kw), rest.entries);
    SeqAssoc(offsets, [offset], rest.offsets);
  }

  // ---------------------------------------------------------------------
  // The whole script

  datatype Flags = Flags(help: bool, daysBeforeToday: Option<int>, batchSize: Option<int>)

  function FlagList(f: Flags): seq<(string, bool)> {
    [("--days_before_today", f.daysBeforeToday.Some?), ("--batch_size", f.batchSize.Some?)]
  }

  const KeywordsPath := "../config/bioRxiv_keywords.txt"

  datatype Outcome =
    | HelpShown
    | Aborted(errors: seq<StartupError>)
    | Finished(harvests: seq<Harvest>, entries: seq<string>, output: Output)

  function KeywordHarvests(keywords: seq<string>, kw: Keywords, server: Server, batch: int, fuel: nat)
    : (hs: seq<Harvest>)
    ensures |hs| == |keywords|
    decreases |keywords|
  {
    if keywords == [] then []
    else
      KeywordHarvests(keywords[..|keywords| - 1], kw, server, batch, fuel)
        + [Pages(server, keywords[|keywords| - 1], kw, batch, 0, fuel)]
  }

  function AllEntries(hs: seq<Harvest>): seq<string>
    decreases |hs|
  {
    if hs == [] then [] else AllEntries(hs[..|hs| - 1]) + hs[|hs| - 1].entries
  }

  function RunSpec(flags: Flags, file: Option<Ini>, server: Server, fuel: nat): Outcome {
    if flags.help then HelpShown
    else
      var loaded := Loaded(file, false);
      var flagErrors := FlagErrors(FlagList(flags));
      var errors := flagErrors + KeywordFileErrors(KeywordsPath, loaded);
      if errors != [] then Aborted(errors)
      else
        assert flagErrors == [] && FlagList(flags)[1].1;
        var kw := loaded.value;
        var hs := KeywordHarvests(kw.keywords, kw, server, flags.batchSize.value, fuel);
        Finished(hs, AllEntries(hs), WriteEntries(AllEntries(hs)))
  }

  method Run(flags: Flags, file: Option<Ini>, server: Server, fuel: nat) returns (o: Outcome)
    ensures o == RunSpec(flags, file, server, fuel)
  {
    if flags.help {
      return HelpShown;
    }
    var loaded := LoadKeywords(file, false);
    var errors := StartupErrors(FlagList(flags), KeywordsPath, loaded);
    if errors != [] {
      return Aborted(errors);
    }
    var kw := loaded.value;
    var batch := flags.batchSize.value;
    var harvests: seq<Harvest> := [];
    var entries: seq<string> := [];
    for i := 0 to |kw.keywords|
      invariant harvests == KeywordHarvests(kw.keywords[..i], kw, server, batch, fuel)
      invariant entries == AllEntries(harvests)
    {
      assert kw.keywords[..i + 1][..i] == kw.keywords[..i];
      var h := HarvestKeyword(server, kw.keywords[i], kw, batch, fuel);
      harvests := harvests + [h];
      entries := entries + h.entries;
      assert harvests[..|harvests| - 1] == harvests[..i];
    }
    assert kw.keywords[..|kw.keywords|] == kw.keywords;
    o := Finished(harvests, entries, WriteEntries(entries));
  }

  /** Without `--help`, the run stops with exit code 1 before any request
      exactly when a flag is missing, the keyword file is missing, or it
      lists no keywords. */
  lemma {:induction false} AbortIff(flags: Flags, file: Option<Ini>, server: Server, fuel: nat)
    requires !flags.help
    ensures RunSpec(flags, file, server, fuel).Aborted? <==>
      flags.daysBeforeToday.None? || flags.batchSize.None? ||
      file.None? || Section(file.value, "keywords") == []
  {
    var fl := FlagList(flags);
    if flags.daysBeforeToday.None? { assert !fl[0].1; }
    if flags.batchSize.None? { assert !fl[1].1; }
  }

  /** Keywords are handled one after the other, each from offset 0, and
      their records are concatenated. */
  lemma {:induction false} KeywordsAppend(ks: seq<string>, k: string, kw: Keywords,
                                          server: Server, batch: int, fuel: nat)
    ensures KeywordHarvests(ks + [k], kw, server, batch, fuel) ==
            KeywordHarvests(ks, kw, server, batch, fuel) + [Pages(server, k, kw, batch, 0, fuel)]
    ensures AllEntries(KeywordHarvests(ks + [k], kw, server, batch, fuel)) ==
            AllEntries(KeywordHarvests(ks, kw, server, batch, fuel)) + Pages(server, k, kw, batch, 0, fuel).entries
  {
    assert (ks + [k])[..|ks + [k]| - 1] == ks;
  }

  /** Nothing is deduplicated: an item that two keywords both accept is
      written twice. */
  lemma {:induction false} ItemMatchingTwoKeywords(server: Server, item: Item, k1: string, k2: string,
                                kw: Keywords, batch: int, fuel: nat)
    requires batch != 0 && fuel >= 2
    requires server(0) == Response(200, Some([item]))
    requires server(batch) == Response(200, Some([]))
    requires Accepted(item, k1, kw) && Accepted(item, k2, kw)
    ensures AllEntries(KeywordHarvests([k1, k2], kw, server, batch, fuel)) == [Record(item), Record(item)]
  {
    OneItemHarvest(server, item, k1, kw, batch, fuel);
    OneItemHarvest(server, item, k2, kw, batch, fuel);
    TwoKeywords(k1, k2, kw, server, batch, fuel);
  }

  /** Two keywords give the first one's records, then the second one's. */
  lemma {:induction false} TwoKeywords(k1: string, k2: string, kw: Keywords,
                                       server: Server, batch: int, fuel: nat)
    ensures AllEntries(KeywordHarvests([k1, k2], kw, server, batch, fuel)) ==
            Pages(server, k1, kw, batch, 0, fuel).entries + Pages(server, k2, kw, batch, 0, fuel).entries
  {
    KeywordsAppend([], k1, kw, server, batch, fuel);
    KeywordsAppend([k1], k2, kw, server, batch, fuel);
    assert [] + [k1] == [k1] && [k1] + [k2] == [k1, k2];
  }

  /** A listing whose first page holds one accepted item and whose second
      page is empty gives that item's record. */
  lemma {:induction false} OneItemHarvest(server: Server, item: Item, k: string,
                                          kw: Keywords, batch: int, fuel: nat)
    requires batch != 0 && fuel >= 2
    requires server(0) == Response(200, Some([item]))
    requires server(batch) == Response(200, Some([]))
    requires Accepted(item, k, kw)
    ensures Pages(server, k, kw, batch, 0, fuel).entries == [Record(item)]
  {
    var rest := Pages(server, k, kw, batch, batch, fuel - 1);
    assert rest.entries == [];
    assert PageRecords([item], k, kw) == [Record(item)] by {
      assert [item][..0] == [];
    }
    assert Pages(server, k, kw, batch, 0, fuel).entries == PageRecords([item], k, kw) + rest.entries;
    assert [Record(item)] + [] == [Record(item)];
  }
}
