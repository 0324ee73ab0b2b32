// bin/arXiv_retrieve.py: for each keyword, page through the arXiv search
// results for that keyword (the server does the keyword match), handle each
// link once per run, keep the recent entries that pass the exclusion and
// required-keyword tests, and write one record per kept link.
//
// The feed is a parameter: `Feed(keyword, start, maxResults)` stands for
// `feedparser.parse` on the query URL and yields its entries (none when the
// request fails). The cut-off `now - days_before_today` is a parameter too.
module ArXiv {
  import opened Wrappers
  import opened Text
  import opened Dates
  import opened Retrieval

  /** A `datetime` to the second: a date and the seconds since midnight. */
  datatype Moment = Moment(date: CalendarDate, second: int)

  predicate Earlier(a: Moment, b: Moment) {
    Before(a.date, b.date) || (a.date == b.date && a.second < b.second)
  }

  datatype FeedEntry = FeedEntry(
    title: string,
    link: string,
    published: Moment,
    summary: string,
    authors: seq<string>)

  type Feed = (string, int, int) -> seq<FeedEntry>

  // ---------------------------------------------------------------------
  // Filters

  function Combined(e: FeedEntry): string {
    e.title + " " + e.summary
  }

  /** The date, exclusion and score tests, in the order the script makes
      them. */
  predicate Accepted(e: FeedEntry, cutoff: Moment, kw: Keywords) {
    && !Earlier(e.published, cutoff)
    && !AnyIn(Combined(e), kw.exclude)
    && (kw.required == [] || Score(Combined(e), kw.required) > 0)
  }

  /** An entry is kept exactly when it was published at or after the cut-off,
      no exclusion keyword occurs in its title and summary, and either no
      required keywords are configured or one of them occurs there. */
  lemma {:induction false} AcceptedIff(e: FeedEntry, cutoff: Moment, kw: Keywords)
    ensures Accepted(e, cutoff, kw) <==>
      && (e.published == cutoff || Earlier(cutoff, e.published))
      && (forall i :: 0 <= i < |kw.exclude| ==> !ContainsCI(Combined(e), kw.exclude[i]))
      && (kw.required == [] || exists i :: 0 <= i < |kw.required| && ContainsCI(Combined(e), kw.required[i]))
  {
    BeforeIsStrictTotalOrder(e.published.date, cutoff.date, cutoff.date);
    AnyInIff(Combined(e), kw.exclude);
    AnyInIff(Combined(e), kw.required);
    ScorePositiveIff(Combined(e), kw.required);
  }

  // ---------------------------------------------------------------------
  // Title cleaning

  /** `' '.join(title.strip().replace('\n', ' ').split())` */
  function CleanTitle(t: string): (c: string)
    ensures NoNewline(c) && IsStripped(c)
    ensures forall k :: 0 <= k < |c| - 1 ==> !(c[k] == ' ' && c[k + 1] == ' ')
  {
    var ws := Words(ReplaceChar(Strip(t), '\n', ' '));
    JoinWordsShape(ws);
    Join(ws, " ")
  }

  /** Cleaning a clean title changes nothing. */
  lemma {:induction false} CleanTitleIdempotent(t: string)
    ensures CleanTitle(CleanTitle(t)) == CleanTitle(t)
  {
    var c := CleanTitle(t);
    var ws := Words(ReplaceChar(Strip(t), '\n', ' '));
    assert c == Join(ws, " ");
    StripOfStripped(c);
    assert ReplaceChar(c, '\n', ' ') == c;
    WordsOfJoin(ws);
  }

  /** The words of the title survive cleaning, in order: the cleaned title
      splits into exactly the words of the title as given. */
  lemma {:induction false} CleanTitleWords(t: string)
    ensures Words(CleanTitle(t)) == Words(t)
  {
    var ws := Words(ReplaceChar(Strip(t), '\n', ' '));
    WordsOfJoin(ws);
    WordsOfNewlineToSpace(Strip(t));
    WordsOfStrip(t);
  }

  // ---------------------------------------------------------------------
  // The entry block

  function RecordLines(e: FeedEntry): seq<string> {
    [ "Title: " + CleanTitle(e.title),
      "Authors: " + Join(e.authors, ", "),
      "Date: " + FormatIso(e.published.date),
      "URL: " + e.link,
      "Abstract: " + e.summary ]
  }

  /** Title, Authors, Date, URL and Abstract lines, then a blank line. */
  function Record(e: FeedEntry): string {
    Unlines(RecordLines(e) + [""])
  }

  // ---------------------------------------------------------------------
  // processed_links and entries

  /** `processed_links`, the `entries` dictionary, and its keys in insertion
      order (the order `entries.values()` follows). */
  datatype State = State(processed: set<string>, entries: map<string, string>, order: seq<string>)

  const Initial := State({}, map[], [])

  /** Keys listed once each, exactly the keys of `entries`, all of them
      processed links. */
  ghost predicate Valid(st: State) {
    && (forall i, j :: 0 <= i < j < |st.order| ==> st.order[i] != st.order[j])
    && (forall l :: l in st.entries <==> l in st.order)
    && st.entries.Keys <= st.processed
  }

  /** One pass of the body of `for entry in response.entries`. */
  function Consider(st: State, e: FeedEntry, cutoff: Moment, kw: Keywords): State {
    if e.link in st.processed then st
    else
      var processed := st.processed + {e.link};
      if Accepted(e, cutoff, kw) then
        State(processed, st.entries[e.link := Record(e)],
              st.order + (if e.link in st.entries then [] else [e.link]))
      else State(processed, st.entries, st.order)
  }

  /** The entries in the order they are looked at. */
  function ProcessAll(st: State, es: seq<FeedEntry>, cutoff: Moment, kw: Keywords): State
    decreases |es|
  {
    if es == [] then st else ProcessAll(Consider(st, es[0], cutoff, kw), es[1..], cutoff, kw)
  }

  lemma {:induction false} ConsiderValid(st: State, e: FeedEntry, cutoff: Moment, kw: Keywords)
    requires Valid(st)
    ensures Valid(Consider(st, e, cutoff, kw))
  {
    var st' := Consider(st, e, cutoff, kw);
    if e.link !in st.processed && Accepted(e, cutoff, kw) {
      assert e.link !in st.order;
      assert st'.order == st.order + [e.link];
    }
  }

  lemma {:induction false} ProcessAllAppend(st: State, a: seq<FeedEntry>, b: seq<FeedEntry>,
                                            cutoff: Moment, kw: Keywords)
    ensures ProcessAll(st, a + b, cutoff, kw) == ProcessAll(ProcessAll(st, a, cutoff, kw), b, cutoff, kw)
    decreases |a|
  {
    if a == [] {
      assert a + b == b;
    } else {
      assert (a + b)[1..] == a[1..] + b;
      ProcessAllAppend(Consider(st, a[0], cutoff, kw), a[1..], b, cutoff, kw);
    }
  }

  /** Position of the first entry with the given link. */
  function FirstIndex(es: seq<FeedEntry>, link: string): (n: nat)
    ensures n <= |es|
    ensures forall k :: 0 <= k < n ==> es[k].link != link
    ensures n < |es| ==> es[n].link == link
  {
    if es == [] || es[0].link == link then 0 else 1 + FirstIndex(es[1..], link)
  }

  /** Only the first occurrence of a link counts. After a run of entries:
      a link is processed when it was before or occurs among them; it has a
      record when it had one before, or when it was not yet processed and its
      first occurrence passes the filters, and then the record is that of the
      first occurrence; a record once made never changes. */
  lemma {:induction false} FirstOccurrenceDecides(st: State, es: seq<FeedEntry>, cutoff: Moment,
                                                  kw: Keywords, link: string)
    requires Valid(st)
    ensures Valid(ProcessAll(st, es, cutoff, kw))
    ensures var st' := ProcessAll(st, es, cutoff, kw); var n := FirstIndex(es, link);
      && (link in st'.processed <==> link in st.processed || n < |es|)
      && (link in st'.entries <==>
            link in st.entries || (link !in st.processed && n < |es| && Accepted(es[n], cutoff, kw)))
      && (link in st.entries ==> st'.entries[link] == st.entries[link])
      && (link !in st.entries && link in st'.entries ==> st'.entries[link] == Record(es[n]))
  {
    ProcessAllValid(st, es, cutoff, kw);
    FirstOccurrenceProcessed(st, es, cutoff, kw, link);
    FirstOccurrenceEntries(st, es, cutoff, kw, link);
  }

  /** A link is processed after a run when it was before or occurs in it. */
  lemma {:induction false} FirstOccurrenceProcessed(st: State, es: seq<FeedEntry>, cutoff: Moment,
                                                    kw: Keywords, link: string)
    ensures link in ProcessAll(st, es, cutoff, kw).processed <==>
            link in st.processed || FirstIndex(es, link) < |es|
    decreases |es|
  {
    if es != [] {
      FirstOccurrenceProcessed(Consider(st, es[0], cutoff, kw), es[1..], cutoff, kw, link);
      if es[0].link != link {
        assert FirstIndex(es, link) == 1 + FirstIndex(es[1..], link);
      }
    }
  }

  /** The record of a link after a run: the one it had, or that of its first
      occurrence when that was new and accepted. */
  lemma {:induction false} FirstOccurrenceEntries(st: State, es: seq<FeedEntry>, cutoff: Moment,
                                                  kw: Keywords, link: string)
    requires Valid(st)
    ensures var st' := ProcessAll(st, es, cutoff, kw); var n := FirstIndex(es, link);
      && (link in st'.entries <==>
            link in st.entries || (link !in st.processed && n < |es| && Accepted(es[n], cutoff, kw)))
      && (link in st.entries ==> st'.entries[link] == st.entries[link])
      && (link !in st.entries && link in st'.entries ==> st'.entries[link] == Record(es[n]))
    decreases |es|
  {
    if es != [] {
      var st1 := Consider(st, es[0], cutoff, kw);
      ConsiderValid(st, es[0], cutoff, kw);
      FirstOccurrenceEntries(st1, es[1..], cutoff, kw, link);
      if es[0].link == link {
        assert FirstIndex(es, link) == 0;
        assert link in st1.processed;
      } else {
        assert FirstIndex(es, link) == 1 + FirstIndex(es[1..], link);
        assert (link in st1.entries <==> link in st.entries) && (link in st1.processed <==> link in st.processed);
        assert link in st.entries ==> st1.entries[link] == st.entries[link];
      }
    }
  }

  /** An entry that was looked at and rejected (or skipped) is never
      accepted afterwards, whatever later keywords or pages bring. */
  lemma {:induction false} RejectedStaysOut(st: State, es: seq<FeedEntry>, cutoff: Moment, kw: Keywords, link: string)
    requires Valid(st)
    requires link in st.processed && link !in st.entries
    ensures link !in ProcessAll(st, es, cutoff, kw).entries
  {
    FirstOccurrenceDecides(st, es, cutoff, kw, link);
  }

  lemma {:induction false} ProcessAllValid(st: State, es: seq<FeedEntry>, cutoff: Moment, kw: Keywords)
    requires Valid(st)
    ensures Valid(ProcessAll(st, es, cutoff, kw))
    ensures st.processed <= ProcessAll(st, es, cutoff, kw).processed
    decreases |es|
  {
    if es != [] {
      ConsiderValid(st, es[0], cutoff, kw);
      ProcessAllValid(Consider(st, es[0], cutoff, kw), es[1..], cutoff, kw);
    }
  }

  /** The values in insertion order: what `writelines(entries.values())`
      writes. */
  function Values(st: State): (vs: seq<string>)
    requires Valid(st)
    ensures |vs| == |st.order|
    ensures forall i :: 0 <= i < |vs| ==> vs[i] == st.entries[st.order[i]]
  {
    seq(|st.order|, i requires 0 <= i < |st.order| => st.entries[st.order[i]])
  }

  /** The entries that are accepted at the first sighting of their link,
      in the order they are looked at; `seen` holds the links already looked
      at before. */
  function FirstAccepted(es: seq<FeedEntry>, seen: set<string>, cutoff: Moment, kw: Keywords): seq<FeedEntry>
    decreases |es|
  {
    if es == [] then []
    else if es[0].link in seen then FirstAccepted(es[1..], seen, cutoff, kw)
    else
      (if Accepted(es[0], cutoff, kw) then [es[0]] else [])
        + FirstAccepted(es[1..], seen + {es[0].link}, cutoff, kw)
  }

  function Links(es: seq<FeedEntry>): seq<string>
    decreases |es|
  {
    if es == [] then [] else [es[0].link] + Links(es[1..])
  }

  function Records(es: seq<FeedEntry>): seq<string>
    decreases |es|
  {
    if es == [] then [] else [Record(es[0])] + Records(es[1..])
  }

  /** After a run of entries the keys of `entries` are the old keys followed
      by the links first accepted in the run, in acceptance order, and each
      new key holds the record of the entry that was accepted for it; old
      keys keep their records. */
  lemma {:induction false} OrderFollowsFirstAcceptance(st: State, es: seq<FeedEntry>, cutoff: Moment,
                                                       kw: Keywords)
    requires Valid(st)
    ensures var st' := ProcessAll(st, es, cutoff, kw); var fa := FirstAccepted(es, st.processed, cutoff, kw);
      && st'.order == st.order + Links(fa)
      && (forall i :: 0 <= i < |fa| ==> fa[i].link in st'.entries && st'.entries[fa[i].link] == Record(fa[i]))
      && (forall l :: l in st.entries ==> l in st'.entries && st'.entries[l] == st.entries[l])
  {
    OrderOfKeys(st, es, cutoff, kw);
    RecordsOfKeys(st, es, cutoff, kw);
  }

  /** The keys: the old ones, then the first-accepted links. */
  lemma {:induction false} OrderOfKeys(st: State, es: seq<FeedEntry>, cutoff: Moment, kw: Keywords)
    requires Valid(st)
    ensures ProcessAll(st, es, cutoff, kw).order == st.order + Links(FirstAccepted(es, st.processed, cutoff, kw))
    decreases |es|
  {
    if es != [] {
      var e := es[0];
      var st1 := Consider(st, e, cutoff, kw);
      ConsiderValid(st, e, cutoff, kw);
      OrderOfKeys(st1, es[1..], cutoff, kw);
      var rest := FirstAccepted(es[1..], st1.processed, cutoff, kw);
      if e.link !in st.processed {
        assert e.link !in st.entries;
        if Accepted(e, cutoff, kw) {
          assert st1.order == st.order + [e.link];
          assert ([e] + rest)[1..] == rest;
          SeqAssoc(st.order, [e.link], Links(rest));
        } else {
          assert [] + rest == rest;
        }
      }
    } else {
      assert st.order + [] == st.order;
    }
  }

  /** The records: those of the first-accepted entries for the new keys,
      unchanged for the old ones. */
  lemma {:induction false} RecordsOfKeys(st: State, es: seq<FeedEntry>, cutoff: Moment, kw: Keywords)
    requires Valid(st)
    ensures var st' := ProcessAll(st, es, cutoff, kw); var fa := FirstAccepted(es, st.processed, cutoff, kw);
      && (forall i :: 0 <= i < |fa| ==> fa[i].link in st'.entries && st'.entries[fa[i].link] == Record(fa[i]))
      && (forall l :: l in st.entries ==> l in st'.entries && st'.entries[l] == st.entries[l])
  {
    forall l | l in st.entries
      ensures l in ProcessAll(st, es, cutoff, kw).entries
      ensures ProcessAll(st, es, cutoff, kw).entries[l] == st.entries[l]
    {
      RecordKept(st, es, cutoff, kw, l);
    }
    var fa := FirstAccepted(es, st.processed, cutoff, kw);
    forall i | 0 <= i < |fa|
      ensures fa[i].link in ProcessAll(st, es, cutoff, kw).entries
      ensures ProcessAll(st, es, cutoff, kw).entries[fa[i].link] == Record(fa[i])
    {
      NewRecord(st, es, cutoff, kw, i);
    }
  }

  /** A record once made is never changed. */
  lemma {:induction false} RecordKept(st: State, es: seq<FeedEntry>, cutoff: Moment, kw: Keywords, l: string)
    requires Valid(st) && l in st.entries
    ensures l in ProcessAll(st, es, cutoff, kw).entries
    ensures ProcessAll(st, es, cutoff, kw).entries[l] == st.entries[l]
    decreases |es|
  {
    if es != [] {
      ConsiderValid(st, es[0], cutoff, kw);
      RecordKept(Consider(st, es[0], cutoff, kw), es[1..], cutoff, kw, l);
    }
  }

  /** The link of the `i`-th first-accepted entry holds that entry's
      record. */
  lemma {:induction false} NewRecord(st: State, es: seq<FeedEntry>, cutoff: Moment, kw: Keywords, i: nat)
    requires Valid(st)
    requires i < |FirstAccepted(es, st.processed, cutoff, kw)|
    ensures var st' := ProcessAll(st, es, cutoff, kw); var e := FirstAccepted(es, st.processed, cutoff, kw)[i];
      e.link in st'.entries && st'.entries[e.link] == Record(e)
    decreases |es|, 1
  {
    assert es != [];
    if es[0].link in st.processed {
      NewRecordSeen(st, es, cutoff, kw, i);
    } else if Accepted(es[0], cutoff, kw) {
      NewRecordAccepted(st, es, cutoff, kw, i);
    } else {
      NewRecordRejected(st, es, cutoff, kw, i);
    }
  }

  /** The first entry's link was looked at before: it is skipped. */
  lemma {:induction false} NewRecordSeen(st: State, es: seq<FeedEntry>, cutoff: Moment, kw: Keywords, i: nat)
    requires Valid(st) && es != [] && es[0].link in st.processed
    requires i < |FirstAccepted(es, st.processed, cutoff, kw)|
    ensures var st' := ProcessAll(st, es, cutoff, kw); var e := FirstAccepted(es, st.processed, cutoff, kw)[i];
      e.link in st'.entries && st'.entries[e.link] == Record(e)
    decreases |es|, 0
  {
    assert Consider(st, es[0], cutoff, kw) == st;
    assert FirstAccepted(es, st.processed, cutoff, kw) == FirstAccepted(es[1..], st.processed, cutoff, kw);
    NewRecord(st, es[1..], cutoff, kw, i);
  }

  /** The first entry's link is new and the entry is accepted: it is the
      first of the first-accepted entries. */
  lemma {:induction false} NewRecordAccepted(st: State, es: seq<FeedEntry>, cutoff: Moment, kw: Keywords, i: nat)
    requires Valid(st) && es != [] && es[0].link !in st.processed && Accepted(es[0], cutoff, kw)
    requires i < |FirstAccepted(es, st.processed, cutoff, kw)|
    ensures var st' := ProcessAll(st, es, cutoff, kw); var e := FirstAccepted(es, st.processed, cutoff, kw)[i];
      e.link in st'.entries && st'.entries[e.link] == Record(e)
    decreases |es|, 0
  {
    var e := es[0];
    var st1 := Consider(st, e, cutoff, kw);
    ConsiderValid(st, e, cutoff, kw);
    var rest := FirstAccepted(es[1..], st1.processed, cutoff, kw);
    var fa := FirstAccepted(es, st.processed, cutoff, kw);
    assert fa == [e] + rest;
    if i == 0 {
      assert fa[i] == e;
      assert st1.entries == st.entries[e.link := Record(e)];
      RecordKept(st1, es[1..], cutoff, kw, e.link);
    } else {
      assert fa[i] == rest[i - 1];
      NewRecord(st1, es[1..], cutoff, kw, i - 1);
    }
  }

  /** The first entry's link is new and the entry is rejected: it is only
      marked as looked at. */
  lemma {:induction false} NewRecordRejected(st: State, es: seq<FeedEntry>, cutoff: Moment, kw: Keywords, i: nat)
    requires Valid(st) && es != [] && es[0].link !in st.processed && !Accepted(es[0], cutoff, kw)
    requires i < |FirstAccepted(es, st.processed, cutoff, kw)|
    ensures var st' := ProcessAll(st, es, cutoff, kw); var e := FirstAccepted(es, st.processed, cutoff, kw)[i];
      e.link in st'.entries && st'.entries[e.link] == Record(e)
    decreases |es|, 0
  {
    var st1 := Consider(st, es[0], cutoff, kw);
    ConsiderValid(st, es[0], cutoff, kw);
    assert FirstAccepted(es, st.processed, cutoff, kw) == [] + FirstAccepted(es[1..], st1.processed, cutoff, kw);
    NewRecord(st1, es[1..], cutoff, kw, i);
  }



  /** From the empty state, the keys are the first-accepted links and the
      values their records, in that order. */
  lemma {:induction false} FromScratch(es: seq<FeedEntry>, cutoff: Moment, kw: Keywords)
    ensures var st := ProcessAll(Initial, es, cutoff, kw); var fa := FirstAccepted(es, {}, cutoff, kw);
      && Valid(st) && st.order == Links(fa) && Values(st) == Records(fa)
  {
    var st := ProcessAll(Initial, es, cutoff, kw);
    var fa := FirstAccepted(es, {}, cutoff, kw);
    ProcessAllValid(Initial, es, cutoff, kw);
    OrderFollowsFirstAcceptance(Initial, es, cutoff, kw);
    assert [] + Links(fa) == Links(fa);
    ValuesOfOrder(st, fa);
  }

  /** The values of `entries` once its keys are the links of `fa`, each
      holding the record of its entry. */
  lemma {:induction false} ValuesOfOrder(st: State, fa: seq<FeedEntry>)
    requires Valid(st)
    requires st.order == Links(fa)
    requires forall i :: 0 <= i < |fa| ==> fa[i].link in st.entries && st.entries[fa[i].link] == Record(fa[i])
    ensures Values(st) == Records(fa)
  {
    LinksAt(fa);
    RecordsAt(fa);
  }

  lemma {:induction false} LinksAt(es: seq<FeedEntry>)
    ensures |Links(es)| == |es|
    ensures forall i :: 0 <= i < |es| ==> Links(es)[i] == es[i].link
    decreases |es|
  {
    if es != [] {
      LinksAt(es[1..]);
    }
  }

  lemma {:induction false} RecordsAt(es: seq<FeedEntry>)
    ensures |Records(es)| == |es|
    ensures forall i :: 0 <= i < |es| ==> Records(es)[i] == Record(es[i])
    decreases |es|
  {
    if es != [] {
      var tail := es[1..];
      RecordsAt(tail);
      var rs := Records(es);
      assert rs == [Record(es[0])] + Records(tail);
      forall i | 0 <= i < |es| ensures rs[i] == Record(es[i]) {
        if i > 0 {
          assert rs[i] == Records(tail)[i - 1] && es[i] == tail[i - 1];
        }
      }
    }
  }

  /** The printed count `len(entries)` is the number of records written. */
  lemma {:induction false} CountIsKeys(st: State)
    requires Valid(st)
    ensures |st.entries| == |Values(st)|
  {
    var keys := set l | l in st.order;
    assert st.entries.Keys == keys;
    DistinctCard(st.order);
  }

  lemma {:induction false} DistinctCard(s: seq<string>)
    requires forall i, j :: 0 <= i < j < |s| ==> s[i] != s[j]
    ensures |set l | l in s| == |s|
    decreases |s|
  {
    if s != [] {
      var init := s[..|s| - 1];
      DistinctCard(init);
      var last := s[|s| - 1];
      assert (set l | l in s) == (set l | l in init) + {last};
      assert last !in (set l | l in init);
    }
  }

  // ---------------------------------------------------------------------
  // Paging

  /** What the pages of one keyword hold, the `start` of every request, and
      whether paging reached an empty page (rather than the model's bound
      on the number of requests). */
  datatype Fetch = Fetch(entries: seq<FeedEntry>, offsets: seq<int>, exhausted: bool)

  function Pages(feed: Feed, keyword: string, batch: int, offset: int, fuel: nat): (f: Fetch)
    ensures |f.offsets| <= fuel
    ensures !f.exhausted ==> |f.offsets| == fuel
    decreases fuel
  {
    if fuel == 0 then Fetch([], [], false)
    else
      var page := feed(keyword, offset, batch);
      if page == [] then Fetch([], [offset], true)
      else
        var rest := Pages(feed, keyword, batch, offset + batch, fuel - 1);
        Fetch(page + rest.entries, [offset] + rest.offsets, rest.exhausted)
  }

  /** Requests are made at offset 0, then `batch` further each time; every
      request but the last got a non-empty page, and paging ends only on an
      empty page. */
  lemma {:induction false} PagingShape(feed: Feed, keyword: string, batch: int, offset: int, fuel: nat)
    ensures var f := Pages(feed, keyword, batch, offset, fuel);
      && (|f.offsets| > 0 ==> f.offsets[0] == offset)
      && (forall i :: 0 <= i < |f.offsets| - 1 ==> f.offsets[i + 1] == f.offsets[i] + batch)
      && (forall i :: 0 <= i < |f.offsets| - 1 ==> feed(keyword, f.offsets[i], batch) != [])
      && (f.exhausted ==> feed(keyword, f.offsets[|f.offsets| - 1], batch) == [])
  {
    OffsetsSpaced(feed, keyword, batch, offset, fuel);
    PagesUntilEmpty(feed, keyword, batch, offset, fuel);
  }

  lemma {:induction false} OffsetsSpaced(feed: Feed, keyword: string, batch: int, offset: int, fuel: nat)
    ensures var f := Pages(feed, keyword, batch, offset, fuel);
      && (|f.offsets| > 0 ==> f.offsets[0] == offset)
      && (forall i :: 0 <= i < |f.offsets| - 1 ==> f.offsets[i + 1] == f.offsets[i] + batch)
    decreases fuel
  {
    if fuel > 0 && feed(keyword, offset, batch) != [] {
      var f := Pages(feed, keyword, batch, offset, fuel);
      var rest := Pages(feed, keyword, batch, offset + batch, fuel - 1);
      OffsetsSpaced(feed, keyword, batch, offset + batch, fuel - 1);
      assert f.offsets == [offset] + rest.offsets;
      forall i | 1 <= i < |f.offsets| - 1
        ensures f.offsets[i + 1] == f.offsets[i] + batch
      {
        assert f.offsets[i + 1] == rest.offsets[i] && f.offsets[i] == rest.offsets[i - 1];
      }
    }
  }

  lemma {:induction false} PagesUntilEmpty(feed: Feed, keyword: string, batch: int, offset: int, fuel: nat)
    ensures var f := Pages(feed, keyword, batch, offset, fuel);
      && (forall i :: 0 <= i < |f.offsets| - 1 ==> feed(keyword, f.offsets[i], batch) != [])
      && (f.exhausted ==> feed(keyword, f.offsets[|f.offsets| - 1], batch) == [])
    decreases fuel
  {
    if fuel > 0 && feed(keyword, offset, batch) != [] {
      var f := Pages(feed, keyword, batch, offset, fuel);
      var rest := Pages(feed, keyword, batch, offset + batch, fuel - 1);
      PagesUntilEmpty(feed, keyword, batch, offset + batch, fuel - 1);
      assert f.offsets == [offset] + rest.offsets && f.exhausted == rest.exhausted;
      forall i | 1 <= i < |f.offsets| - 1
        ensures feed(keyword, f.offsets[i], batch) != []
      {
        assert f.offsets[i] == rest.offsets[i - 1];
      }
      if f.exhausted {
        assert f.offsets[|f.offsets| - 1] == rest.offsets[|rest.offsets| - 1];
      }
    }
  }

  /** Every entry the feed returned for the keywords, keyword after keyword. */
  function AllFetched(keywords: seq<string>, feed: Feed, batch: int, fuel: nat): seq<FeedEntry>
    decreases |keywords|
  {
    if keywords == [] then []
    else
      AllFetched(keywords[..|keywords| - 1], feed, batch, fuel)
        + Pages(feed, keywords[|keywords| - 1], batch, 0, fuel).entries
  }

  // ---------------------------------------------------------------------
  // The whole script

  datatype Flags = Flags(help: bool, daysBeforeToday: Option<int>, batchSize: Option<int>)

  function FlagList(f: Flags): seq<(string, bool)> {
    [("--days_before_today", f.daysBeforeToday.Some?), ("--batch_size", f.batchSize.Some?)]
  }

  const KeywordsPath := "../config/arXiv_keywords.txt"

  datatype Outcome =
    | HelpShown
    | Aborted(errors: seq<StartupError>)
    | Finished(state: State, output: Output)

  function RunSpec(flags: Flags, file: Option<Ini>, feed: Feed, cutoff: Moment, fuel: nat): Outcome {
    if flags.help then HelpShown
    else
      var loaded := Loaded(file, false);
      var flagErrors := FlagErrors(FlagList(flags));
      var errors := flagErrors + KeywordFileErrors(KeywordsPath, loaded);
      if errors != [] then Aborted(errors)
      else
        assert flagErrors == [] && FlagList(flags)[1].1;
        var kw := loaded.value;
        var all := AllFetched(kw.keywords, feed, flags.batchSize.value, fuel);
        var st := ProcessAll(Initial, all, cutoff, kw);
        ProcessAllValid(Initial, all, cutoff, kw);
        Finished(st, WriteEntries(Values(st)))
  }

  /** The body of `for entry in response.entries` for one entry. */
  method ConsiderEntry(processed: set<string>, entries: map<string, string>, order: seq<string>,
                       e: FeedEntry, cutoff: Moment, kw: Keywords)
    returns (processed': set<string>, entries': map<string, string>, order': seq<string>)
    ensures State(processed', entries', order') == Consider(State(processed, entries, order), e, cutoff, kw)
  {
    processed', entries', order' := processed, entries, order;
    if e.link in processed {
      return;
    }
    processed' := processed + {e.link};
    if !Earlier(e.published, cutoff) {
      var combined := e.title + " " + e.summary;
      if !AnyIn(combined, kw.exclude) {
        var score := Score(combined, kw.required);
        if kw.required == [] || score > 0 {
          if e.link !in entries {
            order' := order + [e.link];
          }
          entries' := entries[e.link := Unlines(RecordLines(e) + [""])];
        }
      }
    }
  }

  /** The `for entry in response.entries` loop over one page. */
  method ProcessPage(st0: State, page: seq<FeedEntry>, cutoff: Moment, kw: Keywords) returns (st: State)
    ensures st == ProcessAll(st0, page, cutoff, kw)
  {
    var processed, entries, order := st0.processed, st0.entries, st0.order;
    for j := 0 to |page|
      invariant ProcessAll(st0, page, cutoff, kw) ==
                ProcessAll(State(processed, entries, order), page[j..], cutoff, kw)
    {
      assert page[j..][1..] == page[j + 1..];
      processed, entries, order := ConsiderEntry(processed, entries, order, page[j], cutoff, kw);
    }
    st := State(processed, entries, order);
  }

  /** The `while True` loop of one keyword, from offset 0. */
  method HarvestKeyword(st0: State, feed: Feed, keyword: string, batch: int, cutoff: Moment,
                        kw: Keywords, fuel: nat)
    returns (st: State)
    ensures st == ProcessAll(st0, Pages(feed, keyword, batch, 0, fuel).entries, cutoff, kw)
  {
    st := st0;
    ghost var seen: seq<FeedEntry> := [];
    var offset := 0;
    var left := fuel;
    while true
      invariant Pages(feed, keyword, batch, 0, fuel).entries ==
                seen + Pages(feed, keyword, batch, offset, left).entries
      invariant st == ProcessAll(st0, seen, cutoff, kw)
      decreases left
    {
      if left == 0 {
        break;
      }
      var page := feed(keyword, offset, batch);
      if page == [] {
        break;
      }
      st := ProcessPage(st, page, cutoff, kw);
      ProcessAllAppend(st0, seen, page, cutoff, kw);
      SeqAssoc(seen, page, Pages(feed, keyword, batch, offset + batch, left - 1).entries);
      seen := seen + page;
      offset := offset + batch;
      left := left - 1;
    }
    assert seen + [] == seen;
  }

  method Run(flags: Flags, file: Option<Ini>, feed: Feed, cutoff: Moment, fuel: nat) returns (o: Outcome)
    ensures o == RunSpec(flags, file, feed, cutoff, fuel)
  {
    if flags.help {
      return HelpShown;
    }
    var loaded := LoadKeywords(file, false);
    var errors := StartupErrors(FlagList(flags), KeywordsPath, loaded);
    if errors != [] {
      return Aborted(errors);
    }
    var kw := loaded.value;
    var st := HarvestAll(kw, feed, flags.batchSize.value, cutoff, fuel);
    ProcessAllValid(Initial, AllFetched(kw.keywords, feed, flags.batchSize.value, fuel), cutoff, kw);
    o := Finished(st, WriteEntries(Values(st)));
  }

  /** The `for keyword in keywords` loop: every keyword's pages go through
      the same `processed_links` and `entries`. */
  method HarvestAll(kw: Keywords, feed: Feed, batch: int, cutoff: Moment, fuel: nat) returns (st: State)
    ensures st == ProcessAll(Initial, AllFetched(kw.keywords, feed, batch, fuel), cutoff, kw)
  {
    st := Initial;
    for k := 0 to |kw.keywords|
      invariant st == ProcessAll(Initial, AllFetched(kw.keywords[..k], feed, batch, fuel), cutoff, kw)
    {
      ghost var before := AllFetched(kw.keywords[..k], feed, batch, fuel);
      ghost var page := Pages(feed, kw.keywords[k], batch, 0, fuel).entries;
      assert kw.keywords[..k + 1][..k] == kw.keywords[..k];
      assert AllFetched(kw.keywords[..k + 1], feed, batch, fuel) == before + page;
      st := HarvestKeyword(st, feed, kw.keywords[k], batch, cutoff, kw, fuel);
      ProcessAllAppend(Initial, before, page, cutoff, kw);
    }
    assert kw.keywords[..|kw.keywords|] == kw.keywords;
  }

  /** Without `--help`, the run stops with exit code 1 before any request
      exactly when a flag is missing, the keyword file is missing, or it
      lists no keywords. */
  lemma {:induction false} AbortIff(flags: Flags, file: Option<Ini>, feed: Feed, cutoff: Moment, fuel: nat)
    requires !flags.help
    ensures RunSpec(flags, file, feed, cutoff, fuel).Aborted? <==>
      flags.daysBeforeToday.None? || flags.batchSize.None? ||
      file.None? || Section(file.value, "keywords") == []
  {
    var fl := FlagList(flags);
    if flags.daysBeforeToday.None? { assert !fl[0].1; }
    if flags.batchSize.None? { assert !fl[1].1; }
  }

  /** A finished run writes one record per key of `entries`, keyed by link,
      each the record of that link's first sighting in the run, and prints
      the number of keys. */
  lemma {:induction false} RunWritesOncePerLink(flags: Flags, file: Option<Ini>, feed: Feed, cutoff: Moment, fuel: nat,
                             link: string)
    requires RunSpec(flags, file, feed, cutoff, fuel).Finished?
    ensures var o := RunSpec(flags, file, feed, cutoff, fuel);
      var all := AllFetched(Loaded(file, false).value.keywords, feed, flags.batchSize.value, fuel);
      var n := FirstIndex(all, link);
      && Valid(o.state)
      && (link in o.state.entries <==> n < |all| && Accepted(all[n], cutoff, Loaded(file, false).value))
      && (link in o.state.entries ==> o.state.entries[link] == Record(all[n]))
      && (o.output.Written? ==> o.output.count == |o.state.entries|)
  {
    var o := RunSpec(flags, file, feed, cutoff, fuel);
    var kw := Loaded(file, false).value;
    var all := AllFetched(kw.keywords, feed, flags.batchSize.value, fuel);
    FirstOccurrenceDecides(Initial, all, cutoff, kw, link);
    CountIsKeys(o.state);
  }

  /** A finished run writes, in this order, the record of every entry that
      was accepted at the first sighting of its link, in the order the
      entries were fetched (keyword after keyword, page after page): the
      insertion order of `entries` that `entries.values()` follows. */
  lemma {:induction false} RunWritesInAcceptanceOrder(flags: Flags, file: Option<Ini>, feed: Feed, cutoff: Moment,
                                                      fuel: nat)
    requires RunSpec(flags, file, feed, cutoff, fuel).Finished?
    ensures var o := RunSpec(flags, file, feed, cutoff, fuel);
      var kw := Loaded(file, false).value;
      var fa := FirstAccepted(AllFetched(kw.keywords, feed, flags.batchSize.value, fuel), {}, cutoff, kw);
      && o.state.order == Links(fa)
      && o.output == WriteEntries(Records(fa))
  {
    var kw := Loaded(file, false).value;
    FromScratch(AllFetched(kw.keywords, feed, flags.batchSize.value, fuel), cutoff, kw);
  }
}
