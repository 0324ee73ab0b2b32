// How the records the three retrieval scripts write read back in
// bin/summarise_papers.py: one record block gives one entry holding the
// block's title, its parsed date and its URL, and a whole output file gives
// the entries of its records in file order.
module Consolidation {
  import opened Wrappers
  import opened Text
  import opened Dates
  import opened Retrieval
  import opened Summarise
  import ArXiv
  import BioRxiv
  import PubMed

  /** A field value the parser hands back unchanged: on one line, without
      surrounding blanks. */
  predicate Clean(s: string) {
    NoNewline(s) && IsStripped(s)
  }

  /** Every line of `text`, once stripped, is one the parser skips. A last
      field that may span several lines (an abstract) must be like this: no
      blank line inside it and no line starting with a field label. */
  predicate Skipped(text: string) {
    var ls := StripAll(Lines(text + "\n"));
    forall i :: 0 <= i < |ls| ==> Ignored(ls[i])
  }

  /** The lines before the last field of a record block. */
  function Front(t: string, d: string, u: string, g1: seq<string>, g2: seq<string>): seq<string> {
    ["Title: " + t] + g1 + ["Date: " + d] + g2 + ["URL: " + u]
  }

  /** The lines between the field lines hold no line break and are skipped
      once stripped. */
  predicate Others(g: seq<string>) {
    forall i :: 0 <= i < |g| ==> NoNewline(g[i]) && Ignored(Strip(g[i]))
  }

  lemma {:induction false} FrontOnOneLine(t: string, d: string, u: string, g1: seq<string>, g2: seq<string>)
    requires NoNewline(t) && NoNewline(d) && NoNewline(u)
    requires forall i :: 0 <= i < |g1| ==> NoNewline(g1[i])
    requires forall i :: 0 <= i < |g2| ==> NoNewline(g2[i])
    ensures forall i :: 0 <= i < |Front(t, d, u, g1, g2)| ==> NoNewline(Front(t, d, u, g1, g2)[i])
  {
    LabelsOnOneLine();
    LabelledNoNewline("Title: ", t);
    LabelledNoNewline("Date: ", d);
    LabelledNoNewline("URL: ", u);
    var a := ["Title: " + t] + g1;
    var b := a + ["Date: " + d] + g2;
    assert forall i :: 0 <= i < |a| ==> NoNewline(a[i]);
    assert forall i :: 0 <= i < |b| ==> NoNewline(b[i]);
  }

  /** The stripped lines of a record block: the stripped lines before the
      last field, the stripped lines of the last field, and the blank line. */
  lemma {:induction false} StrippedRecord(t: string, d: string, u: string, g1: seq<string>, g2: seq<string>,
                                          last: string)
    requires NoNewline(t) && NoNewline(d) && NoNewline(u)
    requires forall i :: 0 <= i < |g1| ==> NoNewline(g1[i])
    requires forall i :: 0 <= i < |g2| ==> NoNewline(g2[i])
    ensures StripAll(Lines(Unlines(Front(t, d, u, g1, g2) + [last, ""])))
         == StripAll(Front(t, d, u, g1, g2)) + StripAll(Lines(last + "\n")) + [""]
  {
    var front := Front(t, d, u, g1, g2);
    FrontOnOneLine(t, d, u, g1, g2);
    LinesOfBlock(front, last);
    StripBlock(front, Lines(last + "\n"));
  }

  lemma {:induction false} StripBlock(front: seq<string>, body: seq<string>)
    ensures StripAll(front + body + [""]) == StripAll(front) + StripAll(body) + [""]
  {
    assert Strip("") == "";
    StripAllAppend(front + body, [""]);
    StripAllAppend(front, body);
  }

  /** The stripped lines before the last field. */
  lemma {:induction false} StripFront(t: string, d: string, u: string, g1: seq<string>, g2: seq<string>)
    ensures StripAll(Front(t, d, u, g1, g2))
         == [Strip("Title: " + t)] + StripAll(g1) + [Strip("Date: " + d)] + StripAll(g2) + [Strip("URL: " + u)]
  {
    var a := ["Title: " + t] + g1;
    var b := a + ["Date: " + d];
    var c := b + g2;
    StripAllAppend(["Title: " + t], g1);
    StripAllAppend(a, ["Date: " + d]);
    StripAllAppend(b, g2);
    StripAllAppend(c, ["URL: " + u]);
  }

  /** A record block — the Title line, lines the parser skips, the Date
      line, more skipped lines, the URL line, a last field whose lines are
      all skipped, and the blank line — reads back as the one entry with
      that title, the date parsed from the Date line's text, and that URL. */
  lemma {:induction false} RecordReadsBack(t: string, d: string, u: string, g1: seq<string>, g2: seq<string>,
                                           last: string)
    requires Clean(t) && Clean(d) && Clean(u)
    requires Others(g1) && Others(g2) && Skipped(last)
    ensures Block(Unlines(Front(t, d, u, g1, g2) + [last, ""]), Entry(t, ParseIso(d), u))
  {
    StrippedRecord(t, d, u, g1, g2, last);
    StripFront(t, d, u, g1, g2);
    var lt, ld, lu := Strip("Title: " + t), Strip("Date: " + d), Strip("URL: " + u);
    FieldLines(t, d, u);
    var s1, s2, s3 := StripAll(g1), StripAll(g2), StripAll(Lines(last + "\n"));
    OthersStripped(g1);
    OthersStripped(g2);
    BlockParses([], lt, ld, lu, s1, s2, s3);
    assert [] + [Entry(t, ParseIso(d), u)] == [Entry(t, ParseIso(d), u)];
  }

  /** The Title, Date and URL lines, stripped, carry their label and give
      back the value after it. */
  lemma {:induction false} FieldLines(t: string, d: string, u: string)
    requires IsStripped(t) && IsStripped(d) && IsStripped(u)
    ensures "Title:" <= Strip("Title: " + t) && Drop(Strip("Title: " + t), 7) == t
    ensures "Date:" <= Strip("Date: " + d) && Drop(Strip("Date: " + d), 6) == d
    ensures "URL:" <= Strip("URL: " + u) && Drop(Strip("URL: " + u), 5) == u
  {
    FieldLine("Title: ", t);
    FieldLine("Date: ", d);
    FieldLine("URL: ", u);
    assert "Title: "[..6] == "Title:" && "Date: "[..5] == "Date:" && "URL: "[..4] == "URL:";
  }

  lemma {:induction false} OthersStripped(g: seq<string>)
    requires Others(g)
    ensures forall i :: 0 <= i < |StripAll(g)| ==> Ignored(StripAll(g)[i])
  {
  }

  /** A labelled line of a field the parser does not read, followed by
      anything on the same line, is skipped. */
  lemma {:induction false} OtherLine(tag: string, value: string)
    requires tag in ["Authors: ", "Journal: ", "DOI: ", "Abstract: "]
    requires NoNewline(value)
    ensures NoNewline(tag + value) && Ignored(Strip(tag + value))
  {
    LabelsOnOneLine();
    LabelledNoNewline(tag, value);
    var bare := tag[..|tag| - 1];
    if tag == "Authors: " {
      assert bare == "Authors:";
    } else if tag == "Journal: " {
      assert bare == "Journal:";
    } else if tag == "DOI: " {
      assert bare == "DOI:";
    } else {
      assert bare == "Abstract:";
    }
    assert tag + value == bare + (" " + value);
    OtherLabelIgnored(bare, " " + value);
  }

  /** A last field on a single line that starts with such a label is
      skipped: an abstract without line breaks never disturbs the parse. */
  lemma {:induction false} OneLineSkipped(tag: string, value: string)
    requires tag in ["Authors: ", "Journal: ", "DOI: ", "Abstract: "]
    requires NoNewline(value)
    ensures Skipped(tag + value)
  {
    OtherLine(tag, value);
    LinesCons(tag + value, "");
    assert tag + value + "\n" + "" == tag + value + "\n";
    assert Lines("") == [];
    assert StripAll(Lines(tag + value + "\n")) == [Strip(tag + value)];
  }

  // ---------------------------------------------------------------------
  // arXiv

  /** What an arXiv entry meets for its record to read back: a link and
      author names without line breaks or surrounding blanks (the title is
      cleaned by the formatter), and an abstract the parser skips. */
  predicate ArxivFit(e: ArXiv.FeedEntry) {
    Clean(e.link) && NoNewline(Join(e.authors, ", ")) && Skipped("Abstract: " + e.summary)
  }

  function ArxivEntry(e: ArXiv.FeedEntry): Entry {
    Entry(ArXiv.CleanTitle(e.title), Some(e.published.date), e.link)
  }

  /** A record `arXiv_retrieve.py` writes reads back as the cleaned title,
      the publication day and the link. */
  lemma {:induction false} ArxivRecordReadsBack(e: ArXiv.FeedEntry)
    requires ArxivFit(e)
    ensures Block(ArXiv.Record(e), ArxivEntry(e))
  {
    var t, d := ArXiv.CleanTitle(e.title), FormatIso(e.published.date);
    var authors := "Authors: " + Join(e.authors, ", ");
    OtherLine("Authors: ", Join(e.authors, ", "));
    DateTextClean(e.published.date);
    ParseFormatIso(e.published.date);
    FiveLines(t, authors, d, e.link, "Abstract: " + e.summary);
    RecordReadsBack(t, d, e.link, [authors], [], "Abstract: " + e.summary);
  }

  /** The layout of an arXiv record: one skipped line between the title
      and the date. */
  lemma {:induction false} FiveLines(t: string, x: string, d: string, u: string, last: string)
    ensures ["Title: " + t, x, "Date: " + d, "URL: " + u, last] + [""]
         == Front(t, d, u, [x], []) + [last, ""]
  {
  }

  /** A printed date is on one line and has no blanks. */
  lemma {:induction false} DateTextClean(d: CalendarDate)
    ensures Clean(FormatIso(d))
  {
    var s := FormatIso(d);
    assert !IsSpace(s[0]) && !IsSpace(s[|s| - 1]);
    assert forall k :: 0 <= k < |s| ==> s[k] != '\n' by {
      assert forall k :: 0 <= k < |s| ==> !IsSpace(s[k]);
    }
  }

  /** The arXiv output file — the records one after the other — reads back
      as their entries, in the order they were written. */
  lemma {:induction false} ArxivFileReadsBack(es: seq<ArXiv.FeedEntry>)
    requires forall i :: 0 <= i < |es| ==> ArxivFit(es[i])
    ensures var records := seq(|es|, i requires 0 <= i < |es| => ArXiv.Record(es[i]));
      Extracted(Some(Concat(records))) == seq(|es|, i requires 0 <= i < |es| => ArxivEntry(es[i]))
  {
    var records := seq(|es|, i requires 0 <= i < |es| => ArXiv.Record(es[i]));
    var entries := seq(|es|, i requires 0 <= i < |es| => ArxivEntry(es[i]));
    forall i | 0 <= i < |es| ensures Block(records[i], entries[i]) {
      ArxivRecordReadsBack(es[i]);
    }
    ConcatExtracted(records, entries);
  }

  // ---------------------------------------------------------------------
  // bioRxiv

  /** What a bioRxiv item meets for its record to read back. */
  predicate BioRxivFit(item: BioRxiv.Item) {
    && Clean(item.title) && Clean(item.date) && Clean(item.doi)
    && NoNewline(BioRxiv.AuthorsText(item.authors))
    && Skipped("Abstract: " + item.abstractText)
  }

  function BioRxivEntry(item: BioRxiv.Item): Entry {
    Entry(item.title, ParseIso(item.date), "https://doi.org/" + item.doi)
  }

  /** A record `bioRxiv_retrieve.py` writes reads back as the title, the
      date text parsed, and the DOI link; the Authors and DOI lines are
      skipped. */
  lemma {:induction false} BioRxivRecordReadsBack(item: BioRxiv.Item)
    requires BioRxivFit(item)
    ensures Block(BioRxiv.Record(item), BioRxivEntry(item))
  {
    var u := "https://doi.org/" + item.doi;
    var authors := "Authors: " + BioRxiv.AuthorsText(item.authors);
    var doi := "DOI: " + item.doi;
    OtherLine("Authors: ", BioRxiv.AuthorsText(item.authors));
    OtherLine("DOI: ", item.doi);
    DoiLinkClean(item.doi);
    BioRxivLines(item);
    RecordReadsBack(item.title, item.date, u, [authors], [doi], "Abstract: " + item.abstractText);
  }

  lemma {:induction false} BioRxivLines(item: BioRxiv.Item)
    ensures BioRxiv.RecordLines(item) + [""]
         == Front(item.title, item.date, "https://doi.org/" + item.doi,
                  ["Authors: " + BioRxiv.AuthorsText(item.authors)], ["DOI: " + item.doi])
            + ["Abstract: " + item.abstractText, ""]
  {
    assert "URL: https://doi.org/" + item.doi == "URL: " + ("https://doi.org/" + item.doi);
  }

  lemma {:induction false} DoiLinkClean(doi: string)
    requires Clean(doi)
    ensures Clean("https://doi.org/" + doi)
  {
    var u := "https://doi.org/" + doi;
    assert '\n' !in "https://doi.org/";
    LabelledNoNewline("https://doi.org/", doi);
    assert u[0] == 'h';
    if doi == [] {
      assert u[|u| - 1] == '/';
    } else {
      assert u[|u| - 1] == doi[|doi| - 1];
    }
  }

  // ---------------------------------------------------------------------
  // PubMed

  /** What a PubMed article meets for its record to read back. */
  predicate PubMedFit(a: PubMed.Article) {
    && Clean(PubMed.TitleOf(a)) && Clean(PubMed.DateString(a.pubDate))
    && Clean(PubMed.FullTextUrl(PubMed.DoiOf(a.elocations)))
    && NoNewline(PubMed.AuthorsLine(a.authors)) && NoNewline(a.journalTitle)
    && Skipped("Abstract: " + PubMed.AbstractOf(a))
  }

  function PubMedEntry(a: PubMed.Article): Entry {
    Entry(PubMed.TitleOf(a), ParseIso(PubMed.DateString(a.pubDate)),
          PubMed.FullTextUrl(PubMed.DoiOf(a.elocations)))
  }

  /** A record `PubMed_retrieve.py` writes reads back as the title, the
      date text parsed (no date for "Unknown Date"), and the full-text link
      or its placeholder; the Authors and Journal lines are skipped. */
  lemma {:induction false} PubMedRecordReadsBack(a: PubMed.Article)
    requires PubMedFit(a)
    ensures Block(PubMed.Record(a), PubMedEntry(a))
  {
    var t, d := PubMed.TitleOf(a), PubMed.DateString(a.pubDate);
    var u := PubMed.FullTextUrl(PubMed.DoiOf(a.elocations));
    var journal := Capitalize(Lower(a.journalTitle));
    var authors := "Authors: " + PubMed.AuthorsLine(a.authors);
    OtherLine("Authors: ", PubMed.AuthorsLine(a.authors));
    PubMed.CapitalizeNoNewline(a.journalTitle);
    OtherLine("Journal: ", journal);
    var g1 := [authors, "Journal: " + journal];
    PairOthers(authors, "Journal: " + journal);
    PubMedLines(a);
    RecordReadsBack(t, d, u, g1, [], "Abstract: " + PubMed.AbstractOf(a));
  }

  lemma {:induction false} PubMedLines(a: PubMed.Article)
    ensures PubMed.RecordLinesWith(a, PubMed.DoiOf(a.elocations)) + [""]
         == Front(PubMed.TitleOf(a), PubMed.DateString(a.pubDate), PubMed.FullTextUrl(PubMed.DoiOf(a.elocations)),
                  ["Authors: " + PubMed.AuthorsLine(a.authors), "Journal: " + Capitalize(Lower(a.journalTitle))], [])
            + ["Abstract: " + PubMed.AbstractOf(a), ""]
  {
    SixLines(PubMed.TitleOf(a), "Authors: " + PubMed.AuthorsLine(a.authors),
             "Journal: " + Capitalize(Lower(a.journalTitle)), PubMed.DateString(a.pubDate),
             PubMed.FullTextUrl(PubMed.DoiOf(a.elocations)), "Abstract: " + PubMed.AbstractOf(a));
  }

  /** The layout of a PubMed record: two skipped lines between the title
      and the date. */
  lemma {:induction false} SixLines(t: string, x: string, y: string, d: string, u: string, last: string)
    ensures ["Title: " + t, x, y, "Date: " + d, "URL: " + u, last] + [""]
         == Front(t, d, u, [x, y], []) + [last, ""]
  {
  }

  lemma {:induction false} PairOthers(x: string, y: string)
    requires NoNewline(x) && Ignored(Strip(x)) && NoNewline(y) && Ignored(Strip(y))
    ensures Others([x, y])
  {
  }

  /** An article without a year is read back without a date, and the
      summariser still keeps it. */
  lemma {:induction false} UndatedArticleKept(a: PubMed.Article)
    requires PubMedFit(a) && a.pubDate.year.None?
    ensures Extracted(Some(PubMed.Record(a))) == [Entry(PubMed.TitleOf(a), None, PubMed.FullTextUrl(PubMed.DoiOf(a.elocations)))]
  {
    PubMedRecordReadsBack(a);
    UnknownDateIsNotADate();
    assert PubMed.DateString(a.pubDate) == PubMed.UnknownDate;
  }
}
