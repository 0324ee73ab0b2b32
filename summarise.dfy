// bin/summarise_papers.py: read the three retrieval outputs, keep the title,
// date and URL of every complete record, sort them newest first and write
// "title, URL, blank line" per record.
//
// A file is its text, or `None` when it does not exist.
module Summarise {
  import opened Wrappers
  import opened Text
  import opened Dates
  import opened Retrieval

  // ---------------------------------------------------------------------
  // extract_entries

  /** The `entry` dictionary while a record is being read: each key is
      absent or holds its value. A date that does not parse is stored as
      `None`, which still counts as present. */
  datatype Fields = Fields(title: Option<string>, date: Option<Option<Date>>, url: Option<string>)

  const NoFields := Fields(None, None, None)

  /** A record handed on: title, date (`None` when unparseable), URL. */
  datatype Entry = Entry(title: string, date: Option<Date>, url: string)

  datatype Parser = Parser(fields: Fields, entries: seq<Entry>)

  const Fresh := Parser(NoFields, [])

  predicate Complete(f: Fields) {
    f.title.Some? && f.date.Some? && f.url.Some?
  }

  function ToEntry(f: Fields): Entry
    requires Complete(f)
  {
    Entry(f.title.value, f.date.value, f.url.value)
  }

  /** `line[n:]` */
  function Drop(s: string, n: nat): string {
    if |s| <= n then [] else s[n..]
  }

  /** One pass of the loop body, on the line after `line.strip()`. */
  function Step(p: Parser, line: string): Parser {
    if "Title:" <= line then Parser(p.fields.(title := Some(Drop(line, 7))), p.entries)
    else if "Date:" <= line then Parser(p.fields.(date := Some(ParseIso(Drop(line, 6)))), p.entries)
    else if "URL:" <= line then Parser(p.fields.(url := Some(Drop(line, 5))), p.entries)
    else if line == "" then
      Parser(NoFields, p.entries + (if Complete(p.fields) then [ToEntry(p.fields)] else []))
    else p
  }

  /** The stripped lines in file order. */
  function Run(p: Parser, lines: seq<string>): Parser
    decreases |lines|
  {
    if lines == [] then p else Run(Step(p, lines[0]), lines[1..])
  }

  /** Every line stripped. */
  function StripAll(ls: seq<string>): (r: seq<string>)
    ensures |r| == |ls|
    ensures forall i :: 0 <= i < |ls| ==> r[i] == Strip(ls[i])
  {
    seq(|ls|, i requires 0 <= i < |ls| => Strip(ls[i]))
  }

  lemma {:induction false} StripAllAppend(a: seq<string>, b: seq<string>)
    ensures StripAll(a + b) == StripAll(a) + StripAll(b)
  {
  }

  /** What `extract_entries` returns for a file. */
  function Extracted(file: Option<string>): seq<Entry> {
    if file.None? then [] else Run(Fresh, StripAll(Lines(file.value))).entries
  }

  lemma {:induction false} RunAppend(p: Parser, a: seq<string>, b: seq<string>)
    ensures Run(p, a + b) == Run(Run(p, a), b)
    decreases |a|
  {
    if a == [] {
      assert a + b == b;
    } else {
      assert (a + b)[1..] == a[1..] + b;
      RunAppend(Step(p, a[0]), a[1..], b);
    }
  }

  /** Records already found are never changed or dropped: reading more lines
      only appends. */
  lemma {:induction false} RunKeepsEntries(fields: Fields, acc: seq<Entry>, lines: seq<string>)
    ensures var r := Run(Parser(fields, []), lines);
      Run(Parser(fields, acc), lines) == Parser(r.fields, acc + r.entries)
    decreases |lines|
  {
    if lines != [] {
      var p := Step(Parser(fields, acc), lines[0]);
      var q := Step(Parser(fields, []), lines[0]);
      assert p.fields == q.fields && p.entries == acc + q.entries;
      RunKeepsEntries(q.fields, acc + q.entries, lines[1..]);
      RunKeepsEntries(q.fields, q.entries, lines[1..]);
      var r := Run(Parser(q.fields, []), lines[1..]);
      SeqAssoc(acc, q.entries, r.entries);
    } else {
      assert acc + [] == acc;
    }
  }

  /** `extract_entries`: no entries for a missing file, otherwise those its
      stripped lines give. */
  method ExtractEntries(file: Option<string>) returns (entries: seq<Entry>)
    ensures entries == Extracted(file)
  {
    entries := [];
    if file.Some? {
      entries := ReadLines(StripAll(Lines(file.value)));
    }
  }

  /** The `for line in f` loop of `extract_entries`. */
  method ReadLines(lines: seq<string>) returns (entries: seq<Entry>)
    ensures entries == Run(Fresh, lines).entries
  {
    entries := [];
    var entry := NoFields;
    for i := 0 to |lines|
      invariant Run(Fresh, lines) == Run(Parser(entry, entries), lines[i..])
    {
      assert lines[i..] == [lines[i]] + lines[i + 1..];
      RunCons(Parser(entry, entries), lines[i], lines[i + 1..]);
      entry, entries := ReadLine(entry, entries, lines[i]);
    }
    assert lines[|lines|..] == [];
  }

  /** The body of that loop for one stripped line. */
  method ReadLine(entry: Fields, entries: seq<Entry>, line: string) returns (entry': Fields, entries': seq<Entry>)
    ensures Parser(entry', entries') == Step(Parser(entry, entries), line)
  {
    entry', entries' := entry, entries;
    if "Title:" <= line {
      entry' := entry.(title := Some(Drop(line, 7)));
    } else if "Date:" <= line {
      entry' := entry.(date := Some(ParseIso(Drop(line, 6))));
    } else if "URL:" <= line {
      entry' := entry.(url := Some(Drop(line, 5)));
    } else if line == "" {
      if entry.title.Some? && entry.date.Some? && entry.url.Some? {
        entries' := entries + [Entry(entry.title.value, entry.date.value, entry.url.value)];
      }
      entry' := NoFields;
    }
  }

  // ---------------------------------------------------------------------
  // What the parser reads back

  /** A stripped line the parser skips: it is not blank and starts with none
      of the three field labels. */
  predicate Ignored(line: string) {
    line != "" && !("Title:" <= line) && !("Date:" <= line) && !("URL:" <= line)
  }

  lemma {:induction false} RunIgnored(p: Parser, lines: seq<string>)
    requires forall i :: 0 <= i < |lines| ==> Ignored(lines[i])
    ensures Run(p, lines) == p
    decreases |lines|
  {
    if lines != [] {
      RunIgnored(p, lines[1..]);
    }
  }

  /** Skipped lines in front of others change nothing. */
  lemma {:induction false} RunIgnoredThen(p: Parser, g: seq<string>, rest: seq<string>)
    requires forall i :: 0 <= i < |g| ==> Ignored(g[i])
    ensures Run(p, g + rest) == Run(p, rest)
  {
    RunAppend(p, g, rest);
    RunIgnored(p, g);
  }

  /** Entries are handed on only at blank lines. */
  lemma {:induction false} EntriesOnlyAtBlank(p: Parser, lines: seq<string>)
    requires forall i :: 0 <= i < |lines| ==> lines[i] != ""
    ensures Run(p, lines).entries == p.entries
    decreases |lines|
  {
    if lines != [] {
      EntriesOnlyAtBlank(Step(p, lines[0]), lines[1..]);
    }
  }

  /** The field a label fills is still unset. */
  predicate Lacks(f: Fields, tag: string) {
    || (tag == "Title:" && f.title.None?)
    || (tag == "Date:" && f.date.None?)
    || (tag == "URL:" && f.url.None?)
  }

  lemma {:induction false} RunLacking(p: Parser, lines: seq<string>, tag: string)
    requires Lacks(p.fields, tag)
    requires forall i :: 0 <= i < |lines| ==> lines[i] != "" && !(tag <= lines[i])
    ensures Lacks(Run(p, lines).fields, tag) && Run(p, lines).entries == p.entries
    decreases |lines|
  {
    if lines != [] {
      RunLacking(Step(p, lines[0]), lines[1..], tag);
    }
  }

  /** A record without a title, a date or a URL line before its blank line
      is dropped, and the parser starts afresh after it. */
  lemma {:induction false} IncompleteRecordDropped(acc: seq<Entry>, lines: seq<string>, tag: string)
    requires tag in ["Title:", "Date:", "URL:"]
    requires forall i :: 0 <= i < |lines| ==> lines[i] != "" && !(tag <= lines[i])
    ensures Run(Parser(NoFields, acc), lines + [""]) == Parser(NoFields, acc)
  {
    var p := Parser(NoFields, acc);
    RunLacking(p, lines, tag);
    RunAppend(p, lines, [""]);
    var q := Run(p, lines);
    assert Run(q, [""]) == Step(q, "");
    assert !Complete(q.fields);
    assert acc + [] == acc;
  }

  /** A text that starts with a label whose ends are not blank keeps the
      label when stripped. */
  lemma {:induction false} StripKeepsLabel(tag: string, rest: string)
    requires tag != [] && !IsSpace(tag[0]) && !IsSpace(tag[|tag| - 1])
    ensures tag <= Strip(tag + rest)
  {
    var s := tag + rest;
    StripByShape(s, IsSpace);
    assert s[0] == tag[0] && s[|tag| - 1] == tag[|tag| - 1];
    assert LeftSpan(s, IsSpace) == 0;
  }

  /** A labelled line of the retrieval records other than Title, Date and
      URL is skipped, whatever follows the label. */
  lemma {:induction false} OtherLabelIgnored(tag: string, rest: string)
    requires tag in ["Authors:", "Journal:", "DOI:", "Abstract:"]
    ensures Ignored(Strip(tag + rest))
  {
    StripKeepsLabel(tag, rest);
    var line := Strip(tag + rest);
    assert line[..|tag|] == tag;
    assert line[0] == tag[0] && line[1] == tag[1];
  }

  /** Stripping a label with its trailing blank leaves the label. */
  lemma {:induction false} BareLabel(tag: string)
    requires tag in ["Title: ", "Date: ", "URL: "]
    ensures Strip(tag) == tag[..|tag| - 1]
  {
    if tag == "Title: " {
      BareTitle();
      assert tag[..6] == "Title:";
    } else if tag == "Date: " {
      BareDate();
      assert tag[..5] == "Date:";
    } else {
      BareUrl();
      assert tag[..4] == "URL:";
    }
  }

  lemma {:induction false} BareTitle()
    ensures Strip("Title: ") == "Title:"
  {
    assert !IsSpace('T') && IsSpace(' ') && !IsSpace(':');
    assert LeftSpan("Title: ", IsSpace) == 0;
    assert RightEnd("Title: ", IsSpace) == 6;
    assert "Title: "[0..6] == "Title:";
  }

  lemma {:induction false} BareDate()
    ensures Strip("Date: ") == "Date:"
  {
    assert !IsSpace('D') && IsSpace(' ') && !IsSpace(':');
    assert LeftSpan("Date: ", IsSpace) == 0;
    assert RightEnd("Date: ", IsSpace) == 5;
    assert "Date: "[0..5] == "Date:";
  }

  lemma {:induction false} BareUrl()
    ensures Strip("URL: ") == "URL:"
  {
    assert !IsSpace('U') && IsSpace(' ') && !IsSpace(':');
    assert LeftSpan("URL: ", IsSpace) == 0;
    assert RightEnd("URL: ", IsSpace) == 4;
    assert "URL: "[0..4] == "URL:";
  }

  /** A field line written as label + value reads back as that label and
      value, once stripped, when the value has no surrounding blanks. */
  lemma {:induction false} FieldLine(tag: string, value: string)
    requires tag in ["Title: ", "Date: ", "URL: "]
    requires IsStripped(value)
    ensures tag[..|tag| - 1] <= Strip(tag + value)
    ensures Drop(Strip(tag + value), |tag|) == value
  {
    if value == [] {
      assert tag + value == tag;
      BareLabel(tag);
      assert tag[..|tag| - 1] <= tag[..|tag| - 1];
    } else {
      assert !IsSpace(tag[0]) by {
        assert tag[0] in "TDU";
      }
      FilledLine(tag, value);
    }
  }

  lemma {:induction false} FilledLine(tag: string, value: string)
    requires tag != [] && !IsSpace(tag[0])
    requires value != [] && IsStripped(value)
    ensures Strip(tag + value) == tag + value
    ensures Drop(tag + value, |tag|) == value
    ensures tag[..|tag| - 1] <= tag + value
  {
    var s := tag + value;
    assert s[0] == tag[0] && s[|s| - 1] == value[|value| - 1];
    StripOfStripped(s);
    assert s[|tag|..] == value;
    assert s[..|tag| - 1] == tag[..|tag| - 1];
  }

  /** A record block — the title line, skipped lines, the date line, skipped
      lines, the URL line, skipped lines, then a blank line — read from the
      start of a record yields one entry holding the text after each label
      (the date parsed), and leaves the parser ready for the next record. */
  lemma {:induction false} BlockParses(acc: seq<Entry>, lt: string, ld: string, lu: string,
                    g1: seq<string>, g2: seq<string>, g3: seq<string>)
    requires "Title:" <= lt && "Date:" <= ld && "URL:" <= lu
    requires forall i :: 0 <= i < |g1| ==> Ignored(g1[i])
    requires forall i :: 0 <= i < |g2| ==> Ignored(g2[i])
    requires forall i :: 0 <= i < |g3| ==> Ignored(g3[i])
    ensures Run(Parser(NoFields, acc), [lt] + g1 + [ld] + g2 + [lu] + g3 + [""])
            == Parser(NoFields, acc + [Entry(Drop(lt, 7), ParseIso(Drop(ld, 6)), Drop(lu, 5))])
  {
    var tail := [ld] + (g2 + ([lu] + (g3 + [""])));
    Nest(lt, g1, ld, g2, lu, g3);
    var p1 := Parser(Fields(Some(Drop(lt, 7)), None, None), acc);
    RunCons(Parser(NoFields, acc), lt, g1 + tail);
    RunIgnoredThen(p1, g1, tail);
    DateBlock(acc, Drop(lt, 7), ld, lu, g2, g3);
  }

  lemma {:induction false} Nest(lt: string, g1: seq<string>, ld: string, g2: seq<string>, lu: string, g3: seq<string>)
    ensures [lt] + g1 + [ld] + g2 + [lu] + g3 + [""] == [lt] + (g1 + ([ld] + (g2 + ([lu] + (g3 + [""])))))
  {
  }

  lemma {:induction false} RunCons(p: Parser, line: string, rest: seq<string>)
    ensures Run(p, [line] + rest) == Run(Step(p, line), rest)
  {
    assert ([line] + rest)[1..] == rest;
  }

  /** The date line, skipped lines and the rest of a block, once the title
      is read. */
  lemma {:induction false} DateBlock(acc: seq<Entry>, t: string, ld: string, lu: string, g2: seq<string>, g3: seq<string>)
    requires "Date:" <= ld && "URL:" <= lu
    requires forall i :: 0 <= i < |g2| ==> Ignored(g2[i])
    requires forall i :: 0 <= i < |g3| ==> Ignored(g3[i])
    ensures Run(Parser(Fields(Some(t), None, None), acc), [ld] + (g2 + ([lu] + (g3 + [""]))))
            == Parser(NoFields, acc + [Entry(t, ParseIso(Drop(ld, 6)), Drop(lu, 5))])
  {
    assert ld[0] == 'D';
    var tail := [lu] + (g3 + [""]);
    var p2 := Parser(Fields(Some(t), Some(ParseIso(Drop(ld, 6))), None), acc);
    RunCons(Parser(Fields(Some(t), None, None), acc), ld, g2 + tail);
    RunIgnoredThen(p2, g2, tail);
    UrlBlock(acc, t, ParseIso(Drop(ld, 6)), lu, g3);
  }

  /** The URL line, skipped lines and the blank line that end a block. */
  lemma {:induction false} UrlBlock(acc: seq<Entry>, t: string, d: Option<Date>, lu: string, g3: seq<string>)
    requires "URL:" <= lu
    requires forall i :: 0 <= i < |g3| ==> Ignored(g3[i])
    ensures Run(Parser(Fields(Some(t), Some(d), None), acc), [lu] + (g3 + [""]))
            == Parser(NoFields, acc + [Entry(t, d, Drop(lu, 5))])
  {
    assert lu[0] == 'U';
    var p3 := Parser(Fields(Some(t), Some(d), Some(Drop(lu, 5))), acc);
    RunCons(Parser(Fields(Some(t), Some(d), None), acc), lu, g3 + [""]);
    RunIgnoredThen(p3, g3, [""]);
    RunCons(p3, "", []);
  }

  /** A second line with the same label overwrites the field the first one
      set: the first line, any skipped lines and the second line leave the
      parser as the second line alone would. */
  lemma {:induction false} LaterFieldWins(p: Parser, tag: string, l1: string, g: seq<string>, l2: string)
    requires tag in ["Title:", "Date:", "URL:"]
    requires tag <= l1 && tag <= l2
    requires forall i :: 0 <= i < |g| ==> Ignored(g[i])
    ensures Run(p, [l1] + g + [l2]) == Step(p, l2)
  {
    var q := Step(p, l1);
    assert [l1] + g + [l2] == [l1] + (g + [l2]);
    RunCons(p, l1, g + [l2]);
    RunIgnoredThen(q, g, [l2]);
    RunCons(q, l2, []);
    assert l1[0] == l2[0] == tag[0];
  }

  /** A block with two Title lines yields an entry with the second title. */
  lemma {:induction false} SecondTitleKept(acc: seq<Entry>, first: string, lt: string, ld: string, lu: string)
    requires "Title:" <= first && "Title:" <= lt && "Date:" <= ld && "URL:" <= lu
    ensures Run(Parser(NoFields, acc), [first, lt, ld, lu, ""])
            == Parser(NoFields, acc + [Entry(Drop(lt, 7), ParseIso(Drop(ld, 6)), Drop(lu, 5))])
  {
    var p := Parser(NoFields, acc);
    var tail: seq<string> := [ld, lu, ""];
    LaterFieldWins(p, "Title:", first, [], lt);
    assert [first] + [] + [lt] == [first, lt];
    assert [first, lt, ld, lu, ""] == [first, lt] + tail;
    RunAppend(p, [first, lt], tail);
    RunCons(p, lt, []);
    RunAppend(p, [lt], tail);
    assert [lt] + [] + [ld] + [] + [lu] + [] + [""] == [lt] + tail;
    BlockParses(acc, lt, ld, lu, [], [], []);
  }

  /** The entries a text reads back as, when it ends where a record ends. */
  predicate ReadsAs(text: string, es: seq<Entry>) {
    Run(Fresh, StripAll(Lines(text))) == Parser(NoFields, es)
  }

  /** A record ended by a newline that reads back as the one entry `e`. */
  predicate Block(record: string, e: Entry) {
    record != [] && record[|record| - 1] == '\n' && ReadsAs(record, [e])
  }

  /** Empty, or ending with a newline: text that ends where a record ends. */
  predicate EndsLine(text: string) {
    text == [] || text[|text| - 1] == '\n'
  }

  /** Records that each read back as one entry, written one after the other
      to a file, read back as those entries in file order. */
  lemma {:induction false} ConcatParses(records: seq<string>, es: seq<Entry>)
    requires |records| == |es|
    requires forall i :: 0 <= i < |records| ==> Block(records[i], es[i])
    ensures ReadsAs(Concat(records), es)
    ensures EndsLine(Concat(records))
    decreases |records|
  {
    if records != [] {
      var n := |records| - 1;
      var rs, fs := records[..n], es[..n];
      forall i | 0 <= i < n ensures Block(rs[i], fs[i]) {
        assert rs[i] == records[i] && fs[i] == es[i];
      }
      ConcatParses(rs, fs);
      var front := Concat(rs);
      assert Concat(records) == front + records[n];
      AppendParses(front, records[n], fs, es[n]);
      InitLast(es);
      assert fs + [es[n]] == es;
    }
  }

  /** The file those records make is read back as their entries. */
  lemma {:induction false} ConcatExtracted(records: seq<string>, es: seq<Entry>)
    requires |records| == |es|
    requires forall i :: 0 <= i < |records| ==> Block(records[i], es[i])
    ensures Extracted(Some(Concat(records))) == es
  {
    ConcatParses(records, es);
  }

  /** One more record after text that ends at a record boundary. */
  lemma {:induction false} AppendParses(front: string, record: string, es: seq<Entry>, e: Entry)
    requires EndsLine(front)
    requires ReadsAs(front, es) && Block(record, e)
    ensures ReadsAs(front + record, es + [e])
    ensures EndsLine(front + record)
  {
    LastOfAppend(front, record);
    if front == [] {
      NothingReadsAsNothing(es);
      assert front + record == record && es + [e] == [e];
    } else {
      AppendAfterRecords(front, record, es, e);
    }
  }

  lemma {:induction false} NothingReadsAsNothing(es: seq<Entry>)
    requires ReadsAs([], es)
    ensures es == []
  {
    assert Lines([]) == [];
    assert StripAll([]) == [];
  }

  lemma {:induction false} AppendAfterRecords(front: string, record: string, es: seq<Entry>, e: Entry)
    requires front != [] && front[|front| - 1] == '\n'
    requires ReadsAs(front, es) && Block(record, e)
    ensures ReadsAs(front + record, es + [e])
    ensures (front + record)[|front + record| - 1] == '\n'
  {
    var a := StripAll(Lines(front));
    var b := StripAll(Lines(record));
    LinesAppend(front, record);
    StripAllAppend(Lines(front), Lines(record));
    assert StripAll(Lines(front + record)) == a + b;
    RunAppend(Fresh, a, b);
    RunKeepsEntries(NoFields, es, b);
    assert Run(Parser(NoFields, []), b) == Parser(NoFields, [e]);
    LastOfAppend(front, record);
  }

  lemma {:induction false} LastOfAppend(front: string, record: string)
    requires record != []
    ensures (front + record)[|front + record| - 1] == record[|record| - 1]
  {
  }

  // ---------------------------------------------------------------------
  // Sorting newest first

  predicate Dated(es: seq<Entry>) {
    forall i :: 0 <= i < |es| ==> es[i].date.Some?
  }

  /** Newest first: no entry is older than one after it. */
  predicate NewestFirst(es: seq<Entry>)
    requires Dated(es)
  {
    forall i, j :: 0 <= i < j < |es| ==> !Before(es[i].date.value, es[j].date.value)
  }

  /** The entries dated `d`, in order. */
  function WithDate(es: seq<Entry>, d: Date): seq<Entry>
    decreases |es|
  {
    if es == [] then []
    else (if es[0].date == Some(d) then [es[0]] else []) + WithDate(es[1..], d)
  }

  /** `e` placed before the first entry that is strictly older than it. */
  function Insert(sorted: seq<Entry>, e: Entry): (r: seq<Entry>)
    requires Dated(sorted) && e.date.Some?
    ensures Dated(r)
    ensures multiset(r) == multiset(sorted) + multiset{e}
    decreases |sorted|
  {
    if sorted == [] then [e]
    else if Before(sorted[0].date.value, e.date.value) then [e] + sorted
    else
      assert sorted == [sorted[0]] + sorted[1..];
      [sorted[0]] + Insert(sorted[1..], e)
  }

  /** A stable sort on the date, newest first. */
  function SortNewestFirst(es: seq<Entry>): seq<Entry>
    requires Dated(es)
    decreases |es|
  {
    if es == [] then [] else Insert(SortNewestFirst(es[..|es| - 1]), es[|es| - 1])
  }

  /** No entry of `s` is dated after `x`. */
  predicate NoneAfter(x: Date, s: seq<Entry>)
    requires Dated(s)
  {
    forall i :: 0 <= i < |s| ==> !Before(x, s[i].date.value)
  }

  /** Newest first, read off the head: the head is dated no earlier than
      anything after it, and the rest is newest first. */
  lemma {:induction false} NewestFirstCons(x: Entry, s: seq<Entry>)
    requires x.date.Some? && Dated(s)
    ensures Dated([x] + s)
    ensures NewestFirst([x] + s) <==> NoneAfter(x.date.value, s) && NewestFirst(s)
  {
    assert Dated([x] + s) by {
      forall i | 0 <= i < |s| + 1 ensures ([x] + s)[i].date.Some? {
        if i > 0 { assert ([x] + s)[i] == s[i - 1]; }
      }
    }
    if NoneAfter(x.date.value, s) && NewestFirst(s) {
      NewestFirstConsIntro(x, s);
    }
    if NewestFirst([x] + s) {
      NewestFirstConsElim(x, s);
    }
  }

  lemma {:induction false} NewestFirstConsIntro(x: Entry, s: seq<Entry>)
    requires x.date.Some? && Dated(s) && Dated([x] + s)
    requires NoneAfter(x.date.value, s) && NewestFirst(s)
    ensures NewestFirst([x] + s)
  {
    var r := [x] + s;
    forall i, j | 0 <= i < j < |r| ensures !Before(r[i].date.value, r[j].date.value) {
      assert r[j] == s[j - 1];
      if i > 0 {
        assert r[i] == s[i - 1];
      }
    }
  }

  lemma {:induction false} NewestFirstConsElim(x: Entry, s: seq<Entry>)
    requires x.date.Some? && Dated(s) && Dated([x] + s)
    requires NewestFirst([x] + s)
    ensures NoneAfter(x.date.value, s) && NewestFirst(s)
  {
    var r := [x] + s;
    forall i, j | 0 <= i < j < |s| ensures !Before(s[i].date.value, s[j].date.value) {
      assert r[i + 1] == s[i] && r[j + 1] == s[j];
    }
    forall j | 0 <= j < |s| ensures !Before(x.date.value, s[j].date.value) {
      assert r[0] == x && r[j + 1] == s[j];
    }
  }

  /** Inserting an entry dated no later than `x` keeps every entry dated no
      later than `x`. */
  lemma {:induction false} InsertNoneAfter(sorted: seq<Entry>, e: Entry, x: Date)
    requires Dated(sorted) && e.date.Some?
    requires NoneAfter(x, sorted) && !Before(x, e.date.value)
    ensures NoneAfter(x, Insert(sorted, e))
    decreases |sorted|
  {
    if sorted != [] && !Before(sorted[0].date.value, e.date.value) {
      var rest := sorted[1..];
      assert forall i :: 0 <= i < |rest| ==> rest[i] == sorted[i + 1];
      InsertNoneAfter(rest, e, x);
      var r := [sorted[0]] + Insert(rest, e);
      assert forall i :: 0 < i < |r| ==> r[i] == Insert(rest, e)[i - 1];
    }
  }

  /** When the head of a newest-first list is older than `d`, every entry
      is. */
  lemma {:induction false} AllOlder(sorted: seq<Entry>, d: Date)
    requires Dated(sorted) && NewestFirst(sorted)
    requires sorted != [] && Before(sorted[0].date.value, d)
    ensures forall i :: 0 <= i < |sorted| ==> Before(sorted[i].date.value, d)
  {
    forall i | 0 <= i < |sorted| ensures Before(sorted[i].date.value, d) {
      if i > 0 {
        assert !Before(sorted[0].date.value, sorted[i].date.value);
        BeforeIsStrictTotalOrder(sorted[i].date.value, sorted[0].date.value, d);
      }
    }
  }

  lemma {:induction false} InsertNewestFirst(sorted: seq<Entry>, e: Entry)
    requires Dated(sorted) && e.date.Some? && NewestFirst(sorted)
    ensures NewestFirst(Insert(sorted, e))
    decreases |sorted|
  {
    if sorted == [] {
    } else if Before(sorted[0].date.value, e.date.value) {
      AllOlder(sorted, e.date.value);
      forall i | 0 <= i < |sorted| ensures !Before(e.date.value, sorted[i].date.value) {
        BeforeIsStrictTotalOrder(sorted[i].date.value, e.date.value, sorted[i].date.value);
      }
      NewestFirstCons(e, sorted);
    } else {
      var rest := sorted[1..];
      assert sorted == [sorted[0]] + rest;
      NewestFirstCons(sorted[0], rest);
      InsertNewestFirst(rest, e);
      InsertNoneAfter(rest, e, sorted[0].date.value);
      NewestFirstCons(sorted[0], Insert(rest, e));
    }
  }

  /** Inserting keeps the entries of each date in order, the new one last. */
  lemma {:induction false} InsertWithDate(sorted: seq<Entry>, e: Entry, d: Date)
    requires Dated(sorted) && e.date.Some? && NewestFirst(sorted)
    ensures WithDate(Insert(sorted, e), d) == WithDate(sorted, d) + (if e.date == Some(d) then [e] else [])
    decreases |sorted|
  {
    if sorted == [] {
    } else if Before(sorted[0].date.value, e.date.value) {
      var r := [e] + sorted;
      assert r[1..] == sorted;
      if e.date == Some(d) {
        AllOlder(sorted, d);
        NoneWithDate(sorted, d);
      }
    } else {
      var rest := sorted[1..];
      assert sorted == [sorted[0]] + rest;
      NewestFirstCons(sorted[0], rest);
      InsertWithDate(rest, e, d);
      var r := [sorted[0]] + Insert(rest, e);
      assert r[1..] == Insert(rest, e);
      SeqAssoc(if sorted[0].date == Some(d) then [sorted[0]] else [], WithDate(rest, d),
               if e.date == Some(d) then [e] else []);
    }
  }

  lemma {:induction false} NoneWithDate(s: seq<Entry>, d: Date)
    requires Dated(s)
    requires forall i :: 0 <= i < |s| ==> Before(s[i].date.value, d)
    ensures WithDate(s, d) == []
    decreases |s|
  {
    if s != [] {
      BeforeIsStrictTotalOrder(d, d, d);
      assert s[0].date != Some(d);
      assert forall i :: 0 <= i < |s[1..]| ==> s[1..][i] == s[i + 1];
      NoneWithDate(s[1..], d);
    }
  }

  lemma {:induction false} WithDateAppend(a: seq<Entry>, b: seq<Entry>, d: Date)
    ensures WithDate(a + b, d) == WithDate(a, d) + WithDate(b, d)
    decreases |a|
  {
    if a == [] {
      assert a + b == b;
    } else {
      assert (a + b)[1..] == a[1..] + b;
      WithDateAppend(a[1..], b, d);
    }
  }

  /** The sort is a stable newest-first permutation: the result is newest
      first, has the same entries, and the entries sharing a date keep their
      input order. */
  lemma {:induction false} SortNewestFirstCorrect(es: seq<Entry>)
    requires Dated(es)
    ensures Dated(SortNewestFirst(es)) && NewestFirst(SortNewestFirst(es))
    ensures multiset(SortNewestFirst(es)) == multiset(es)
    ensures forall d :: WithDate(SortNewestFirst(es), d) == WithDate(es, d)
    decreases |es|
  {
    if es != [] {
      var init := es[..|es| - 1];
      var last := es[|es| - 1];
      assert Dated(init);
      SortNewestFirstCorrect(init);
      var s := SortNewestFirst(init);
      assert SortNewestFirst(es) == Insert(s, last);
      InsertNewestFirst(s, last);
      InitLast(es);
      forall d ensures WithDate(Insert(s, last), d) == WithDate(es, d) {
        SortWithDateStep(init, s, last, d);
      }
    }
  }

  lemma {:induction false} SortWithDateStep(init: seq<Entry>, s: seq<Entry>, last: Entry, d: Date)
    requires Dated(s) && NewestFirst(s) && last.date.Some?
    requires WithDate(s, d) == WithDate(init, d)
    ensures WithDate(Insert(s, last), d) == WithDate(init + [last], d)
  {
    InsertWithDate(s, last, d);
    WithDateAppend(init, [last], d);
    assert [last][1..] == [];
  }

  /** `sorted(all_entries, key=date, reverse=True)`: `None` stands for the
      `TypeError` raised once two entries are compared and one of the dates
      is `None`, which happens whenever there are two or more entries. */
  function SortEntries(es: seq<Entry>): (r: Option<seq<Entry>>)
    ensures r.None? <==> |es| >= 2 && !Dated(es)
    ensures r.Some? && |es| < 2 ==> r.value == es
    ensures r.Some? && |es| >= 2 ==> Dated(r.value) && NewestFirst(r.value) && multiset(r.value) == multiset(es)
  {
    if |es| < 2 then Some(es)
    else if !Dated(es) then None
    else
      SortNewestFirstCorrect(es);
      Some(SortNewestFirst(es))
  }

  // ---------------------------------------------------------------------
  // The output file

  const NoEntriesLine := "No entries found for the given sources."

  const NoEntries := NoEntriesLine + "\n"

  /** `f"{title}\n{url}\n\n"` for each entry, in order. */
  function Listing(es: seq<Entry>): string
    decreases |es|
  {
    if es == [] then "" else Listing(es[..|es| - 1]) + Unlines([es[|es| - 1].title, es[|es| - 1].url, ""])
  }

  function OutputText(es: seq<Entry>): string {
    if es == [] then NoEntries else Listing(es)
  }

  /** The lines of the listing: title, URL and a blank line per entry. */
  function PairLines(es: seq<Entry>): seq<string>
    decreases |es|
  {
    if es == [] then [] else PairLines(es[..|es| - 1]) + [es[|es| - 1].title, es[|es| - 1].url, ""]
  }

  /** The listing reads back as title, URL and a blank line per entry. */
  lemma {:induction false} ListingLines(es: seq<Entry>)
    requires forall i :: 0 <= i < |es| ==> NoNewline(es[i].title) && NoNewline(es[i].url)
    ensures Lines(Listing(es)) == PairLines(es)
    decreases |es|
  {
    if es != [] {
      var n := |es| - 1;
      ListingLines(es[..n]);
      ListingStep(es[..n], es[n]);
      assert es[..n] + [es[n]] == es;
    }
  }

  lemma {:induction false} ListingStep(front: seq<Entry>, e: Entry)
    requires NoNewline(e.title) && NoNewline(e.url)
    requires Lines(Listing(front)) == PairLines(front)
    ensures Lines(Listing(front + [e])) == PairLines(front + [e])
  {
    var es := front + [e];
    assert es[..|es| - 1] == front && es[|es| - 1] == e;
    var block := [e.title, e.url, ""];
    var a, b := Listing(front), Unlines(block);
    assert Listing(es) == a + b;
    assert PairLines(es) == PairLines(front) + block;
    LinesUnlines(block);
    ListingEnds(front);
    if front == [] {
      assert a + b == b && PairLines(front) == [];
    } else {
      LinesAppend(a, b);
    }
  }

  /** The listing is empty exactly when there are no entries, and otherwise
      ends with a newline. */
  lemma {:induction false} ListingEnds(es: seq<Entry>)
    ensures es == [] <==> Listing(es) == []
    ensures es != [] ==> Listing(es)[|Listing(es)| - 1] == '\n'
  {
    if es != [] {
      var n := |es| - 1;
      var u := Unlines([es[n].title, es[n].url, ""]);
      assert Listing(es) == Listing(es[..n]) + u;
      assert Listing(es)[|Listing(es)| - 1] == u[|u| - 1];
    }
  }

  // ---------------------------------------------------------------------
  // The whole script

  /** `../output/latest_<source>_entries.txt` */
  function OutputPath(source: string): string {
    "../output/latest_" + source + "_entries.txt"
  }

  const Files := [OutputPath("arxiv"), OutputPath("bioRxiv"), OutputPath("pubmed")]

  /** Text after the last '/'. */
  function Basename(path: string): string
    decreases |path|
  {
    if path == [] then []
    else if path[|path| - 1] == '/' then []
    else Basename(path[..|path| - 1]) + [path[|path| - 1]]
  }

  /** `os.path.basename(file).split('_')[1]` */
  function SourceName(path: string): string {
    var parts := SplitOn(Basename(path), '_');
    if |parts| >= 2 then parts[1] else ""
  }

  /** The base name of a path whose last separator ends `dir`. */
  lemma {:induction false} BasenameAfter(dir: string, name: string)
    requires dir != [] && dir[|dir| - 1] == '/'
    requires forall k :: 0 <= k < |name| ==> name[k] != '/'
    ensures Basename(dir + name) == name
    decreases |name|
  {
    if name == [] {
      assert dir + name == dir;
    } else {
      var n := |name| - 1;
      assert (dir + name)[..|dir + name| - 1] == dir + name[..n];
      BasenameAfter(dir, name[..n]);
      assert name[..n] + [name[n]] == name;
    }
  }

  /** The three missing-file messages name arxiv, bioRxiv and pubmed. */
  lemma {:induction false} SourceNames()
    ensures SourceName(Files[0]) == "arxiv"
    ensures SourceName(Files[1]) == "bioRxiv"
    ensures SourceName(Files[2]) == "pubmed"
  {
    KnownSourceName("arxiv");
    KnownSourceName("bioRxiv");
    KnownSourceName("pubmed");
  }

  /** Each of the three sources is read back from its own output path. */
  lemma {:induction false} KnownSourceName(source: string)
    requires source in ["arxiv", "bioRxiv", "pubmed"]
    ensures SourceName(OutputPath(source)) == source
  {
    SourceNameOf(source);
  }

  /** The source named in an output file's path is the text between its
      first two underscores. */
  lemma {:induction false} SourceNameOf(source: string)
    requires '/' !in source && '_' !in source
    ensures SourceName(OutputPath(source)) == source
  {
    assert forall k :: 0 <= k < |source| ==> source[k] != '/' && source[k] != '_';
    var name := "latest" + "_" + source + "_" + "entries.txt";
    assert OutputPath(source) == "../output/" + name;
    BasenameAfter("../output/", name);
    SecondPiece("latest", source, "entries.txt", '_');
  }

  datatype Outcome =
    | HelpShown
    | SortFailed
    | Summarised(output: string, missing: seq<string>)

  /** All entries of the existing files, arXiv first, then bioRxiv, then
      PubMed. */
  function AllEntries(files: seq<Option<string>>): seq<Entry>
    decreases |files|
  {
    if files == [] then [] else AllEntries(files[..|files| - 1]) + Extracted(files[|files| - 1])
  }

  function MissingSources(paths: seq<string>, files: seq<Option<string>>): seq<string>
    requires |paths| == |files|
    decreases |files|
  {
    if files == [] then []
    else
      var n := |files| - 1;
      MissingSources(paths[..n], files[..n]) + (if files[n].None? then [SourceName(paths[n])] else [])
  }

  function RunSpec(help: bool, files: seq<Option<string>>): Outcome
    requires |files| == |Files|
  {
    if help then HelpShown
    else match SortEntries(AllEntries(files))
      case None => SortFailed
      case Some(sorted) => Summarised(OutputText(sorted), MissingSources(Files, files))
  }

  method Summarise(help: bool, files: seq<Option<string>>) returns (o: Outcome)
    requires |files| == |Files|
    ensures o == RunSpec(help, files)
  {
    if help {
      return HelpShown;
    }
    var all := ExtractAll(files);
    var sorted := SortEntries(all);
    if sorted.None? {
      return SortFailed;
    }
    var output := if sorted.value == [] then NoEntries else Listing(sorted.value);
    var missing := MissingMessages(Files, files);
    o := Summarised(output, missing);
  }

  /** The `for file in files` loop that gathers the entries. */
  method ExtractAll(files: seq<Option<string>>) returns (all: seq<Entry>)
    ensures all == AllEntries(files)
  {
    all := [];
    for i := 0 to |files|
      invariant all == AllEntries(files[..i])
    {
      assert files[..i + 1][..i] == files[..i];
      if files[i].Some? {
        var es := ExtractEntries(files[i]);
        all := all + es;
      } else {
        assert all + Extracted(files[i]) == all;
      }
    }
    assert files[..|files|] == files;
  }

  /** The closing `for file in files` loop that names the missing sources. */
  method MissingMessages(paths: seq<string>, files: seq<Option<string>>) returns (missing: seq<string>)
    requires |paths| == |files|
    ensures missing == MissingSources(paths, files)
  {
    missing := [];
    for i := 0 to |files|
      invariant missing == MissingSources(paths[..i], files[..i])
    {
      assert files[..i + 1][..i] == files[..i];
      assert paths[..i + 1][..i] == paths[..i];
      if files[i].None? {
        missing := missing + [SourceName(paths[i])];
      }
    }
    assert files[..|files|] == files && paths[..|paths|] == paths;
  }
}
