# Scitify, modelled in Dafny

Scitify is a set of batch scripts that notify a researcher of new
publications. Three retrieval scripts query PubMed, bioRxiv and arXiv for the
keywords of a configuration file and write one text block per accepted paper
to `../output/latest_<source>_entries.txt`. `summarise_papers.py` reads those
files back, sorts the papers newest first and writes their titles and URLs to
`../output/titles_and_urls.txt`. `twitter_papers.py` tweets that summary one
title/URL pair at a time, `email_papers.py` mails it with the three source
files attached, and `twitter_setup.py` moves the Twitter credentials from a
text file into the system keyring.

This project models the decision logic of those seven scripts. It covers the
start-up checks and their exit codes, the keyword filters, the record
formats, the paging loops, the summary parser and sort, the tweet pairing,
the attachment and body rules of the mail, and the keyring store and
read-back. Every outside service is a parameter:

- the Entrez API, the bioRxiv API and the arXiv feed are functions from a
  request to a page;
- posting a tweet and delivering a mail are functions that report success;
- the keyring is a map;
- a file is its text, or `None` when it does not exist;
- the current time is a value passed in.

One module per script (`PubMed`, `BioRxiv`, `ArXiv`, `Summarise`,
`TwitterPapers`, `EmailPapers`, `TwitterSetup`). They rest on shared modules:

- `Text`: Python's `strip`, `lower`, `in`, `join`, `split` and line splitting
  on strings;
- `Dates`: `strptime`/`strftime` with `%Y-%m-%d`;
- `Retrieval`: the loader, start-up check, keyword tests and output step the
  three retrieval scripts share;
- `Keyrings`: the keyring as a class over a map;
- `Consolidation`: the round trip from each retrieval format through the
  summary parser.

Where a script loops or updates state, the model is a method with loop
invariants, proved equal to a specification function. The lemmas then state
the script's properties about that function.

## Model

| member | source | states |
|---|---|---|
| Retrieval.LoadKeywords | bin/PubMed_retrieve.py:43-70 | `None` exactly when the keyword file does not exist; otherwise each list holds its section's keys in order, or is empty when the section is absent; only PubMed has `journals_of_interest` (the bioRxiv and arXiv loaders at bin/bioRxiv_retrieve.py:43-66 and bin/arXiv_retrieve.py:43-66 are the same without it) |
| Retrieval.FlagErrors | bin/PubMed_retrieve.py:98-106 | every error is a missing-flag error, there is at most one per flag, and there is none exactly when every flag was given |
| Retrieval.FlagErrorsAppend | bin/PubMed_retrieve.py:98-106 | checking flags and then more flags gives the first errors followed by the second, so the errors follow the order of the checks |
| Retrieval.FlagErrorsNames | bin/PubMed_retrieve.py:98-106 | a flag is named by an error exactly when it is checked and was not given |
| Retrieval.StartupErrors | bin/PubMed_retrieve.py:98-121 | the error list is the flag errors, then the keyword-file error; it is empty (the script goes on) exactly when every flag was given and the file exists and has keywords; a missing file is the last error |
| Retrieval.AnyInIff | bin/bioRxiv_retrieve.py:156 | `any(k.lower() in text.lower())` holds exactly when some keyword occurs in the text case-insensitively |
| Retrieval.ScorePositiveIff | bin/bioRxiv_retrieve.py:162-164 | the required-keyword score is positive exactly when some required keyword occurs, and never exceeds the number of keywords |
| Retrieval.ConcatAppend | bin/PubMed_retrieve.py:254 | `writelines` of two lists of records is the first file followed by the second |
| PubMed.QueryShape | bin/PubMed_retrieve.py:150-157 | the query starts with `(keyword)`; it holds ` AND (` and every `journal[Journal]` term exactly when journals are configured, and ` NOT ` plus every excluded keyword when exclusions are configured |
| PubMed.ZFill2 | bin/PubMed_retrieve.py:209 | `zfill(2)`: a text of two or more characters is kept, a single digit gets a leading zero, and the result has at least two characters |
| PubMed.DateString | bin/PubMed_retrieve.py:200-211 | the date is "Unknown Date" exactly when the year is absent or is the text "No Year" |
| PubMed.DateOfMarch2023 | bin/PubMed_retrieve.py:138-141 | worked dates: month "Mar" with an empty day gives `2023-03-01`; "March" with no day gives `2023-03-01`; the unknown month "Spring" with day 7 gives `2023-01-07`; no year gives "Unknown Date" |
| PubMed.PubDateRoundTrip | bin/PubMed_retrieve.py:200-209 | a real date spelled with a four-digit year, a month name and a day prints as that date's ISO text, and reads back as that date |
| PubMed.MonthMappingPads | bin/PubMed_retrieve.py:138-141 | the m-th key of `month_mapping` maps to m, zero-padded to two digits |
| PubMed.Named | bin/PubMed_retrieve.py:189-195 | the authors listed are exactly those with a last name, and never more than the article has |
| PubMed.AuthorsListed | bin/PubMed_retrieve.py:189-195 | every author with a last name appears in the Authors line as "LastName Initials" |
| PubMed.NoNamedAuthors | bin/PubMed_retrieve.py:189-195 | when no author has a last name the Authors line is empty |
| PubMed.FirstDoiIndex | bin/PubMed_retrieve.py:216-221 | the position of the first ELocationID whose type is `doi`: no earlier one has that type |
| PubMed.FindDoi | bin/PubMed_retrieve.py:216-221 | the loop finds a DOI exactly when some ELocationID has type `doi`, and then returns the first one |
| PubMed.LinkFromFirstDoiOnly | bin/PubMed_retrieve.py:216-227 | ELocationIDs after the first DOI never change the link; the placeholder "Full text link not available" appears exactly when that DOI's text is empty |
| PubMed.RecordLines | bin/PubMed_retrieve.py:229-236 | a record whose fields hold no line break is exactly the lines Title, Authors, Journal, Date, URL, Abstract and a blank line |
| PubMed.Pages | bin/PubMed_retrieve.py:160-249 | the searches of one keyword start at the given `retstart` and step by the batch size |
| PubMed.PagingContinues | bin/PubMed_retrieve.py:160-249 | another search follows a search only when it returned ids, the fetch succeeded and `retstart + batch` is still below `Count` |
| PubMed.PagingStops | bin/PubMed_retrieve.py:160-180 | the stop reason is read off the last search: a failed search, no ids, a failed fetch, or `Count` reached |
| PubMed.FullPagesSearchCount | bin/PubMed_retrieve.py:245-249 | against full pages and a fixed `Count`, the number of searches is the number of batches needed to pass `Count` |
| PubMed.ThreeSearchesFor250 | bin/PubMed_retrieve.py:245-249 | with `Count` 250 and batches of 100, exactly three searches are made, at 0, 100 and 200 |
| PubMed.AppendPage | bin/PubMed_retrieve.py:183-238 | one fetched batch appends the records of its wanted articles, in fetch order |
| PubMed.HarvestKeyword | bin/PubMed_retrieve.py:146-249 | the `while True` loop of one keyword yields the records, `retstart`s and stop reason of the paging specification |
| PubMed.KeywordHarvests | bin/PubMed_retrieve.py:146 | one harvest per keyword |
| PubMed.Run | bin/PubMed_retrieve.py:92-257 | `--help` shows the usage and exits 0 before any check; otherwise the script yields the start-up errors, or the output of every keyword's records in order |
| PubMed.AbortIff | bin/PubMed_retrieve.py:92-121 | without `--help`, the run stops with exit code 1 exactly when a flag is missing, the keyword file is missing, or it has no keywords |
| PubMed.RequiredKeywordsUnused | bin/PubMed_retrieve.py:131 | the `required_keywords` section changes nothing the script does |
| PubMed.KeywordsIndependent | bin/PubMed_retrieve.py:146-157 | each keyword is paged from `retstart` 0 with its own query; a failure ends only that keyword |
| BioRxiv.AcceptedIff | bin/bioRxiv_retrieve.py:149-166 | an item is kept exactly when the keyword occurs in its abstract, no excluded keyword occurs in title plus abstract, and either no required keywords are configured or one of them occurs |
| BioRxiv.AuthorsJoined | bin/bioRxiv_retrieve.py:170-174 | the text of a list of authors holds every name; an authors text is kept unchanged; no authors value gives an empty text |
| BioRxiv.RecordShape | bin/bioRxiv_retrieve.py:176-183 | a record is the lines Title, Authors, Date, DOI, `URL: https://doi.org/<doi>`, Abstract and a blank line |
| BioRxiv.AppendPage | bin/bioRxiv_retrieve.py:149-189 | a page appends the records of its accepted items, in page order |
| BioRxiv.Pages | bin/bioRxiv_retrieve.py:134-195 | the requests of one keyword start at the given offset and step by the batch size |
| BioRxiv.PagingContinues | bin/bioRxiv_retrieve.py:142-192 | another request follows only a page with status 200, a collection, and at least one item |
| BioRxiv.PagingStops | bin/bioRxiv_retrieve.py:142-195 | the last request explains the stop: a failed or malformed response, or an empty collection |
| BioRxiv.HarvestKeyword | bin/bioRxiv_retrieve.py:132-195 | the paging loop of one keyword yields the records and offsets of the specification |
| BioRxiv.KeywordHarvests | bin/bioRxiv_retrieve.py:132 | one harvest per keyword |
| BioRxiv.Run | bin/bioRxiv_retrieve.py:93-203 | help, the start-up errors, or the output of every keyword's records in order |
| BioRxiv.AbortIff | bin/bioRxiv_retrieve.py:98-119 | without `--help`, the run stops with exit code 1 exactly when a flag is missing, the keyword file is missing, or it has no keywords |
| BioRxiv.KeywordsAppend | bin/bioRxiv_retrieve.py:132-133 | keywords are handled one after the other, each from offset 0 |
| BioRxiv.ItemMatchingTwoKeywords | bin/bioRxiv_retrieve.py:129-185 | an item accepted under two keywords is written twice |
| BioRxiv.TwoKeywords | bin/bioRxiv_retrieve.py:132-185 | the records of two keywords are the first keyword's records, then the second's |
| BioRxiv.OneItemHarvest | bin/bioRxiv_retrieve.py:135-192 | a listing with one accepted item, then an empty page, yields exactly that item's record |
| ArXiv.AcceptedIff | bin/arXiv_retrieve.py:156-163 | an entry is kept exactly when it was published at or after the cut-off, no excluded keyword occurs in title plus summary, and either no required keywords are configured or one of them occurs |
| ArXiv.CleanTitle | bin/arXiv_retrieve.py:165 | the cleaned title has no line break, no leading or trailing blank, and no two spaces in a row |
| ArXiv.CleanTitleIdempotent | bin/arXiv_retrieve.py:165 | cleaning a cleaned title changes nothing |
| ArXiv.CleanTitleWords | bin/arXiv_retrieve.py:165 | the cleaned title splits into exactly the words of the title as given, in order: stripping, turning newlines into spaces and re-joining lose or add none |
| ArXiv.ConsiderValid | bin/arXiv_retrieve.py:150-174 | one entry keeps the invariant: `entries` is keyed by link, every key is processed, and the insertion order lists each key once |
| ArXiv.FirstOccurrenceDecides | bin/arXiv_retrieve.py:150-174 | after a run of entries, a link is in `entries` exactly when it already was, or when it was new and its first occurrence was accepted; later duplicates are skipped |
| ArXiv.RejectedStaysOut | bin/arXiv_retrieve.py:150-153 | a link that was processed and rejected is never accepted later, under any keyword |
| ArXiv.ProcessAllValid | bin/arXiv_retrieve.py:144-174 | the invariant holds after any number of entries, and `processed_links` only grows |
| ArXiv.ProcessAllAppend | bin/arXiv_retrieve.py:130-144 | processing two runs of entries is processing the first, then the second |
| ArXiv.FirstIndex | bin/arXiv_retrieve.py:150 | the position of the first entry with a given link |
| ArXiv.CountIsKeys | bin/arXiv_retrieve.py:189 | the printed count `len(entries)` is the number of records written |
| ArXiv.Pages | bin/arXiv_retrieve.py:132-141 | at most `fuel` requests for one keyword, and all of them when the feed never returned an empty page |
| ArXiv.PagingShape | bin/arXiv_retrieve.py:131-183 | requests are at the given offset, then `batch` further each time; every request but the last returned entries |
| ArXiv.ConsiderEntry | bin/arXiv_retrieve.py:144-180 | the loop body for one entry updates `processed_links`, `entries` and their order as the specification does |
| ArXiv.ProcessPage | bin/arXiv_retrieve.py:144 | the loop over one page is the specification applied to the page's entries in order |
| ArXiv.HarvestKeyword | bin/arXiv_retrieve.py:131-183 | the `while True` loop of one keyword processes every entry its pages return, in order |
| ArXiv.HarvestAll | bin/arXiv_retrieve.py:126-183 | the `for keyword in keywords` loop runs every keyword's entries, keyword after keyword, through one shared `processed_links` and `entries` |
| ArXiv.Run | bin/arXiv_retrieve.py:93-191 | help, the start-up errors, or the output of the `entries` values |
| ArXiv.AbortIff | bin/arXiv_retrieve.py:98-119 | without `--help`, the run stops with exit code 1 exactly when a flag is missing, the keyword file is missing, or it has no keywords |
| ArXiv.OrderFollowsFirstAcceptance | bin/arXiv_retrieve.py:144-174 | after a run of entries, the keys of `entries` are the old keys followed by the links accepted at their first sighting, in the order those entries were looked at; each new key holds its entry's record and old keys keep theirs |
| ArXiv.RunWritesInAcceptanceOrder | bin/arXiv_retrieve.py:126-189 | a finished run writes the records of the entries accepted at their link's first sighting, in fetch order (keyword after keyword, page after page), which is the insertion order `entries.values()` follows |
| ArXiv.RunWritesOncePerLink | bin/arXiv_retrieve.py:174-189 | a finished run writes one record per distinct accepted link, and the printed count equals the number of records |
| Dates.BeforeIsStrictTotalOrder | bin/summarise_papers.py:105 | the order of dates is irreflexive, transitive and total |
| Dates.FormatIso | bin/arXiv_retrieve.py:170 | `strftime('%Y-%m-%d')` is ten characters with dashes at positions 4 and 7, and no blanks |
| Dates.ParseIso | bin/summarise_papers.py:84-89 | whatever `strptime(s, "%Y-%m-%d")` accepts is a real calendar date, and its text has a dash after the year |
| Dates.ParseFormatIso | bin/summarise_papers.py:87 | a printed date reads back as the same date |
| Dates.UnknownDateIsNotADate | bin/summarise_papers.py:88-89 | "Unknown Date" does not parse, so it is stored as no date |
| Summarise.ExtractEntries | bin/summarise_papers.py:75-96 | a missing file gives no entries; otherwise the entries the line parser reads from its stripped lines |
| Summarise.ReadLines | bin/summarise_papers.py:80-95 | the `for line in f` loop is the parser run over the lines in file order |
| Summarise.ReadLine | bin/summarise_papers.py:81-95 | the loop body for one stripped line is one parser step |
| Summarise.RunKeepsEntries | bin/summarise_papers.py:92-95 | records already found are never changed or dropped by later lines |
| Summarise.RunIgnoredThen | bin/summarise_papers.py:82-92 | lines without a field label and not blank change nothing |
| Summarise.EntriesOnlyAtBlank | bin/summarise_papers.py:92-95 | records are handed on only at blank lines |
| Summarise.IncompleteRecordDropped | bin/summarise_papers.py:92-95 | a record without a title, a date or a URL is dropped at its blank line |
| Summarise.OtherLabelIgnored | bin/summarise_papers.py:82-92 | Authors, Journal, DOI and Abstract lines are skipped |
| Summarise.FieldLine | bin/summarise_papers.py:82-91 | a Title, Date or URL line reads back as its label and the exact value after it |
| Summarise.LaterFieldWins | bin/summarise_papers.py:82-91 | a second Title, Date or URL line overwrites the field the first set: both lines with skipped lines between leave the parser as the second line alone |
| Summarise.SecondTitleKept | bin/summarise_papers.py:80-95 | a block with two Title lines, then Date, URL and a blank line, yields one entry holding the second title |
| Summarise.BlockParses | bin/summarise_papers.py:80-95 | a block of Title, skipped lines, Date, skipped lines, URL, skipped lines and a blank line gives one entry with the text after each label (the date parsed) |
| Summarise.ConcatExtracted | bin/summarise_papers.py:75-96 | records that each read back as one entry, written one after another, read back as those entries in file order |
| Summarise.Insert | bin/summarise_papers.py:105 | inserting one dated entry into dated entries adds exactly that entry, and every entry stays dated |
| Summarise.SortNewestFirstCorrect | bin/summarise_papers.py:105 | the sort is newest first, a permutation of its input, and stable: entries of the same date keep their order |
| Summarise.SortEntries | bin/summarise_papers.py:105 | the sort fails (Python raises on comparing `None`) exactly when two or more entries include one without a date; otherwise fewer than two entries come back unchanged, and more come back as a newest-first permutation |
| Summarise.ListingLines | bin/summarise_papers.py:108-114 | the summary reads back as title, URL and a blank line per entry |
| Summarise.ListingEnds | bin/summarise_papers.py:109-116 | the listing is empty exactly when there are no entries, and otherwise ends with a line break |
| Summarise.SourceNames | bin/summarise_papers.py:121-124 | the missing-file messages name arxiv, bioRxiv and pubmed |
| Summarise.SourceNameOf | bin/summarise_papers.py:123 | the second `_`-token of an output file's base name is the source in its path |
| Summarise.Summarise | bin/summarise_papers.py:65-124 | help; or the sort failure; or the output text (the listing, or the no-entries line) and the sources of the missing files |
| Summarise.ExtractAll | bin/summarise_papers.py:99-102 | the entries of the existing files, arXiv first, then bioRxiv, then PubMed |
| Summarise.MissingMessages | bin/summarise_papers.py:121-124 | one source name per missing file, in file order |
| Consolidation.RecordReadsBack | bin/summarise_papers.py:75-96 | a record with a clean title, date and URL, whose other lines are skipped by the parser, reads back as one entry with that title, the parsed date and that URL |
| Consolidation.ArxivRecordReadsBack | bin/arXiv_retrieve.py:165-173 | an arXiv record reads back as the cleaned title, the publication day and the link |
| Consolidation.ArxivFileReadsBack | bin/arXiv_retrieve.py:186-188 | the arXiv output file reads back as the entries of its records, in the order written |
| Consolidation.BioRxivRecordReadsBack | bin/bioRxiv_retrieve.py:177-184 | a bioRxiv record reads back as its title, parsed date and `https://doi.org/<doi>` |
| Consolidation.PubMedRecordReadsBack | bin/PubMed_retrieve.py:229-236 | a PubMed record reads back as its title, parsed date text and link; the Authors and Journal lines are skipped |
| Consolidation.UndatedArticleKept | bin/PubMed_retrieve.py:208-211 | an article without a year reads back with no date and is still kept |
| Keyrings.Keyring.SetPassword | bin/twitter_setup.py:111 | the entry is replaced, reads back as the new password, and every other entry is kept |
| TwitterPapers.CheckErrors | bin/twitter_papers.py:42-57 | both problems are collected: the key error exactly when the key is missing, the file error exactly when the file is missing, key error first |
| TwitterPapers.NonBlank | bin/twitter_papers.py:113 | the kept lines are never longer than the file, and each is non-empty and stripped |
| TwitterPapers.NonBlankMembers | bin/twitter_papers.py:113 | a text is kept exactly when it is non-empty and some line of the file strips to it |
| TwitterPapers.NonBlankAppend | bin/twitter_papers.py:113 | the lines of a first part of the file come before those of the rest: file order is kept |
| TwitterPapers.Tweets | bin/twitter_papers.py:116-120 | there is one tweet per pair of lines, `len(lines) // 2` in all |
| TwitterPapers.PostPairs | bin/twitter_papers.py:116-127 | tweet i is line 2i, a line break, and line 2i+1; every pair is posted whatever happened to earlier ones; an odd last line is reported as a title without URL |
| TwitterPapers.Run | bin/twitter_papers.py:87-127 | help; or the collected errors; or the missing-credentials error; or every tweet attempted with its result and the unpaired line |
| TwitterPapers.AbortIff | bin/twitter_papers.py:94-106 | without `--help`, the script exits 1 exactly when the key is missing, the file is missing, or one of the five credentials is missing or empty |
| TwitterPapers.SummaryTweets | bin/twitter_papers.py:113-120 | a summary written by `summarise_papers.py` is tweeted as one tweet per entry, title and URL, in summary order, with no unpaired line |
| TwitterPapers.NoEntriesWarned | bin/summarise_papers.py:116 | the no-entries summary is one unpaired line: no tweet is made and that line is warned about |
| EmailPapers.Partition | bin/email_papers.py:111-127 | a path is attached exactly when it exists and could be read, and is missing exactly when it does not exist; both lists keep list order |
| EmailPapers.MissingSources | bin/email_papers.py:130-138 | the loop gives the source of each missing path, in order |
| EmailPapers.AttachmentSources | bin/email_papers.py:131-138 | the three output files are reported as arXiv, bioRxiv and PubMed: the bioRxiv path does not contain "arxiv" and the PubMed path contains neither earlier needle |
| EmailPapers.BodyShape | bin/email_papers.py:101-141 | the summary opens the body; the body is the summary alone exactly when nothing is missing; otherwise each missing source's note line is in it |
| EmailPapers.Run | bin/email_papers.py:68-158 | the script yields a usage error, help, an abort message, or the mail sent and whether delivery succeeded |
| EmailPapers.AbortIff | bin/email_papers.py:80-96 | with an accepted service and no `--help`, the script exits 1 exactly when a flag is missing, the summary is missing, or either credential is missing or empty |
| EmailPapers.SentMail | bin/email_papers.py:98-158 | a sent mail goes to the receiver with the fixed subject on port 587, through Office 365 exactly for Outlook; it attaches exactly the readable existing files in order; its body is the summary alone exactly when all three files exist |
| TwitterSetup.MissingFields | bin/twitter_setup.py:44-45 | the missing fields are exactly the required ones absent from the file, in the required order |
| TwitterSetup.ValidationIff | bin/twitter_setup.py:47-48 | validation fails exactly when a required field is absent, and the message names every absent field |
| TwitterSetup.QuotesStripped | bin/twitter_setup.py:104-108 | `strip('"')` removes every leading and trailing quote and nothing else; the result neither starts nor ends with a quote; stripping again changes nothing |
| TwitterSetup.Credentials | bin/twitter_setup.py:104-108 | one value to store per required field, five in all |
| TwitterSetup.ReadBack | bin/twitter_setup.py:111-124 | after the five writes, each field reads back as its stored value, whatever the keyring held before, and every other entry is kept |
| TwitterSetup.Verified | bin/twitter_setup.py:120-135 | the read-back check succeeds exactly when all five stored values are non-empty |
| TwitterSetup.Setup | bin/twitter_setup.py:78-135 | help; or the missing name, missing file or validation message with the keyring untouched; or the five values stored and the verification result |
| TwitterSetup.ExtractCredentials | bin/twitter_setup.py:104-108 | the five quote-stripped values, in field order |
| TwitterSetup.StoreAll | bin/twitter_setup.py:111-115 | after the five `set_password` calls the keyring is its old content with the five entries written over it |
| TwitterSetup.ReadAll | bin/twitter_setup.py:120-124 | the five `get_password` calls return the keyring's values for the five fields |

## Left out

- Network access: Entrez, `requests`, `feedparser`, tweepy and `smtplib` are function parameters. The model does not cover their errors beyond the failure outcomes the scripts handle, or their wire formats (JSON, XML, Atom).
- Termination of the paging loops depends on the upstream. `PubMed.Pages`, `BioRxiv.Pages` and `ArXiv.Pages` take a `fuel` bound, and runs that exhaust it end with an out-of-fuel marker that the scripts do not have.
- `configparser`: the keyword and credentials files are given as maps. Its parsing, its lower-casing of keys and its value syntax are not modelled.
- `argparse`: flags are given as parsed values. Usage text, `--help` output, banners, `--quiet` and every `print` are left out. For `email_papers.py` the `choices` check appears only as a usage-error outcome.
- The file system: a file is its text or `None`. Universal newline translation is not modelled, so lines are split at `\n` only. `open` failures other than the attachment read in `email_papers.py` are not modelled.
- The clock: "now" and the arXiv cut-off are parameters. `timedelta` arithmetic and the `%Y/%m/%d` search dates sent to Entrez and bioRxiv are not modelled.
- ArXiv.Accepted: the cut-off is one moment for the whole run. `arXiv_retrieve.py` reads the clock again for every entry, so its cut-off moves forward while the run goes on, and an entry near the boundary can pass early in a run and fail later. The model does not capture that drift.
- `lower()` and `capitalize()` map ASCII letters only, and the `%Y`, `%m` and `%d` fields of `Dates.ParseIso` accept ASCII digits only, where `strptime` also accepts other Unicode decimal digits; the dates read back are the ones the retrieval scripts wrote, which are ASCII.
- MIME construction and base64 encoding of the attachments are left out. The mail is a record of sender, receiver, subject, body and attachment paths.
- bin/email_setup.py is not part of this model.
- An article whose `AbstractText` list is empty makes Python raise. The model always takes the first `AbstractText`, or "No Abstract" when there is none, and does not model that crash.
- A `published` text that `strptime` rejects makes `arXiv_retrieve.py` raise. The model takes the parsed moment as given.
- Crashes in general are not modelled: a `KeyError` on a missing `title` or `doi`, or `int()` of a malformed `Count`. The sort failure in `summarise_papers.py` is the exception: it appears as the `SortFailed` outcome.
- In `email_papers.py`, a path that exists but cannot be read is neither attached nor listed as missing. The script reports it and goes on, and the model does the same.
- TwitterPapers.PostPairs: the post outcome is a function of the tweet text alone, so two identical tweets get the same answer. Twitter's rejection of a repeated status, which can happen when the same record was written twice, is not modelled.
- The PubMed year test compares against the text "No Year", so a year that is literally "No Year" also gives "Unknown Date". The model follows the code.
