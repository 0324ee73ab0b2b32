// bin/twitter_papers.py: check the credentials key flag and the summary
// file, read the five Twitter credentials from the keyring, then post the
// summary's non-blank lines two at a time — a title and its URL — as one
// tweet each.
//
// Posting is a parameter: `post(text)` stands for `client.create_tweet` and
// tells whether it succeeded (a failure is the `TweepyException` the script
// catches and reports).
module TwitterPapers {
  import opened Wrappers
  import opened Text
  import opened Keyrings
  import Summarise

  const TitlesFile := "../output/titles_and_urls.txt"

  const MissingKeyError := "Error: --credentials_key flag is required."

  const MissingFileError := "Error: The file '" + TitlesFile + "' does not exist."

  function CredentialsError(key: string): string {
    "Error: One or more credentials are missing for the key '" + key + "'."
  }

  // ---------------------------------------------------------------------
  // check_errors

  /** The messages of `check_errors`, in the order it checks. */
  function Errors(key: Option<string>, fileExists: bool): seq<string> {
    (if Truthy(key) then [] else [MissingKeyError]) + (if fileExists then [] else [MissingFileError])
  }

  /** `check_errors`: both problems are collected before the script exits,
      the missing flag first. */
  method CheckErrors(key: Option<string>, fileExists: bool) returns (errors: seq<string>)
    ensures errors == Errors(key, fileExists)
    ensures MissingKeyError in errors <==> !Truthy(key)
    ensures MissingFileError in errors <==> !fileExists
    ensures |errors| == (if Truthy(key) then 0 else 1) + (if fileExists then 0 else 1)
    ensures |errors| == 2 ==> errors == [MissingKeyError, MissingFileError]
  {
    errors := [];
    if !Truthy(key) {
      errors := errors + [MissingKeyError];
    }
    if !fileExists {
      errors := errors + [MissingFileError];
    }
    assert MissingKeyError[7] != MissingFileError[7];
  }

  // ---------------------------------------------------------------------
  // Reading the summary

  /** `[line.strip() for line in file if line.strip()]` over lines already
      split off: each line stripped, the blank ones dropped, the order
      kept. */
  function NonBlank(ls: seq<string>): (r: seq<string>)
    ensures |r| <= |ls|
    ensures forall i :: 0 <= i < |r| ==> r[i] != "" && IsStripped(r[i])
    decreases |ls|
  {
    if ls == [] then []
    else
      var n := |ls| - 1;
      StripIsStripped(ls[n]);
      NonBlank(ls[..n]) + (if Strip(ls[n]) != "" then [Strip(ls[n])] else [])
  }

  /** A text is among the kept lines exactly when it is not blank and it is
      some line of the file, stripped. */
  lemma {:induction false} NonBlankMembers(ls: seq<string>, x: string)
    ensures x in NonBlank(ls) <==> x != "" && exists j :: 0 <= j < |ls| && Strip(ls[j]) == x
    decreases |ls|
  {
    if ls != [] {
      var n := |ls| - 1;
      var front := NonBlank(ls[..n]);
      var tail := if Strip(ls[n]) != "" then [Strip(ls[n])] else [];
      assert NonBlank(ls) == front + tail;
      NonBlankMembers(ls[..n], x);
      if x in front {
        var j :| 0 <= j < n && Strip(ls[..n][j]) == x;
        assert ls[..n][j] == ls[j];
      }
      if x != "" && exists j :: 0 <= j < |ls| && Strip(ls[j]) == x {
        var j :| 0 <= j < |ls| && Strip(ls[j]) == x;
        if j < n {
          assert ls[..n][j] == ls[j];
          assert x in front;
        } else {
          assert j == n && tail == [x];
        }
      }
    }
  }

  /** The lines are kept in file order: those of a first part of the file
      come before those of the rest. */
  lemma {:induction false} NonBlankAppend(a: seq<string>, b: seq<string>)
    ensures NonBlank(a + b) == NonBlank(a) + NonBlank(b)
    decreases |b|
  {
    if b == [] {
      assert a + b == a;
    } else {
      var n := |b| - 1;
      assert (a + b)[..|a + b| - 1] == a + b[..n];
      NonBlankAppend(a, b[..n]);
    }
  }

  /** The lines the script tweets from. */
  function FileLines(text: string): seq<string> {
    NonBlank(Lines(text))
  }

  // ---------------------------------------------------------------------
  // Pairing lines into tweets

  /** What happened to one tweet: its text and whether posting succeeded. */
  datatype Attempt = Attempt(tweet: string, posted: bool)

  /** `f"{title}\n{url}"` */
  function Tweet(title: string, url: string): string {
    title + "\n" + url
  }

  /** The tweets made from the lines: lines 2i and 2i+1 form tweet i. */
  function Tweets(lines: seq<string>): (ts: seq<string>)
    ensures |ts| == |lines| / 2
  {
    seq(|lines| / 2, i requires 0 <= i < |lines| / 2 => Tweet(lines[2 * i], lines[2 * i + 1]))
  }

  /** The last line of an odd number of lines: a title without a URL. */
  function Unpaired(lines: seq<string>): Option<string> {
    if |lines| % 2 == 1 then Some(lines[|lines| - 1]) else None
  }

  /** The `for i in range(0, len(lines), 2)` loop: every pair is posted in
      order, a failed post does not stop the later ones, and an odd last
      line is reported (the warning) and never posted. */
  method PostPairs(lines: seq<string>, post: string -> bool) returns (attempts: seq<Attempt>, unpaired: Option<string>)
    ensures |attempts| == |lines| / 2
    ensures forall i :: 0 <= i < |attempts| ==>
      attempts[i] == Attempt(Tweet(lines[2 * i], lines[2 * i + 1]), post(Tweet(lines[2 * i], lines[2 * i + 1])))
    ensures unpaired == Unpaired(lines)
  {
    attempts := [];
    unpaired := None;
    var i := 0;
    while i < |lines|
      invariant i % 2 == 0 && 0 <= i <= |lines| + 1
      invariant i > |lines| ==> |lines| % 2 == 1
      invariant |attempts| == (if i <= |lines| then i / 2 else |lines| / 2)
      invariant forall k :: 0 <= k < |attempts| ==>
        attempts[k] == Attempt(Tweet(lines[2 * k], lines[2 * k + 1]), post(Tweet(lines[2 * k], lines[2 * k + 1])))
      invariant unpaired == (if i > |lines| then Some(lines[|lines| - 1]) else None)
    {
      if i + 1 < |lines| {
        var tweet := lines[i] + "\n" + lines[i + 1];
        var ok := post(tweet);
        attempts := attempts + [Attempt(tweet, ok)];
      } else {
        unpaired := Some(lines[i]);
      }
      i := i + 2;
    }
  }

  // ---------------------------------------------------------------------
  // The whole script

  datatype Outcome =
    | HelpShown
    | Aborted(messages: seq<string>)
    | Tweeted(attempts: seq<Attempt>, unpaired: Option<string>)

  function Attempts(tweets: seq<string>, post: string -> bool): (r: seq<Attempt>)
    ensures |r| == |tweets|
  {
    seq(|tweets|, i requires 0 <= i < |tweets| => Attempt(tweets[i], post(tweets[i])))
  }

  /** `file` is the summary's text, or `None` when it does not exist. */
  function RunSpec(help: bool, key: Option<string>, file: Option<string>, ring: Store, post: string -> bool): Outcome {
    if help then HelpShown
    else if !Truthy(key) || file.None? then Aborted(Errors(key, file.Some?))
    else if !AllTruthy(LookupAll(ring, key.value, TwitterFields)) then Aborted([CredentialsError(key.value)])
    else
      var lines := FileLines(file.value);
      Tweeted(Attempts(Tweets(lines), post), Unpaired(lines))
  }

  method Run(help: bool, key: Option<string>, file: Option<string>, ring: Store, post: string -> bool)
    returns (o: Outcome)
    ensures o == RunSpec(help, key, file, ring, post)
  {
    if help {
      return HelpShown;
    }
    var errors := CheckErrors(key, file.Some?);
    if errors != [] {
      return Aborted(errors);
    }
    var service := key.value;
    var credentials := ReadCredentials(ring, service);
    if !AllTruthy(credentials) {
      return Aborted([CredentialsError(service)]);
    }
    var lines := NonBlank(Lines(file.value));
    var attempts, unpaired := PostPairs(lines, post);
    PostedAll(lines, post, attempts);
    o := Tweeted(attempts, unpaired);
  }

  /** The five `keyring.get_password` calls. */
  method ReadCredentials(ring: Store, service: string) returns (credentials: seq<Option<string>>)
    ensures credentials == LookupAll(ring, service, TwitterFields)
  {
    var bearerToken := Lookup(ring, service, "bearer_token");
    var apiKey := Lookup(ring, service, "api_key");
    var apiKeySecret := Lookup(ring, service, "api_key_secret");
    var accessToken := Lookup(ring, service, "access_token");
    var accessTokenSecret := Lookup(ring, service, "access_token_secret");
    credentials := [bearerToken, apiKey, apiKeySecret, accessToken, accessTokenSecret];
  }

  lemma {:induction false} PostedAll(lines: seq<string>, post: string -> bool, attempts: seq<Attempt>)
    requires |attempts| == |lines| / 2
    requires forall i :: 0 <= i < |attempts| ==>
      attempts[i] == Attempt(Tweet(lines[2 * i], lines[2 * i + 1]), post(Tweet(lines[2 * i], lines[2 * i + 1])))
    ensures attempts == Attempts(Tweets(lines), post)
  {
  }

  /** Without `--help`, the script stops with exit code 1 exactly when the
      key flag or the summary file is missing, or one of the five
      credentials is missing or empty; nothing is posted then. */
  lemma {:induction false} AbortIff(key: Option<string>, file: Option<string>, ring: Store, post: string -> bool)
    ensures RunSpec(false, key, file, ring, post).Aborted? <==>
      !Truthy(key) || file.None? ||
      exists i :: 0 <= i < |TwitterFields| && !Truthy(Lookup(ring, key.value, TwitterFields[i]))
  {
    if Truthy(key) && file.Some? {
      var vs := LookupAll(ring, key.value, TwitterFields);
      if !AllTruthy(vs) {
        var i :| 0 <= i < |vs| && !Truthy(vs[i]);
        assert !Truthy(Lookup(ring, key.value, TwitterFields[i]));
      }
    }
  }

  // ---------------------------------------------------------------------
  // Round trip with the summary

  /** An entry whose title and URL survive the trip: not blank, without
      surrounding blanks, on one line. */
  predicate Tweetable(e: Summarise.Entry) {
    e.title != "" && IsStripped(e.title) && NoNewline(e.title)
    && e.url != "" && IsStripped(e.url) && NoNewline(e.url)
  }

  /** The kept lines of the summary listing: title and URL of each entry,
      in the summary's order. */
  lemma {:induction false} ListingKeptLines(es: seq<Summarise.Entry>)
    requires forall i :: 0 <= i < |es| ==> Tweetable(es[i])
    ensures |FileLines(Summarise.Listing(es))| == 2 * |es|
    ensures forall i :: 0 <= i < |es| ==>
      FileLines(Summarise.Listing(es))[2 * i] == es[i].title &&
      FileLines(Summarise.Listing(es))[2 * i + 1] == es[i].url
  {
    Summarise.ListingLines(es);
    PairLinesKept(es);
  }

  lemma {:induction false} PairLinesKept(es: seq<Summarise.Entry>)
    requires forall i :: 0 <= i < |es| ==> Tweetable(es[i])
    ensures |NonBlank(Summarise.PairLines(es))| == 2 * |es|
    ensures forall i :: 0 <= i < |es| ==>
      NonBlank(Summarise.PairLines(es))[2 * i] == es[i].title &&
      NonBlank(Summarise.PairLines(es))[2 * i + 1] == es[i].url
    decreases |es|
  {
    if es != [] {
      var n := |es| - 1;
      var e := es[n];
      PairLinesKept(es[..n]);
      NonBlankAppend(Summarise.PairLines(es[..n]), [e.title, e.url, ""]);
      ThreeLinesKept(e);
      var front := NonBlank(Summarise.PairLines(es[..n]));
      var r := NonBlank(Summarise.PairLines(es));
      assert Summarise.PairLines(es) == Summarise.PairLines(es[..n]) + [e.title, e.url, ""];
      assert r == front + [e.title, e.url];
      forall i | 0 <= i < |es|
        ensures r[2 * i] == es[i].title && r[2 * i + 1] == es[i].url
      {
        if i < n {
          assert es[..n][i] == es[i];
          assert r[2 * i] == front[2 * i] && r[2 * i + 1] == front[2 * i + 1];
        } else {
          assert r[2 * i] == e.title && r[2 * i + 1] == e.url;
        }
      }
    }
  }

  lemma {:induction false} ThreeLinesKept(e: Summarise.Entry)
    requires Tweetable(e)
    ensures NonBlank([e.title, e.url, ""]) == [e.title, e.url]
  {
    StripOfStripped(e.title);
    StripOfStripped(e.url);
    assert Strip("") == "";
    var ls := [e.title, e.url, ""];
    assert ls[..2] == [e.title, e.url] && [e.title, e.url][..1] == [e.title] && [e.title][..0] == [];
    assert NonBlank([e.title]) == [e.title];
    assert NonBlank([e.title, e.url]) == [e.title] + [e.url];
    assert NonBlank(ls) == NonBlank([e.title, e.url]);
  }

  /** Tweeting a summary listing posts, for each entry in the summary's
      order, its title and URL as one tweet, and warns about nothing. */
  lemma {:induction false} SummaryTweets(es: seq<Summarise.Entry>)
    requires forall i :: 0 <= i < |es| ==> Tweetable(es[i])
    ensures var lines := FileLines(Summarise.Listing(es));
      && Tweets(lines) == seq(|es|, i requires 0 <= i < |es| => Tweet(es[i].title, es[i].url))
      && Unpaired(lines) == None
  {
    ListingKeptLines(es);
  }

  /** The summary written when no entries were found is one line: no tweet
      is posted and that line is reported as a title without a URL. */
  lemma {:induction false} NoEntriesWarned()
    ensures Tweets(FileLines(Summarise.NoEntries)) == []
    ensures Unpaired(FileLines(Summarise.NoEntries)) == Some(Summarise.NoEntriesLine)
  {
    var line := Summarise.NoEntriesLine;
    NoEntriesLineClean();
    LinesCons(line, "");
    assert line + "\n" + "" == Summarise.NoEntries;
    assert Lines("") == [];
    StripOfStripped(line);
    assert [line][..0] == [];
  }

  lemma {:induction false} NoEntriesLineClean()
    ensures NoNewline(Summarise.NoEntriesLine) && IsStripped(Summarise.NoEntriesLine)
    ensures Summarise.NoEntriesLine != ""
  {
    var line := Summarise.NoEntriesLine;
    assert forall k :: 0 <= k < |line| ==> line[k] in "No entriesfudthgvc.";
  }
}
