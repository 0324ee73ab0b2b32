// bin/email_papers.py: check the flags, the summary file and the mail
// credentials, attach whichever of the three retrieval outputs exist, add a
// note naming the sources whose output is missing to the summary text, and
// send the result through the SMTP server of the chosen service.
//
// Files are parameters: the summary's text (`None` when it does not exist),
// the set of paths that exist and, among those, the ones that cannot be
// read. Sending is a parameter too: `deliver(host, port, email, password)`
// stands for the SMTP session (STARTTLS, login and `sendmail`) and tells
// whether it succeeded.
module EmailPapers {
  import opened Wrappers
  import opened Text
  import opened Keyrings

  /** The values `--service` accepts. */
  const Services := ["outlook_service", "gmail_service"]

  const MainFile := "../output/titles_and_urls.txt"

  const Dir := "../output/latest_"

  const Tail := "_entries.txt"

  const AttachmentFiles := [
    Dir + "arxiv" + Tail,     // ../output/latest_arxiv_entries.txt
    Dir + "bioRxiv" + Tail,   // ../output/latest_bioRxiv_entries.txt
    Dir + "pubmed" + Tail]    // ../output/latest_pubmed_entries.txt

  const Subject := "Titles and URLs from the Latest Articles"

  const SmtpPort := 587

  const MissingFlagsError := "Error: --service and --receiver_email are required. Use --help for more information."

  const MissingMainError := "Error: '" + MainFile + "' does not exist. Please generate it before sending the email."

  function CredentialsError(service: string): string {
    "Failed to retrieve credentials for " + service + ". Please set them using 'email_setup.py'."
  }

  // ---------------------------------------------------------------------
  // Attachments

  /** The paths that exist and could be read: attached. */
  function Attached(paths: seq<string>, present: set<string>, unreadable: set<string>): seq<string> {
    Filter(paths, p => p in present && p !in unreadable)
  }

  /** The paths that do not exist: `missing_files`. */
  function Missing(paths: seq<string>, present: set<string>): seq<string> {
    Filter(paths, p => p !in present)
  }

  /** The paths that exist but whose reading failed: reported and skipped. */
  function Failed(paths: seq<string>, present: set<string>, unreadable: set<string>): seq<string> {
    Filter(paths, p => p in present && p in unreadable)
  }

  /** The `for attachment_file in attachment_files` loop. Each path is
      attached, or listed as missing, or (when reading it fails) reported and
      skipped, and the loop goes on after a failure; both lists keep the
      order of the paths. */
  method Partition(paths: seq<string>, present: set<string>, unreadable: set<string>)
    returns (attached: seq<string>, missing: seq<string>, failed: seq<string>)
    ensures attached == Attached(paths, present, unreadable)
    ensures missing == Missing(paths, present)
    ensures failed == Failed(paths, present, unreadable)
    ensures forall p :: p in paths ==> (p in attached <==> p in present && p !in unreadable)
    ensures forall p :: p in paths ==> (p in missing <==> p !in present)
    ensures forall p :: p in attached || p in missing || p in failed ==> p in paths
    ensures Subsequence(attached, paths) && Subsequence(missing, paths)
  {
    attached, missing, failed := [], [], [];
    for i := 0 to |paths|
      invariant attached == Attached(paths[..i], present, unreadable)
      invariant missing == Missing(paths[..i], present)
      invariant failed == Failed(paths[..i], present, unreadable)
    {
      assert paths[..i + 1][..i] == paths[..i];
      var path := paths[i];
      if path in present {
        if path !in unreadable {
          attached := attached + [path];
        } else {
          failed := failed + [path];
        }
      } else {
        missing := missing + [path];
      }
    }
    assert paths[..|paths|] == paths;
  }

  // ---------------------------------------------------------------------
  // Missing files named by source

  /** The source a missing path is reported under: the first of `arxiv`,
      `biorxiv` and `pubmed` found in the lower-cased path; none otherwise. */
  function SourceOf(path: string): Option<string> {
    if ContainsCI(path, "arxiv") then Some("arXiv")
    else if ContainsCI(path, "biorxiv") then Some("bioRxiv")
    else if ContainsCI(path, "pubmed") then Some("PubMed")
    else None
  }

  /** `missing_sources`: the sources of the missing paths, in order; a path
      naming no source adds nothing. */
  function SourcesOf(paths: seq<string>): seq<string>
    decreases |paths|
  {
    if paths == [] then []
    else
      var n := |paths| - 1;
      SourcesOf(paths[..n]) + (match SourceOf(paths[n]) case Some(s) => [s] case None => [])
  }

  /** The loop that builds `missing_sources`. */
  method MissingSources(missing: seq<string>) returns (sources: seq<string>)
    ensures sources == SourcesOf(missing)
  {
    sources := [];
    for i := 0 to |missing|
      invariant sources == SourcesOf(missing[..i])
    {
      assert missing[..i + 1][..i] == missing[..i];
      var lowered := Lower(missing[i]);
      if Contains(lowered, Lower("arxiv")) {
        sources := sources + ["arXiv"];
      } else if Contains(lowered, Lower("biorxiv")) {
        sources := sources + ["bioRxiv"];
      } else if Contains(lowered, Lower("pubmed")) {
        sources := sources + ["PubMed"];
      }
    }
    assert missing[..|missing|] == missing;
  }

  /** Each output file is reported under its own source: the bioRxiv path
      does not contain "arxiv", so the order of the tests does no harm. */
  lemma {:induction false} AttachmentSources()
    ensures SourceOf(AttachmentFiles[0]) == Some("arXiv")
    ensures SourceOf(AttachmentFiles[1]) == Some("bioRxiv")
    ensures SourceOf(AttachmentFiles[2]) == Some("PubMed")
  {
    ArxivPathSource();
    BioRxivPathSource();
    PubMedPathSource();
  }

  lemma {:induction false} LowerOfLower(s: string)
    requires forall k :: 0 <= k < |s| ==> !('A' <= s[k] <= 'Z')
    ensures Lower(s) == s
  {
  }

  lemma {:induction false} NeedlesLower()
    ensures Lower("arxiv") == "arxiv" && Lower("biorxiv") == "biorxiv" && Lower("pubmed") == "pubmed"
  {
    LowerOfLower("arxiv");
    LowerOfLower("biorxiv");
    LowerOfLower("pubmed");
  }

  lemma {:induction false} BioRxivLower()
    ensures Lower("bioRxiv") == "biorxiv"
  {
  }

  lemma {:induction false} DirLower()
    ensures Lower(Dir) == Dir
  {
    LowerOfLower(Dir);
  }

  lemma {:induction false} TailLower()
    ensures Lower(Tail) == Tail
  {
    LowerOfLower(Tail);
  }

  /** The lower-cased path of a source's output file. */
  lemma {:induction false} LoweredPath(name: string, lowered: string)
    requires Lower(Dir) == Dir && Lower(Tail) == Tail && Lower(name) == lowered
    ensures Lower(Dir + name + Tail) == Dir + lowered + Tail
    ensures (Dir + lowered + Tail)[17..17 + |lowered|] == lowered
  {
    LowerAppend(Dir + name, Tail);
    LowerAppend(Dir, name);
  }

  lemma {:induction false} ArxivPathSource()
    ensures SourceOf(AttachmentFiles[0]) == Some("arXiv")
  {
    DirLower();
    TailLower();
    NeedlesLower();
    LoweredPath("arxiv", "arxiv");
    ContainsAt(Dir + "arxiv" + Tail, "arxiv", 17);
  }

  lemma {:induction false} BioRxivPathSource()
    ensures SourceOf(AttachmentFiles[1]) == Some("bioRxiv")
  {
    DirLower();
    TailLower();
    BioRxivLower();
    NeedlesLower();
    LoweredPath("bioRxiv", "biorxiv");
    NoOtherSourceInPath("biorxiv", "arxiv", 11);
    ContainsAt(Dir + "biorxiv" + Tail, "biorxiv", 17);
  }

  lemma {:induction false} PubMedPathSource()
    ensures SourceOf(AttachmentFiles[2]) == Some("PubMed")
  {
    DirLower();
    TailLower();
    NeedlesLower();
    LoweredPath("pubmed", "pubmed");
    NoOtherSourceInPath("pubmed", "arxiv", 11);
    NoOtherSourceInPath("pubmed", "biorxiv", 19);
    ContainsAt(Dir + "pubmed" + Tail, "pubmed", 17);
  }

  /** The needle of one source is not in the lower-cased output path of
      another: in the path the needle's first letter occurs only at `only`,
      and is not followed there by the needle's second letter. */
  lemma {:induction false} NoOtherSourceInPath(name: string, needle: string, only: int)
    requires (name, needle, only) in [("biorxiv", "arxiv", 11), ("pubmed", "arxiv", 11), ("pubmed", "biorxiv", 19)]
    ensures !Contains(Dir + name + Tail, needle)
  {
    var h := Dir + name + Tail;
    assert h == "../output/latest_" + name + "_entries.txt";
    forall k | 0 <= k < |h| - 1 && h[k] == needle[0] ensures h[k + 1] != needle[1] {
      assert k == only;
    }
    AbsentPair(h, needle);
  }

  // ---------------------------------------------------------------------
  // The body

  function NoteLine(source: string): string {
    "No entries found from " + source + "."
  }

  /** `"\n".join(...)` of the note lines. */
  function Note(sources: seq<string>): string {
    Join(seq(|sources|, i requires 0 <= i < |sources| => NoteLine(sources[i])), "\n")
  }

  /** The mail body: the summary text, and when some output file is missing,
      a blank line and the note naming the missing sources. */
  function Body(text: string, missing: seq<string>): string {
    if missing == [] then text else text + "\n\n" + Note(SourcesOf(missing))
  }

  /** The summary text always opens the body; it is the whole body exactly
      when no file is missing, and otherwise every missing source's note
      line is in it. */
  lemma {:induction false} BodyShape(text: string, missing: seq<string>)
    ensures text <= Body(text, missing)
    ensures Body(text, missing) == text <==> missing == []
    ensures forall i :: 0 <= i < |SourcesOf(missing)| ==>
      Contains(Body(text, missing), NoteLine(SourcesOf(missing)[i]))
  {
    var body := Body(text, missing);
    if missing != [] {
      var sources := SourcesOf(missing);
      var lines := seq(|sources|, i requires 0 <= i < |sources| => NoteLine(sources[i]));
      assert |body| > |text|;
      assert body[..|text|] == text;
      forall i | 0 <= i < |sources| ensures Contains(body, NoteLine(sources[i])) {
        JoinHasPart(lines, "\n", i);
        assert lines[i] == NoteLine(sources[i]);
        ContainsInRight(text + "\n\n", Note(sources), NoteLine(sources[i]));
      }
    }
  }

  // ---------------------------------------------------------------------
  // The server

  /** `smtp_server`: Office 365 for the Outlook service, Gmail for any other. */
  function SmtpHost(service: string): (host: string)
    ensures host == "smtp.office365.com" <==> service == "outlook_service"
    ensures host == "smtp.gmail.com" <==> service != "outlook_service"
  {
    if service == "outlook_service" then "smtp.office365.com" else "smtp.gmail.com"
  }

  // ---------------------------------------------------------------------
  // The whole script

  datatype Email = Email(sender: string, receiver: string, subject: string, body: string, attachments: seq<string>)

  type Deliver = (string, int, Email, string) -> bool

  datatype Outcome =
    | UsageError
    | HelpShown
    | Aborted(message: string)
    | Sent(host: string, port: int, email: Email, delivered: bool)

  function RunSpec(help: bool, service: Option<string>, receiver: Option<string>, main: Option<string>,
                   ring: Store, present: set<string>, unreadable: set<string>, deliver: Deliver): Outcome
  {
    if service.Some? && service.value !in Services then UsageError
    else if help then HelpShown
    else if !Truthy(service) || !Truthy(receiver) then Aborted(MissingFlagsError)
    else if main.None? then Aborted(MissingMainError)
    else
      var sender := Lookup(ring, service.value, "email_username");
      var password := Lookup(ring, service.value, "email_password");
      if !Truthy(sender) || !Truthy(password) then Aborted(CredentialsError(service.value))
      else
        var email := Email(sender.value, receiver.value, Subject,
                           Body(main.value, Missing(AttachmentFiles, present)),
                           Attached(AttachmentFiles, present, unreadable));
        var host := SmtpHost(service.value);
        Sent(host, SmtpPort, email, deliver(host, SmtpPort, email, password.value))
  }

  method Run(help: bool, service: Option<string>, receiver: Option<string>, main: Option<string>,
             ring: Store, present: set<string>, unreadable: set<string>, deliver: Deliver)
    returns (o: Outcome)
    ensures o == RunSpec(help, service, receiver, main, ring, present, unreadable, deliver)
  {
    if service.Some? && service.value !in Services {
      return UsageError;
    }
    if help {
      return HelpShown;
    }
    if !Truthy(service) || !Truthy(receiver) {
      return Aborted(MissingFlagsError);
    }
    if main.None? {
      return Aborted(MissingMainError);
    }
    var sender := Lookup(ring, service.value, "email_username");
    var password := Lookup(ring, service.value, "email_password");
    if !Truthy(sender) || !Truthy(password) {
      return Aborted(CredentialsError(service.value));
    }
    var body := main.value;
    var attached, missing, failed := Partition(AttachmentFiles, present, unreadable);
    if missing != [] {
      var sources := MissingSources(missing);
      var info := Join(seq(|sources|, i requires 0 <= i < |sources| => NoteLine(sources[i])), "\n");
      body := body + "\n\n" + info;
    }
    var email := Email(sender.value, receiver.value, Subject, body, attached);
    var host := if service.value == "outlook_service" then "smtp.office365.com" else "smtp.gmail.com";
    var delivered := deliver(host, SmtpPort, email, password.value);
    o := Sent(host, SmtpPort, email, delivered);
  }

  /** With an accepted service and no `--help`, the checks stop the script
      with exit code 1 exactly when a flag is missing, the summary file is
      missing, or either credential is missing or empty — reported in that
      order; otherwise one mail is sent. */
  lemma {:induction false} AbortIff(service: Option<string>, receiver: Option<string>, main: Option<string>,
                                    ring: Store, present: set<string>, unreadable: set<string>, deliver: Deliver)
    requires service.None? || service.value in Services
    ensures var o := RunSpec(false, service, receiver, main, ring, present, unreadable, deliver);
      && (o.Aborted? <==>
            service.None? || !Truthy(receiver) || main.None?
            || !Truthy(Lookup(ring, service.value, "email_username"))
            || !Truthy(Lookup(ring, service.value, "email_password")))
      && (o.Aborted? && (service.None? || !Truthy(receiver)) ==> o.message == MissingFlagsError)
      && (o.Aborted? && service.Some? && Truthy(receiver) && main.None? ==> o.message == MissingMainError)
      && (!o.Aborted? ==> o.Sent?)
  {
  }

  /** A sent mail goes to the receiver given, through Office 365 exactly for
      the Outlook service, on port 587; it carries exactly the output files
      that exist and could be read, in their fixed order; and its body is the
      summary text, extended only when an output file is missing. */
  lemma {:induction false} SentMail(help: bool, service: Option<string>, receiver: Option<string>, main: Option<string>,
                                    ring: Store, present: set<string>, unreadable: set<string>, deliver: Deliver)
    requires RunSpec(help, service, receiver, main, ring, present, unreadable, deliver).Sent?
    ensures var o := RunSpec(help, service, receiver, main, ring, present, unreadable, deliver);
      && o.email.receiver == receiver.value && o.email.subject == Subject
      && (o.host == "smtp.office365.com" <==> service.value == "outlook_service")
      && o.port == 587
      && (forall p :: p in o.email.attachments <==> p in AttachmentFiles && p in present && p !in unreadable)
      && Subsequence(o.email.attachments, AttachmentFiles)
      && main.value <= o.email.body
      && (o.email.body == main.value <==> forall p :: p in AttachmentFiles ==> p in present)
  {
    var o := RunSpec(help, service, receiver, main, ring, present, unreadable, deliver);
    var missing := Missing(AttachmentFiles, present);
    BodyShape(main.value, missing);
    if missing == [] {
      forall p | p in AttachmentFiles ensures p in present {
        assert p !in missing;
      }
    } else {
      assert missing[0] in missing;
    }
  }
}
