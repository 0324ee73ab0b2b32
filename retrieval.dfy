// What the three retrieval scripts share: the keyword file loader
// (`load_keywords_from_file`), the start-up check that aborts with exit code 1,
// the case-insensitive keyword tests and the output file they write.
module Retrieval {
  import opened Wrappers
  import opened Text

  /** A keyword file as `configparser` hands it over: for each section that is
      present, its keys in file order (the values are never used). */
  type Ini = map<string, seq<string>>

  datatype Keywords = Keywords(
    keywords: seq<string>,
    exclude: seq<string>,
    required: seq<string>,
    journals: seq<string>)

  /** The keys of a section, or nothing when the file has no such section. */
  function Section(ini: Ini, name: string): seq<string> {
    if name in ini then ini[name] else []
  }

  /** The dictionary `load_keywords_from_file` returns. */
  function Loaded(file: Option<Ini>, withJournals: bool): Option<Keywords> {
    if file.None? then None
    else Some(Keywords(
      Section(file.value, "keywords"),
      Section(file.value, "exclude_keywords"),
      Section(file.value, "required_keywords"),
      if withJournals then Section(file.value, "journals_of_interest") else []))
  }

  /** `load_keywords_from_file`: `None` when the file does not exist; otherwise
      each list holds its section's keys, or is empty when the section is
      absent. Only the PubMed loader has a `journals_of_interest` entry. */
  method LoadKeywords(file: Option<Ini>, withJournals: bool) returns (r: Option<Keywords>)
    ensures r == Loaded(file, withJournals)
    ensures r.None? <==> file.None?
    ensures r.Some? ==> r.value.keywords == Section(file.value, "keywords")
    ensures r.Some? ==> r.value.exclude == Section(file.value, "exclude_keywords")
    ensures r.Some? ==> r.value.required == Section(file.value, "required_keywords")
    ensures r.Some? ==>
      r.value.journals == (if withJournals then Section(file.value, "journals_of_interest") else [])
  {
    if file.None? {
      return None;
    }
    var ini := file.value;
    var kw := Keywords([], [], [], []);
    if "keywords" in ini {
      kw := kw.(keywords := ini["keywords"]);
    }
    if "exclude_keywords" in ini {
      kw := kw.(exclude := ini["exclude_keywords"]);
    }
    if "required_keywords" in ini {
      kw := kw.(required := ini["required_keywords"]);
    }
    if withJournals && "journals_of_interest" in ini {
      kw := kw.(journals := ini["journals_of_interest"]);
    }
    r := Some(kw);
  }

  // ---------------------------------------------------------------------
  // Start-up check

  datatype StartupError =
    | MissingFlag(flag: string)
    | MissingKeywordFile(path: string)
    | NoKeywords(path: string)

  /** The loaded configuration lets the script go on. */
  predicate Ready(loaded: Option<Keywords>) {
    loaded.Some? && loaded.value.keywords != []
  }

  /** One error per flag that was not given, in the order the flags are checked. */
  function FlagErrors(flags: seq<(string, bool)>): (errs: seq<StartupError>)
    ensures |errs| <= |flags|
    ensures errs == [] <==> forall i :: 0 <= i < |flags| ==> flags[i].1
    ensures forall k :: 0 <= k < |errs| ==> errs[k].MissingFlag?
  {
    if flags == [] then []
    else
      var last := flags[|flags| - 1];
      FlagErrors(flags[..|flags| - 1]) + (if last.1 then [] else [MissingFlag(last.0)])
  }

  /** Checking a list of flags and then more flags gives the errors of the
      first list followed by those of the second: the errors keep the order in
      which the flags are checked. */
  lemma {:induction false} FlagErrorsAppend(a: seq<(string, bool)>, b: seq<(string, bool)>)
    ensures FlagErrors(a + b) == FlagErrors(a) + FlagErrors(b)
    decreases |b|
  {
    if b == [] {
      assert a + b == a;
    } else {
      var b' := b[..|b| - 1];
      FlagErrorsAppend(a, b');
      assert (a + b)[..|a + b| - 1] == a + b';
      assert (a + b)[|a + b| - 1] == b[|b| - 1];
      var tail := if b[|b| - 1].1 then [] else [MissingFlag(b[|b| - 1].0)];
      SeqAssoc(FlagErrors(a), FlagErrors(b'), tail);
    }
  }

  /** A flag is named by an error exactly when it was checked and not given. */
  lemma {:induction false} FlagErrorsNames(flags: seq<(string, bool)>, name: string)
    ensures MissingFlag(name) in FlagErrors(flags) <==> (name, false) in flags
    decreases |flags|
  {
    if flags != [] {
      var init := flags[..|flags| - 1];
      var last := flags[|flags| - 1];
      FlagErrorsNames(init, name);
      assert flags == init + [last];
      var tail := if last.1 then [] else [MissingFlag(last.0)];
      assert FlagErrors(flags) == FlagErrors(init) + tail;
      assert MissingFlag(name) in tail <==> last == (name, false);
    }
  }


  function KeywordFileErrors(path: string, loaded: Option<Keywords>): seq<StartupError> {
    if loaded.None? then [MissingKeywordFile(path)]
    else if loaded.value.keywords == [] then [NoKeywords(path)]
    else []
  }

  /** The `errors` list each retrieval script builds before doing anything
      else: the missing flags in order, then the keyword file problem. A
      non-empty list ends the script with exit code 1. The scripts write one
      `if` per required flag; `flags` lists those flags in the order the
      scripts test them, so the loop makes the same checks in that order. */
  method StartupErrors(flags: seq<(string, bool)>, path: string, loaded: Option<Keywords>)
    returns (errors: seq<StartupError>)
    ensures errors == FlagErrors(flags) + KeywordFileErrors(path, loaded)
    ensures errors == [] <==> (forall i :: 0 <= i < |flags| ==> flags[i].1) && Ready(loaded)
    ensures loaded.None? ==> errors[|errors| - 1] == MissingKeywordFile(path)
  {
    errors := [];
    var i := 0;
    while i < |flags|
      invariant 0 <= i <= |flags|
      invariant errors == FlagErrors(flags[..i])
    {
      assert flags[..i + 1][..i] == flags[..i];
      if !flags[i].1 {
        errors := errors + [MissingFlag(flags[i].0)];
      }
      i := i + 1;
    }
    assert flags[..i] == flags;
    if loaded.None? {
      errors := errors + [MissingKeywordFile(path)];
    } else if loaded.value.keywords == [] {
      errors := errors + [NoKeywords(path)];
    }
  }

  // ---------------------------------------------------------------------
  // Keyword tests

  /** `any(n.lower() in text.lower() for n in needles)` */
  predicate AnyIn(text: string, needles: seq<string>)
    decreases |needles|
  {
    needles != [] && (ContainsCI(text, needles[0]) || AnyIn(text, needles[1..]))
  }

  /** `sum(n.lower() in text.lower() for n in needles)` */
  function Score(text: string, needles: seq<string>): nat
    decreases |needles|
  {
    if needles == [] then 0
    else (if ContainsCI(text, needles[0]) then 1 else 0) + Score(text, needles[1..])
  }

  lemma {:induction false} AnyInIff(text: string, needles: seq<string>)
    ensures AnyIn(text, needles) <==> exists i :: 0 <= i < |needles| && ContainsCI(text, needles[i])
    decreases |needles|
  {
    if needles != [] {
      AnyInIff(text, needles[1..]);
      if exists i :: 1 <= i < |needles| && ContainsCI(text, needles[i]) {
        var i :| 1 <= i < |needles| && ContainsCI(text, needles[i]);
        assert needles[1..][i - 1] == needles[i];
      }
    }
  }

  /** The "score" of required keywords is positive exactly when one of them
      occurs: the acceptance rule is any-match. */
  lemma {:induction false} ScorePositiveIff(text: string, needles: seq<string>)
    ensures Score(text, needles) > 0 <==> AnyIn(text, needles)
    ensures Score(text, needles) <= |needles|
    decreases |needles|
  {
    if needles != [] {
      ScorePositiveIff(text, needles[1..]);
    }
  }

  // ---------------------------------------------------------------------
  // Paging

  /** Each request position `step` past the one before. */
  predicate Spaced(s: seq<int>, step: int) {
    forall i, j :: 0 <= i < |s| && 0 <= j < |s| && j == i + 1 ==> s[j] == s[i] + step
  }

  lemma {:induction false} SpacedCons(x: int, s: seq<int>, step: int)
    requires Spaced(s, step) && (s != [] ==> s[0] == x + step)
    ensures Spaced([x] + s, step)
  {
    var r := [x] + s;
    forall i, j | 0 <= i < |r| && 0 <= j < |r| && j == i + 1 ensures r[j] == r[i] + step {
      if i > 0 {
        assert r[j] == s[i] && r[i] == s[i - 1];
      }
    }
  }

  // ---------------------------------------------------------------------
  // Output file

  /** The labels of an entry block hold no line break. */
  lemma {:induction false} LabelsOnOneLine()
    ensures '\n' !in "Title: " && '\n' !in "Authors: " && '\n' !in "Journal: "
    ensures '\n' !in "Date: " && '\n' !in "DOI: " && '\n' !in "URL: "
    ensures '\n' !in "URL: https://doi.org/" && '\n' !in "Abstract: "
  {
  }

  /** `file.writelines(entries)` */
  function Concat(ss: seq<string>): string
    decreases |ss|
  {
    if ss == [] then [] else Concat(ss[..|ss| - 1]) + ss[|ss| - 1]
  }

  lemma {:induction false} ConcatAppend(a: seq<string>, b: seq<string>)
    ensures Concat(a + b) == Concat(a) + Concat(b)
    decreases |b|
  {
    if b != [] {
      var b' := b[..|b| - 1];
      assert (a + b)[..|a + b| - 1] == a + b';
      ConcatAppend(a, b');
    } else {
      assert a + b == a;
    }
  }

  datatype Output = Written(text: string, count: nat) | NoMatches

  /** The output step: the file is written, and its entry count printed, only
      when there is at least one entry. */
  function WriteEntries(entries: seq<string>): (o: Output)
    ensures o.NoMatches? <==> entries == []
    ensures o.Written? ==> o.count == |entries| && o.text == Concat(entries)
  {
    if entries == [] then NoMatches else Written(Concat(entries), |entries|)
  }
}
