// bin/twitter_setup.py: read the five Twitter credentials from the
// DEFAULT section of `twitter_API.txt`, refuse the file when any is absent,
// strip the double quotes around each value, store them in the keyring
// under the service name given, and read them back to confirm.
//
// The credentials file is a parameter: its DEFAULT section as `configparser`
// hands it over (each option with its raw value), or `None` when the file
// does not exist.
module TwitterSetup {
  import opened Wrappers
  import opened Text
  import opened Keyrings

  const ConfigFile := "../config/twitter_API.txt"

  const MissingNameError := "Error: --service_name is required. Use --help for more information."

  const MissingFileError := "Error: The file '" + ConfigFile + "' does not exist."

  const MissingFieldsPrefix := "Error: Missing required fields in the txt file: "

  /** The DEFAULT section: option name to raw value. */
  type Section = map<string, string>

  // ---------------------------------------------------------------------
  // validate_txt_file

  /** `missing_fields`: the required options absent from the section, in the
      fixed order of the required list. */
  function MissingFields(config: Section): (missing: seq<string>)
    ensures forall f :: f in missing <==> f in TwitterFields && f !in config
    ensures Subsequence(missing, TwitterFields)
  {
    Filter(TwitterFields, f => f !in config)
  }

  /** The `ValueError` `validate_txt_file` raises, if any. */
  function ValidationError(config: Section): Option<string> {
    var missing := MissingFields(config);
    if missing != [] then Some(MissingFieldsPrefix + Join(missing, ", ")) else None
  }

  /** The file is refused exactly when a required option is absent, and the
      message then names every absent option. */
  lemma {:induction false} ValidationIff(config: Section)
    ensures ValidationError(config).None? <==> forall f :: f in TwitterFields ==> f in config
    ensures forall f :: f in TwitterFields && f !in config ==>
      ValidationError(config).Some? && MissingFieldsPrefix <= ValidationError(config).value
      && Contains(ValidationError(config).value, f)
  {
    var missing := MissingFields(config);
    if missing != [] {
      assert missing[0] in missing;
      var e := ValidationError(config).value;
      forall f | f in TwitterFields && f !in config
        ensures MissingFieldsPrefix <= e && Contains(e, f)
      {
        var i :| 0 <= i < |missing| && missing[i] == f;
        JoinHasPart(missing, ", ", i);
        ContainsInRight(MissingFieldsPrefix, Join(missing, ", "), f);
      }
    }
  }

  // ---------------------------------------------------------------------
  // Quotes

  /** `value.strip('"')` takes off every leading and trailing double quote
      and nothing else: what remains is the middle of the value, and it
      neither starts nor ends with a quote. Stripping again changes
      nothing. */
  lemma {:induction false} QuotesStripped(s: string)
    ensures var r := StripQuotes(s); var i := LeftSpan(s, IsQuote);
      && i + |r| <= |s| && s[i..i + |r|] == r
      && (forall k :: 0 <= k < i ==> s[k] == '"')
      && (forall k :: i + |r| <= k < |s| ==> s[k] == '"')
      && (r == [] || (r[0] != '"' && r[|r| - 1] != '"'))
      && StripQuotes(r) == r
  {
    StripByShape(s, IsQuote);
    StripByIdempotent(s, IsQuote);
  }

  /** The five values to store, quotes stripped, in the order of the
      required list. */
  function Credentials(config: Section): (values: seq<string>)
    requires forall f :: f in TwitterFields ==> f in config
    ensures |values| == |TwitterFields|
  {
    seq(|TwitterFields|, i requires 0 <= i < |TwitterFields| => StripQuotes(config[TwitterFields[i]]))
  }

  // ---------------------------------------------------------------------
  // Storing and verifying

  /** The keyring after the five `set_password` calls. */
  function StoreCredentials(store: Store, service: string, values: seq<string>): Store
    requires |values| == |TwitterFields|
  {
    store[(service, "bearer_token") := values[0]]
         [(service, "api_key") := values[1]]
         [(service, "api_key_secret") := values[2]]
         [(service, "access_token") := values[3]]
         [(service, "access_token_secret") := values[4]]
  }

  /** Reading back after storing gives each stored value under its own
      name, whatever the keyring held before, and leaves every other entry
      as it was. */
  lemma {:induction false} ReadBack(store: Store, service: string, values: seq<string>, s: string, u: string)
    requires |values| == |TwitterFields|
    ensures forall i :: 0 <= i < |TwitterFields| ==>
      Lookup(StoreCredentials(store, service, values), service, TwitterFields[i]) == Some(values[i])
    ensures s != service || u !in TwitterFields ==>
      Lookup(StoreCredentials(store, service, values), s, u) == Lookup(store, s, u)
  {
    var names := TwitterFields;
    assert names[0] != names[1] && names[0] != names[2] && names[0] != names[3] && names[0] != names[4];
    assert names[1] != names[2] && names[1] != names[3] && names[1] != names[4];
    assert names[2] != names[3] && names[2] != names[4] && names[3] != names[4];
  }

  datatype Outcome =
    | HelpShown
    | Aborted(message: string)
    | Stored(verified: bool)

  /** What the script ends with. When the values are stored, the read-back
      check succeeds exactly when every value is non-empty. */
  function RunSpec(help: bool, serviceName: Option<string>, config: Option<Section>): Outcome {
    if help then HelpShown
    else if !Truthy(serviceName) then Aborted(MissingNameError)
    else if config.None? then Aborted(MissingFileError)
    else match ValidationError(config.value)
      case Some(e) => Aborted(e)
      case None =>
        var values := Credentials(config.value);
        Stored(forall i :: 0 <= i < |values| ==> values[i] != "")
  }

  /** The script from the flag check on. Only a run that gets past every
      check changes the keyring, and then by the five entries alone. */
  method Setup(help: bool, serviceName: Option<string>, config: Option<Section>, ring: Keyring) returns (o: Outcome)
    modifies ring
    ensures o == RunSpec(help, serviceName, config)
    ensures o.Stored? ==> ring.store == StoreCredentials(old(ring.store), serviceName.value, Credentials(config.value))
    ensures !o.Stored? ==> ring.store == old(ring.store)
  {
    if help {
      return HelpShown;
    }
    if !Truthy(serviceName) {
      return Aborted(MissingNameError);
    }
    if config.None? {
      return Aborted(MissingFileError);
    }
    var section := config.value;
    var error := ValidationError(section);
    if error.Some? {
      return Aborted(error.value);
    }
    ValidationIff(section);
    var service := serviceName.value;
    var values := ExtractCredentials(section);
    StoreAll(ring, service, values);
    var read := ReadAll(ring, service);
    Verified(old(ring.store), service, values, read);
    o := Stored(AllTruthy(read));
  }

  /** The five `config.get('DEFAULT', ...).strip('"')` calls. */
  method ExtractCredentials(section: Section) returns (values: seq<string>)
    requires forall f :: f in TwitterFields ==> f in section
    ensures values == Credentials(section)
  {
    var bearerToken := StripQuotes(section["bearer_token"]);
    var apiKey := StripQuotes(section["api_key"]);
    var apiKeySecret := StripQuotes(section["api_key_secret"]);
    var accessToken := StripQuotes(section["access_token"]);
    var accessTokenSecret := StripQuotes(section["access_token_secret"]);
    values := [bearerToken, apiKey, apiKeySecret, accessToken, accessTokenSecret];
  }

  /** The five `keyring.set_password` calls. */
  method StoreAll(ring: Keyring, service: string, values: seq<string>)
    requires |values| == |TwitterFields|
    modifies ring
    ensures ring.store == StoreCredentials(old(ring.store), service, values)
  {
    ring.SetPassword(service, "bearer_token", values[0]);
    ring.SetPassword(service, "api_key", values[1]);
    ring.SetPassword(service, "api_key_secret", values[2]);
    ring.SetPassword(service, "access_token", values[3]);
    ring.SetPassword(service, "access_token_secret", values[4]);
  }

  /** The five `keyring.get_password` calls. */
  method ReadAll(ring: Keyring, service: string) returns (read: seq<Option<string>>)
    ensures read == LookupAll(ring.store, service, TwitterFields)
  {
    read := [ring.GetPassword(service, "bearer_token"), ring.GetPassword(service, "api_key"),
             ring.GetPassword(service, "api_key_secret"), ring.GetPassword(service, "access_token"),
             ring.GetPassword(service, "access_token_secret")];
  }

  /** The values read back are all present and non-empty exactly when every
      stored value is non-empty. */
  lemma {:induction false} Verified(store: Store, service: string, values: seq<string>, read: seq<Option<string>>)
    requires |values| == |TwitterFields|
    requires read == LookupAll(StoreCredentials(store, service, values), service, TwitterFields)
    ensures AllTruthy(read) <==> forall i :: 0 <= i < |values| ==> values[i] != ""
  {
    ReadBack(store, service, values, service, "");
  }
}
