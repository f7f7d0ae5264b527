/** Replacing the configuration without touching its secrets, and why what
    "config show" prints can be fed back. */
module ConfigReplace {
  import opened Scrub
  import opened Wrappers

  datatype Service = Service(endpoint: string, key: string, policies: Json)

  // rest holds the sections other than Identity and Pinning.
  datatype Config = Config(peerId: string, privKey: string, services: map<string, Service>, rest: map<string, Json>)

  datatype Result = Ok(config: Config) | Err

  // Nothing secret is set and every service keeps its API details.
  predicate Replaceable(stored: Config, submitted: Config) {
    && submitted.privKey == ""
    && |submitted.services| == |stored.services|
    && forall name :: name in stored.services ==>
         && name in submitted.services && submitted.services[name].key == ""
         && submitted.services[name].endpoint in {"", stored.services[name].endpoint}
  }

  // Secrets and service names are the stored ones, everything else is submitted.
  predicate KeepsSecrets(stored: Config, submitted: Config, result: Config) {
    && result.privKey == stored.privKey
    && result.services.Keys == stored.services.Keys == submitted.services.Keys
    && (forall name :: name in stored.services ==>
          && result.services[name].endpoint == stored.services[name].endpoint
          && result.services[name].key == stored.services[name].key
          && result.services[name].policies == submitted.services[name].policies)
    && result.peerId == submitted.peerId && result.rest == submitted.rest
  }

  function WithApi(s: Service, api: Service): Service {
    Service(api.endpoint, api.key, s.policies)
  }

  // storedKey is the private key as read back from the repository's file.
  method ReplaceConfig(stored: Config, storedKey: Option<string>, submitted: Config) returns (res: Result)
    requires storedKey.Some? ==> storedKey.value == stored.privKey
    ensures res.Ok? <==> storedKey.Some? && Replaceable(stored, submitted)
    ensures res.Ok? ==> KeepsSecrets(stored, submitted, res.config)
  {
    if submitted.privKey != "" { return Err; }
    if storedKey.None? { return Err; }
    var config := submitted.(privKey := storedKey.value);
    if |submitted.services| != |stored.services| { return Err; }
    var todo := stored.services.Keys;
    while todo != {}
      invariant todo <= stored.services.Keys
      invariant config.privKey == stored.privKey && config.peerId == submitted.peerId && config.rest == submitted.rest
      invariant config.services.Keys == submitted.services.Keys
      invariant forall name :: name in stored.services && name !in todo ==>
                  && name in submitted.services && submitted.services[name].key == ""
                  && submitted.services[name].endpoint in {"", stored.services[name].endpoint}
                  && config.services[name] == WithApi(submitted.services[name], stored.services[name])
      invariant forall name :: name in todo && name in submitted.services ==> config.services[name] == submitted.services[name]
    {
      var name :| name in todo;
      todo := todo - {name};
      if name !in config.services { return Err; }
      var newSvc, oldSvc := config.services[name], stored.services[name];
      if newSvc.key != "" || (newSvc.endpoint != "" && newSvc.endpoint != oldSvc.endpoint) { return Err; }
      config := config.(services := config.services[name := WithApi(newSvc, oldSvc)]);
    }
    SameSizeSameNames(stored.services.Keys, submitted.services.Keys);
    res := Ok(config);
  }

  lemma SameSizeSameNames(a: set<string>, b: set<string>)
    requires a <= b && |a| == |b|
    ensures a == b
  {
    assert |b| == |a| + |b - a|;
    assert b == a + (b - a);
  }

  // ---- The JSON form ----

  function ApiJson(s: Service): Json {
    Obj(map["Endpoint" := Leaf(s.endpoint), "Key" := Leaf(s.key)])
  }

  function ServiceJson(s: Service): Json {
    Obj(map["API" := ApiJson(s), "Policies" := s.policies])
  }

  function ServicesJson(services: map<string, Service>): map<string, Json> {
    map name | name in services :: ServiceJson(services[name])
  }

  function Encode(c: Config): map<string, Json> {
    c.rest["Identity" := Obj(map["PeerID" := Leaf(c.peerId), "PrivKey" := Leaf(c.privKey)])]
    ["Pinning" := Obj(map["RemoteServices" := Obj(ServicesJson(c.services))])]
  }

  // Decoding gives missing fields their zero value.
  function Field(m: map<string, Json>, name: string): map<string, Json> {
    if name in m && m[name].Obj? then m[name].fields else map[]
  }

  function Text(m: map<string, Json>, name: string): string {
    if name in m && m[name].Leaf? then m[name].text else ""
  }

  function DecodeService(m: map<string, Json>): Service {
    var api := Field(m, "API");
    Service(Text(api, "Endpoint"), Text(api, "Key"), if "Policies" in m then m["Policies"] else Obj(map[]))
  }

  function DecodeServices(m: map<string, Json>): map<string, Service> {
    map name | name in m :: DecodeService(Field(m, name))
  }

  function Decode(m: map<string, Json>): Config {
    var identity := Field(m, "Identity");
    Config(Text(identity, "PeerID"), Text(identity, "PrivKey"),
           DecodeServices(Field(Field(m, "Pinning"), "RemoteServices")), m - {"Identity", "Pinning"})
  }

  lemma ServiceDecodes(s: Service)
    ensures DecodeService(ServiceJson(s).fields) == s
  {
  }

  lemma ServicesDecode(services: map<string, Service>)
    ensures DecodeServices(ServicesJson(services)) == services
  {
    forall name | name in services ensures DecodeService(Field(ServicesJson(services), name)) == services[name] {
      ServiceDecodes(services[name]);
    }
    hide DecodeService, ServiceJson;
  }

  // The JSON form loses nothing.
  lemma DecodeEncode(c: Config)
    requires "Identity" !in c.rest && "Pinning" !in c.rest
    ensures Decode(Encode(c)) == c
  {
    hide DecodeServices, ServicesJson;
    ServicesDecode(c.services);
    assert Encode(c) - {"Identity", "Pinning"} == c.rest;
  }

  // ---- config show ----

  const PRIV_KEY_SELECTOR := ["Identity", "PrivKey"]
  const CONCEAL_SELECTOR := ["Pinning", "RemoteServices", "*", "API", "Key"]

  function Shown(fold: Fold, m: map<string, Json>): map<string, Json> {
    Scrubbed(fold, Scrubbed(fold, m, PRIV_KEY_SELECTOR), CONCEAL_SELECTOR)
  }

  // The section names differ, whatever their case.
  predicate PlainSections(fold: Fold, c: Config) {
    forall k :: k in c.rest ==> !EqualFold(fold, "Identity", k) && !EqualFold(fold, "Pinning", k)
  }

  // A configuration without its secrets.
  function Concealed(c: Config): Config {
    c.(privKey := "", services := map name | name in c.services :: c.services[name].(key := ""))
  }

  lemma EqualFoldItself(fold: Fold, s: string)
    ensures EqualFold(fold, s, s)
  {
  }

  lemma ScrubbedField(fold: Fold, m: map<string, Json>, key: seq<string>, k: string)
    requires key != [] && k in m
    ensures PartMatches(fold, key[0], k) && m[k].Obj? ==>
              k in Scrubbed(fold, m, key) && Scrubbed(fold, m, key)[k] == Obj(Scrubbed(fold, m[k].fields, key[1..]))
    ensures PartMatches(fold, key[0], k) && m[k].Leaf? ==> k !in Scrubbed(fold, m, key)
    ensures !PartMatches(fold, key[0], k) ==> k in Scrubbed(fold, m, key) && Scrubbed(fold, m, key)[k] == m[k]
  {
  }

  // The identity section loses its private key only.
  lemma IdentityShown(fold: Fold, c: Config)
    ensures Scrubbed(fold, Field(Encode(c), "Identity"), ["PrivKey"]) == map["PeerID" := Leaf(c.peerId)]
  {
    EqualFoldItself(fold, "PrivKey");
  }

  lemma ApiShown(fold: Fold, s: Service)
    ensures Scrubbed(fold, ApiJson(s).fields, ["Key"]) == map["Endpoint" := Leaf(s.endpoint)]
  {
    EqualFoldItself(fold, "Key");
  }

  // A service loses its key only.
  lemma ServiceShown(fold: Fold, s: Service)
    ensures DecodeService(Scrubbed(fold, ServiceJson(s).fields, ["API", "Key"])) == s.(key := "")
  {
    hide Scrubbed;
    var m, key := ServiceJson(s).fields, ["API", "Key"];
    ApiShown(fold, s);
    EqualFoldItself(fold, "API");
    assert key[1..] == ["Key"];
    ScrubbedField(fold, m, key, "API");
    ScrubbedField(fold, m, key, "Policies");
  }

  lemma ServicesShown(fold: Fold, services: map<string, Service>)
    ensures DecodeServices(Scrubbed(fold, ServicesJson(services), ["*", "API", "Key"]))
            == map name | name in services :: services[name].(key := "")
  {
    var m, key := ServicesJson(services), ["*", "API", "Key"];
    assert key[1..] == ["API", "Key"];
    forall name | name in services
      ensures name in Scrubbed(fold, m, key)
      ensures DecodeService(Field(Scrubbed(fold, m, key), name)) == services[name].(key := "")
    {
      ScrubbedField(fold, m, key, name);
      ServiceShown(fold, services[name]);
    }
  }

  // Each of the two selectors only reaches into its own section.
  lemma OtherSectionsShown(fold: Fold, c: Config)
    requires PlainSections(fold, c)
    ensures Shown(fold, Encode(c)).Keys == Encode(c).Keys
    ensures Shown(fold, Encode(c))["Identity"] == Obj(Scrubbed(fold, Field(Encode(c), "Identity"), ["PrivKey"]))
    ensures Shown(fold, Encode(c))["Pinning"] == Obj(Scrubbed(fold, Field(Encode(c), "Pinning"), CONCEAL_SELECTOR[1..]))
    ensures forall k :: k in c.rest && k != "Identity" && k != "Pinning" ==> Shown(fold, Encode(c))[k] == c.rest[k]
  {
    hide EqualFold, ServicesJson;
    var m := Encode(c);
    var n := Scrubbed(fold, m, PRIV_KEY_SELECTOR);
    EqualFoldItself(fold, "Identity");
    EqualFoldItself(fold, "Pinning");
    DifferentSections(fold);
    forall k | k in m ensures k in Shown(fold, m) && k in n {
      ScrubbedField(fold, m, PRIV_KEY_SELECTOR, k);
      ScrubbedField(fold, n, CONCEAL_SELECTOR, k);
    }
    assert PRIV_KEY_SELECTOR[1..] == ["PrivKey"];
    ScrubbedField(fold, m, PRIV_KEY_SELECTOR, "Identity");
    ScrubbedField(fold, n, CONCEAL_SELECTOR, "Identity");
    ScrubbedField(fold, m, PRIV_KEY_SELECTOR, "Pinning");
    ScrubbedField(fold, n, CONCEAL_SELECTOR, "Pinning");
    forall k | k in c.rest && k != "Identity" && k != "Pinning" ensures Shown(fold, m)[k] == c.rest[k] {
      ScrubbedField(fold, m, PRIV_KEY_SELECTOR, k);
      ScrubbedField(fold, n, CONCEAL_SELECTOR, k);
    }
  }

  lemma DifferentSections(fold: Fold)
    ensures !EqualFold(fold, "Identity", "Pinning") && !EqualFold(fold, "Pinning", "Identity")
  {
  }

  // Reading back what is shown gives the configuration without its secrets.
  lemma ShownDecodes(fold: Fold, c: Config)
    requires PlainSections(fold, c)
    ensures Decode(Shown(fold, Encode(c))) == Concealed(c)
  {
    hide Scrubbed, EqualFold;
    OtherSectionsShown(fold, c);
    IdentityShown(fold, c);
    ServicesShown(fold, c.services);
    PinningShown(fold, c);
    NamesArePlain(fold, c);
    assert Shown(fold, Encode(c)) - {"Identity", "Pinning"} == c.rest;
  }

  lemma NamesArePlain(fold: Fold, c: Config)
    requires PlainSections(fold, c)
    ensures "Identity" !in c.rest && "Pinning" !in c.rest
  {
    EqualFoldItself(fold, "Identity");
    EqualFoldItself(fold, "Pinning");
  }

  lemma PinningShown(fold: Fold, c: Config)
    ensures Scrubbed(fold, Field(Encode(c), "Pinning"), CONCEAL_SELECTOR[1..])
            == map["RemoteServices" := Obj(Scrubbed(fold, ServicesJson(c.services), ["*", "API", "Key"]))]
  {
    var m := Field(Encode(c), "Pinning");
    EqualFoldItself(fold, "RemoteServices");
    assert CONCEAL_SELECTOR[1..][1..] == ["*", "API", "Key"];
    ScrubbedField(fold, m, CONCEAL_SELECTOR[1..], "RemoteServices");
    assert m.Keys == {"RemoteServices"};
  }

  // No secret is shown: neither the private key nor the key of any service,
  // whatever the configuration is.
  lemma ShownHidesSecrets(fold: Fold, m: map<string, Json>, name: string)
    ensures LeafAt(Shown(fold, m), ["Identity", "PrivKey"]) == None
    ensures LeafAt(Shown(fold, m), ["Pinning", "RemoteServices", name, "API", "Key"]) == None
  {
    hide Scrubbed, LeafAt, EqualFold;
    var n := Scrubbed(fold, m, PRIV_KEY_SELECTOR);
    var id, key := ["Identity", "PrivKey"], ["Pinning", "RemoteServices", name, "API", "Key"];
    EqualFoldItself(fold, "Identity");
    EqualFoldItself(fold, "PrivKey");
    EqualFoldItself(fold, "Pinning");
    EqualFoldItself(fold, "RemoteServices");
    EqualFoldItself(fold, "API");
    EqualFoldItself(fold, "Key");
    assert GlobMatches(fold, id, PRIV_KEY_SELECTOR) && GlobMatches(fold, key, CONCEAL_SELECTOR);
    LeafScrubbed(fold, m, PRIV_KEY_SELECTOR, id);
    LeafScrubbed(fold, n, CONCEAL_SELECTOR, id);
    LeafScrubbed(fold, n, CONCEAL_SELECTOR, key);
  }

  // Feeding back the output of config show succeeds and changes nothing.
  lemma ShowThenReplace(fold: Fold, c: Config, result: Config)
    requires PlainSections(fold, c)
    ensures Replaceable(c, Decode(Shown(fold, Encode(c))))
    ensures KeepsSecrets(c, Decode(Shown(fold, Encode(c))), result) ==> result == c
  {
    hide Shown, Decode, Encode;
    ShownDecodes(fold, c);
    var s := Concealed(c);
    assert s.services.Keys == c.services.Keys;
    if KeepsSecrets(c, s, result) {
      assert result.services == c.services;
    }
  }
}
