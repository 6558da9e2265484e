/** The trust policy of `stamp reviewers fetch` (src/commands/reviewers.ts, src/lib/reviewerManifest.ts). */
module PersonaFetch {
  import opened Results
  import opened Strings
  import opened SourceSpec

  // ----- Inputs --------------------------------------------------------------------------------

  /** A GET: a body, HTTP 404, or any other failure, which throws. */
  datatype Reply = Found(body: string) | NotFound | Fails

  /** The three pinned hashes. */
  datatype Pins = Pins(prompt: string, tools: string, mcp: string)

  /**
   * `prototype` is the entry under the key `__proto__`, if the JSON has one: assigning it to the
   * object that collects the entries sets that object's prototype and adds no entry.
   */
  datatype Manifest = Manifest(signedBy: string, reviewers: map<string, Pins>, prototype: Option<Pins>)
  {
    /** The members that are serialized and signed. */
    function Own(): Manifest { this.(prototype := None) }
  }

  /** An `--expect-*-sha` flag after normalization. */
  datatype Flag = Absent | Bad | Sha(hex: string)

  datatype Options = Options(from: string, prompt: Flag, tools: Flag, mcp: Flag, noVerifyManifest: bool)

  /** `None` when the configuration does not parse or declares a malformed server. */
  datatype Persona = Persona(tools: string, mcp: string)

  /**
   * The network, the verifying keys committed under `.stamp/verifying-keys/`, and the parsers,
   * verifier and hashes, of which nothing is assumed.
   */
  datatype World = World(
    get: string -> Reply, allowlist: bool, keys: map<string, string>, reviewersDir: bool,
    parseManifest: string -> Option<Manifest>, verify: (Manifest, string, string) -> bool,
    parseConfig: Option<string> -> Option<Persona>,
    hashPrompt: string -> string, hashTools: string -> string, hashMcp: string -> string)

  datatype Lock = Lock(source: string, ref: string, reviewer: string, pins: Pins)

  datatype Effect = Get(url: string) | WritePrompt(reviewer: string) | WriteLock(reviewer: string)

  // ----- The policy ----------------------------------------------------------------------------

  /** The reviewer names among the members that every JavaScript object inherits. */
  const OBJECT_MEMBERS := {"constructor", "toString", "valueOf", "hasOwnProperty", "isPrototypeOf",
                           "propertyIsEnumerable", "toLocaleString"}

  /** The members of an entry, which `__proto__` makes members of the collecting object. */
  const ENTRY_MEMBERS := {"prompt_sha256", "tools_sha256", "mcp_sha256"}

  /** The names `reviewers[name]` finds although the manifest has no entry for them. */
  function Inherited(m: Manifest): set<string> {
    OBJECT_MEMBERS + (if m.prototype.Some? then ENTRY_MEMBERS else {})
  }

  /** What the manifest contributes: nothing (trust on first use), or pins, each possibly undefined. */
  datatype Anchors = Anchors(prompt: Option<string>, tools: Option<string>, mcp: Option<string>)

  const NO_ANCHORS := Anchors(None, None, None)

  /** `manifest.reviewers[reviewerName]`; `None` when it is falsy. What is inherited has no pins. */
  function EntryOf(m: Manifest, name: string): Option<Anchors> {
    if name in m.reviewers
    then Some(Anchors(Some(m.reviewers[name].prompt), Some(m.reviewers[name].tools), Some(m.reviewers[name].mcp)))
    else if name in Inherited(m) then Some(NO_ANCHORS)
    else None
  }

  datatype Refusal =
    | BadName | BadSpec | BadFlag | NoReviewersDir | BadSource | Network | MalformedManifest | Unsigned
    | UnknownSigner | BadSignature | NotCovered | NoManifest | NoPrompt | BadConfig | HashMismatch

  function UrlOf(source: string, ref: string, path: string): Option<string> {
    BuildRawUrl(source, ref, path)
  }

  /** The manifest, its trimmed signature and the signer's key, when all three are there. */
  function Signed(w: World, manifestUrl: string, sigUrl: string): Option<(Manifest, string, string)> {
    match w.get(manifestUrl)
    case Found(text) =>
      (match (w.parseManifest(text), w.get(sigUrl))
       case (Some(m), Found(sig)) =>
         if Trim(sig) != "" && m.signedBy in w.keys then Some((m, Trim(sig), w.keys[m.signedBy])) else None
       case _ => None)
    case _ => None
  }

  /**
   * The policy, told apart from the code: a manifest signed by an allowlisted key must verify and
   * cover the reviewer; anything less is tolerated only without an allowlist.
   */
  predicate PolicyAllows(w: World, manifestUrl: string, sigUrl: string, name: string) {
    && !w.get(manifestUrl).Fails?
    && (w.get(manifestUrl).Found? ==> !w.get(sigUrl).Fails?)
    && match Signed(w, manifestUrl, sigUrl)
       case Some((m, sig, key)) => w.verify(m.Own(), sig, key) && EntryOf(m, name).Some?
       case None => !w.allowlist
  }

  function PolicyAnchors(w: World, manifestUrl: string, sigUrl: string, name: string): Anchors {
    match Signed(w, manifestUrl, sigUrl)
    case Some((m, _, _)) => if EntryOf(m, name).Some? then EntryOf(m, name).value else NO_ANCHORS
    case None => NO_ANCHORS
  }

  /** A flag wins over the manifest. */
  function Effective(flag: Flag, anchor: Option<string>): Option<string> {
    if flag.Sha? then Some(flag.hex) else anchor
  }

  predicate Pinned(expected: Option<string>, actual: string) {
    expected.Some? ==> expected.value == actual
  }

  /** What a refusal over the manifest says of the source and the allowlist. */
  predicate Distrusts(w: World, manifestUrl: string, sigUrl: string, name: string, refusal: Refusal) {
    var manifest, sig := w.get(manifestUrl), w.get(sigUrl);
    match refusal
    case Network => manifest.Fails? || (manifest.Found? && sig.Fails?)
    case NoManifest => w.allowlist && manifest.NotFound?
    case MalformedManifest => w.allowlist && manifest.Found? && w.parseManifest(manifest.body).None?
    case Unsigned => w.allowlist && manifest.Found? && (sig.NotFound? || (sig.Found? && Trim(sig.body) == ""))
    case UnknownSigner =>
      && w.allowlist && manifest.Found? && w.parseManifest(manifest.body).Some?
      && w.parseManifest(manifest.body).value.signedBy !in w.keys
    case BadSignature =>
      && Signed(w, manifestUrl, sigUrl).Some?
      && var (m, text, key) := Signed(w, manifestUrl, sigUrl).value; !w.verify(m.Own(), text, key)
    case NotCovered =>
      && Signed(w, manifestUrl, sigUrl).Some?
      && var (m, _, _) := Signed(w, manifestUrl, sigUrl).value; name !in m.reviewers && name !in Inherited(m)
    case _ => false
  }

  // ----- The command ---------------------------------------------------------------------------

  class Workspace {
    var prompts: map<string, string>  // .stamp/reviewers/<name>.md
    var locks: map<string, Lock>
    ghost var effects: seq<Effect>

    method GetUrl(w: World, url: string) returns (reply: Reply)
      modifies `effects
      ensures reply == w.get(url) && effects == old(effects) + [Get(url)]
    {
      effects := effects + [Get(url)];
      reply := w.get(url);
    }

    /** Cells 1 to 5 of the policy table. */
    method CheckManifest(w: World, manifestUrl: string, sigUrl: string, name: string)
      returns (r: Result<Anchors, Refusal>)
      modifies `effects
      ensures r.Ok? <==> PolicyAllows(w, manifestUrl, sigUrl, name)
      ensures r.Ok? ==> r.value == PolicyAnchors(w, manifestUrl, sigUrl, name)
      ensures r.Err? ==> Distrusts(w, manifestUrl, sigUrl, name, r.reason)
      ensures OnlyGets(old(effects), effects)
    {
      var manifestText := GetUrl(w, manifestUrl);
      if manifestText.Fails? {
        return Err(Network);
      }
      if manifestText.NotFound? {
        return if w.allowlist then Err(NoManifest) else Ok(NO_ANCHORS);
      }
      var manifestSig := GetUrl(w, sigUrl);
      if manifestSig.Fails? {
        return Err(Network);
      }
      var manifest := w.parseManifest(manifestText.body);
      if manifest.None? {
        return if w.allowlist then Err(MalformedManifest) else Ok(NO_ANCHORS);
      }
      if manifestSig.NotFound? || Trim(manifestSig.body) == "" {
        return if w.allowlist then Err(Unsigned) else Ok(NO_ANCHORS);
      }
      var signer := manifest.value.signedBy;
      if signer !in w.keys {
        return if w.allowlist then Err(UnknownSigner) else Ok(NO_ANCHORS);
      }
      if !w.verify(manifest.value.Own(), Trim(manifestSig.body), w.keys[signer]) {
        return Err(BadSignature);
      }
      var entry := EntryOf(manifest.value, name);
      if entry.None? {
        return Err(NotCovered);
      }
      return Ok(entry.value);
    }

    /**
     * `reviewersFetch`. A refusal, for whatever reason, leaves prompts and locks as they were; a
     * success writes exactly the fetched prompt and a lock with the hashes of what was fetched.
     */
    method Fetch(name: string, opts: Options, w: World) returns (r: Result<Lock, Refusal>)
      modifies this
      ensures r.Ok? <==> Fetches(name, opts, w)
      ensures r.Err? ==> prompts == old(prompts) && locks == old(locks) && OnlyGets(old(effects), effects)
      ensures r.Err? ==> Refused(name, opts, w, r.reason)
      ensures r.Ok? ==> r.value == LockFor(name, opts, w)
      ensures r.Ok? ==> prompts == old(prompts)[name := PromptOf(name, opts, w)] && locks == old(locks)[name := r.value]
      ensures r.Ok? ==> exists gets :: OnlyGets(old(effects), gets)
                                       && effects == gets + [WritePrompt(name)] + [WriteLock(name)]
    {
      if !ReviewerName(name) {
        return Err(BadName);
      }
      var spec := ParseSourceSpec(opts.from);
      if spec.None? {
        return Err(BadSpec);
      }
      var source, ref := spec.value.0, spec.value.1;
      if opts.prompt.Bad? || opts.tools.Bad? || opts.mcp.Bad? {
        return Err(BadFlag);
      }
      if !w.reviewersDir {
        return Err(NoReviewersDir);
      }
      var promptUrl := UrlOf(source, ref, PersonaFile(name, "prompt.md"));
      var configUrl := UrlOf(source, ref, PersonaFile(name, "config.yaml"));
      var manifestUrl := UrlOf(source, ref, "personas/manifest.json");
      var sigUrl := UrlOf(source, ref, "personas/manifest.json.sig");
      if promptUrl.None? {
        return Err(BadSource);
      }
      var anchors := NO_ANCHORS;
      if !opts.noVerifyManifest {
        var checked := CheckManifest(w, manifestUrl.value, sigUrl.value, name);
        if checked.Err? {
          return Err(checked.reason);
        }
        anchors := checked.value;
      }
      r := FetchAndPin(name, opts, w, source, ref, promptUrl.value, configUrl.value, anchors);
    }

    method FetchAndPin(name: string, opts: Options, w: World, source: string, ref: string,
        promptUrl: string, configUrl: string, anchors: Anchors) returns (r: Result<Lock, Refusal>)
      modifies this
      ensures r.Ok? <==>
                && w.get(promptUrl).Found? && !w.get(configUrl).Fails?
                && w.parseConfig(Body(w.get(configUrl))).Some?
                && PinsHold(opts, anchors, PinsOf(w, w.get(promptUrl).body, w.parseConfig(Body(w.get(configUrl))).value))
      ensures r.Err? ==> prompts == old(prompts) && locks == old(locks) && OnlyGets(old(effects), effects)
      ensures r.Err? ==> match r.reason
                         case NoPrompt => w.get(promptUrl).NotFound?
                         case Network => w.get(promptUrl).Fails? || w.get(configUrl).Fails?
                         case BadConfig => w.parseConfig(Body(w.get(configUrl))).None?
                         case reason =>
                           && reason.HashMismatch? && w.get(promptUrl).Found?
                           && w.parseConfig(Body(w.get(configUrl))).Some?
                           && !PinsHold(opts, anchors,
                                PinsOf(w, w.get(promptUrl).body, w.parseConfig(Body(w.get(configUrl))).value))
      ensures r.Ok? ==>
                && r.value == Lock(source, ref, name,
                     PinsOf(w, w.get(promptUrl).body, w.parseConfig(Body(w.get(configUrl))).value))
                && prompts == old(prompts)[name := w.get(promptUrl).body]
                && locks == old(locks)[name := r.value]
                && exists gets :: OnlyGets(old(effects), gets)
                                  && effects == gets + [WritePrompt(name)] + [WriteLock(name)]
    {
      var prompt := GetUrl(w, promptUrl);
      if !prompt.Found? {
        return Err(if prompt.NotFound? then NoPrompt else Network);
      }
      var config := GetUrl(w, configUrl);
      if config.Fails? {
        return Err(Network);
      }
      var persona := w.parseConfig(Body(config));
      if persona.None? {
        return Err(BadConfig);
      }
      var pins := PinsOf(w, prompt.body, persona.value);
      var expectPrompt := Effective(opts.prompt, anchors.prompt);
      var expectTools := Effective(opts.tools, anchors.tools);
      var expectMcp := Effective(opts.mcp, anchors.mcp);
      if expectPrompt.Some? && expectPrompt.value != pins.prompt {
        return Err(HashMismatch);
      }
      if expectTools.Some? && expectTools.value != pins.tools {
        return Err(HashMismatch);
      }
      if expectMcp.Some? && expectMcp.value != pins.mcp {
        return Err(HashMismatch);
      }
      ghost var gets := effects;
      prompts := prompts[name := prompt.body];
      effects := effects + [WritePrompt(name)];
      var lock := Lock(source, ref, name, pins);
      locks := locks[name := lock];
      effects := effects + [WriteLock(name)];
      assert OnlyGets(old(effects), gets);
      return Ok(lock);
    }
  }

  /** `after` adds only requests to `before`. */
  predicate OnlyGets(before: seq<Effect>, after: seq<Effect>) {
    before <= after && forall i :: |before| <= i < |after| ==> after[i].Get?
  }

  function PersonaFile(name: string, file: string): string { "personas/" + name + "/" + file }

  function Body(reply: Reply): Option<string> {
    if reply.Found? then Some(reply.body) else None
  }

  function PinsOf(w: World, prompt: string, persona: Persona): Pins {
    Pins(w.hashPrompt(prompt), w.hashTools(persona.tools), w.hashMcp(persona.mcp))
  }

  predicate PinsHold(opts: Options, anchors: Anchors, pins: Pins) {
    && Pinned(Effective(opts.prompt, anchors.prompt), pins.prompt)
    && Pinned(Effective(opts.tools, anchors.tools), pins.tools)
    && Pinned(Effective(opts.mcp, anchors.mcp), pins.mcp)
  }

  // ----- When a fetch succeeds -------------------------------------------------------------------

  /** The URL of a file of the source, for a spec that parses to a supported source. */
  predicate Supported(opts: Options) {
    ParseSourceSpec(opts.from).Some?
    && (Shorthand(ParseSourceSpec(opts.from).value.0) || "https://" <= ParseSourceSpec(opts.from).value.0)
  }

  function SourceUrl(opts: Options, path: string): string
    requires Supported(opts)
  {
    BuildRawUrl(ParseSourceSpec(opts.from).value.0, ParseSourceSpec(opts.from).value.1, path).value
  }

  function AnchorsFor(name: string, opts: Options, w: World): Anchors
    requires Supported(opts)
  {
    if opts.noVerifyManifest then NO_ANCHORS
    else PolicyAnchors(w, SourceUrl(opts, "personas/manifest.json"), SourceUrl(opts, "personas/manifest.json.sig"), name)
  }

  function PromptOf(name: string, opts: Options, w: World): string
    requires Supported(opts) && w.get(SourceUrl(opts, PersonaFile(name, "prompt.md"))).Found?
  {
    w.get(SourceUrl(opts, PersonaFile(name, "prompt.md"))).body
  }

  function ConfigOf(name: string, opts: Options, w: World): Option<Persona>
    requires Supported(opts)
  {
    w.parseConfig(Body(w.get(SourceUrl(opts, PersonaFile(name, "config.yaml")))))
  }

  predicate Fetches(name: string, opts: Options, w: World) {
    && ReviewerName(name) && Supported(opts) && w.reviewersDir
    && !opts.prompt.Bad? && !opts.tools.Bad? && !opts.mcp.Bad?
    && (opts.noVerifyManifest ||
        PolicyAllows(w, SourceUrl(opts, "personas/manifest.json"), SourceUrl(opts, "personas/manifest.json.sig"), name))
    && w.get(SourceUrl(opts, PersonaFile(name, "prompt.md"))).Found?
    && !w.get(SourceUrl(opts, PersonaFile(name, "config.yaml"))).Fails?
    && ConfigOf(name, opts, w).Some?
    && PinsHold(opts, AnchorsFor(name, opts, w), PinsOf(w, PromptOf(name, opts, w), ConfigOf(name, opts, w).value))
  }

  function LockFor(name: string, opts: Options, w: World): Lock
    requires Fetches(name, opts, w)
  {
    Lock(ParseSourceSpec(opts.from).value.0, ParseSourceSpec(opts.from).value.1, name,
      PinsOf(w, PromptOf(name, opts, w), ConfigOf(name, opts, w).value))
  }

  /** What a refusal says, on the command's own inputs. */
  predicate Refused(name: string, opts: Options, w: World, refusal: Refusal) {
    match refusal
    case BadName => !ReviewerName(name)
    case BadSpec => ParseSourceSpec(opts.from).None?
    case BadFlag => opts.prompt.Bad? || opts.tools.Bad? || opts.mcp.Bad?
    case NoReviewersDir => !w.reviewersDir
    case BadSource => ParseSourceSpec(opts.from).Some? && !Supported(opts)
    case NoPrompt => Supported(opts) && w.get(SourceUrl(opts, PersonaFile(name, "prompt.md"))).NotFound?
    case BadConfig => Supported(opts) && ConfigOf(name, opts, w).None?
    case HashMismatch =>
      && Supported(opts) && w.get(SourceUrl(opts, PersonaFile(name, "prompt.md"))).Found? && ConfigOf(name, opts, w).Some?
      && !PinsHold(opts, AnchorsFor(name, opts, w), PinsOf(w, PromptOf(name, opts, w), ConfigOf(name, opts, w).value))
    case _ =>
      Supported(opts) &&
      ((!opts.noVerifyManifest
        && Distrusts(w, SourceUrl(opts, "personas/manifest.json"), SourceUrl(opts, "personas/manifest.json.sig"), name, refusal))
       || (refusal.Network?
           && (w.get(SourceUrl(opts, PersonaFile(name, "prompt.md"))).Fails?
               || w.get(SourceUrl(opts, PersonaFile(name, "config.yaml"))).Fails?)))
  }

  /** The manifest at the source verifies under the allowlisted key it names. */
  predicate VerifiedManifest(opts: Options, w: World, m: Manifest)
    requires Supported(opts)
  {
    var manifest, sig := w.get(SourceUrl(opts, "personas/manifest.json")), w.get(SourceUrl(opts, "personas/manifest.json.sig"));
    && manifest.Found? && w.parseManifest(manifest.body) == Some(m)
    && sig.Found? && Trim(sig.body) != ""
    && m.signedBy in w.keys && w.verify(m.Own(), Trim(sig.body), w.keys[m.signedBy])
  }

  /** The hash that is locked: the flag's, else the manifest's. */
  function Expected(flag: Flag, pin: string): string {
    if flag.Sha? then flag.hex else pin
  }

  /** Each locked hash is the flag's if there is one, and else the one the manifest has for the name. */
  predicate LockedAsListed(name: string, opts: Options, m: Manifest, pins: Pins)
    requires name in m.reviewers
  {
    && pins.prompt == Expected(opts.prompt, m.reviewers[name].prompt)
    && pins.tools == Expected(opts.tools, m.reviewers[name].tools)
    && pins.mcp == Expected(opts.mcp, m.reviewers[name].mcp)
  }

  /**
   * With an allowlist and verification on, every fetch that succeeds is backed by a manifest that
   * verifies under an allowlisted key. If the manifest lists the reviewer, its hashes are the
   * anchors; if not, the name is inherited by the object of its entries and nothing was pinned.
   */
  lemma AllowlistMeansVerified(name: string, opts: Options, w: World)
    requires Fetches(name, opts, w) && w.allowlist && !opts.noVerifyManifest
    ensures exists m :: VerifiedManifest(opts, w, m)
                        && (name in m.reviewers ==> LockedAsListed(name, opts, m, LockFor(name, opts, w).pins))
                        && (name !in m.reviewers ==> name in Inherited(m) && AnchorsFor(name, opts, w) == NO_ANCHORS)
  {
    var manifestUrl := SourceUrl(opts, "personas/manifest.json");
    var sigUrl := SourceUrl(opts, "personas/manifest.json.sig");
    var (m, sig, key) := Signed(w, manifestUrl, sigUrl).value;
    assert VerifiedManifest(opts, w, m);
  }

  // ----- The whole policy, on the answers --------------------------------------------------------

  /** Some key of the allowlist is named by a manifest that has a signature. */
  predicate SignedByListed(opts: Options, w: World, m: Manifest)
    requires Supported(opts)
  {
    var manifest, sig := w.get(SourceUrl(opts, "personas/manifest.json")), w.get(SourceUrl(opts, "personas/manifest.json.sig"));
    && manifest.Found? && w.parseManifest(manifest.body) == Some(m)
    && sig.Found? && Trim(sig.body) != "" && m.signedBy in w.keys
  }

  ghost predicate NoneSignedByListed(opts: Options, w: World)
    requires Supported(opts)
  {
    forall m :: !SignedByListed(opts, w, m)
  }

  /** Everything but the trust: a prompt, a configuration that parses, and flags that parse. */
  predicate Fetched(name: string, opts: Options, w: World)
    requires Supported(opts)
  {
    && ReviewerName(name) && w.reviewersDir && !opts.prompt.Bad? && !opts.tools.Bad? && !opts.mcp.Bad?
    && w.get(SourceUrl(opts, "personas/" + name + "/prompt.md")).Found?
    && !w.get(SourceUrl(opts, "personas/" + name + "/config.yaml")).Fails?
    && Configured(name, opts, w).Some?
  }

  function Configured(name: string, opts: Options, w: World): Option<Persona>
    requires Supported(opts)
  {
    var config := w.get(SourceUrl(opts, "personas/" + name + "/config.yaml"));
    w.parseConfig(if config.Found? then Some(config.body) else None)
  }

  /** The hash is the flag's if there is one, else the listed one if there is one. */
  predicate Expects(flag: Flag, listed: Option<string>, actual: string) {
    (flag.Sha? ==> actual == flag.hex) && (flag.Absent? && listed.Some? ==> actual == listed.value)
  }

  /** Prompt, tools and servers that were fetched have the hashes expected of each. */
  predicate AsExpected(name: string, opts: Options, w: World, listed: Option<Pins>)
    requires Supported(opts) && Fetched(name, opts, w)
  {
    var persona := Configured(name, opts, w).value;
    && Expects(opts.prompt, if listed.Some? then Some(listed.value.prompt) else None,
         w.hashPrompt(w.get(SourceUrl(opts, "personas/" + name + "/prompt.md")).body))
    && Expects(opts.tools, if listed.Some? then Some(listed.value.tools) else None, w.hashTools(persona.tools))
    && Expects(opts.mcp, if listed.Some? then Some(listed.value.mcp) else None, w.hashMcp(persona.mcp))
  }

  /** The manifest covers the fetch: it verifies, and lists these hashes for the name, or the name is inherited. */
  predicate Covers(name: string, opts: Options, w: World, m: Manifest)
    requires Supported(opts) && Fetched(name, opts, w)
  {
    && VerifiedManifest(opts, w, m)
    && (if name in m.reviewers then AsExpected(name, opts, w, Some(m.reviewers[name]))
        else name in Inherited(m) && AsExpected(name, opts, w, None))
  }

  /**
   * A fetch succeeds exactly when its files are there and: verification is off and the flags hold; or
   * a manifest signed by a listed key covers it; or there is none such, no allowlist, and the flags
   * hold. A manifest or signature that cannot be requested stops it.
   */
  lemma FetchesIff(name: string, opts: Options, w: World)
    requires Supported(opts)
    ensures Fetches(name, opts, w)
       <==> && Fetched(name, opts, w)
            && if opts.noVerifyManifest then AsExpected(name, opts, w, None)
               else
                 && !w.get(SourceUrl(opts, "personas/manifest.json")).Fails?
                 && (w.get(SourceUrl(opts, "personas/manifest.json")).Found? ==>
                       !w.get(SourceUrl(opts, "personas/manifest.json.sig")).Fails?)
                 && (forall m :: SignedByListed(opts, w, m) ==> Covers(name, opts, w, m))
                 && (NoneSignedByListed(opts, w) ==> !w.allowlist && AsExpected(name, opts, w, None))
  {
    SamePaths(name);
    if Fetched(name, opts, w) {
      if opts.noVerifyManifest {
        HoldIffExpected(name, opts, w, NO_ANCHORS, None);
      } else {
        VerifyingIff(name, opts, w);
      }
    }
  }

  lemma SamePaths(name: string)
    ensures PersonaFile(name, "prompt.md") == "personas/" + name + "/prompt.md"
    ensures PersonaFile(name, "config.yaml") == "personas/" + name + "/config.yaml"
  {
  }

  /** What the code compares is what is expected. */
  lemma HoldIffExpected(name: string, opts: Options, w: World, anchors: Anchors, listed: Option<Pins>)
    requires Supported(opts) && Fetched(name, opts, w)
    requires anchors == if listed.Some?
                        then Anchors(Some(listed.value.prompt), Some(listed.value.tools), Some(listed.value.mcp))
                        else NO_ANCHORS
    ensures ConfigOf(name, opts, w).Some? && w.get(SourceUrl(opts, PersonaFile(name, "prompt.md"))).Found?
    ensures PinsHold(opts, anchors, PinsOf(w, PromptOf(name, opts, w), ConfigOf(name, opts, w).value))
       <==> AsExpected(name, opts, w, listed)
  {
    SamePaths(name);
  }

  lemma VerifyingIff(name: string, opts: Options, w: World)
    requires Supported(opts) && Fetched(name, opts, w) && !opts.noVerifyManifest
    ensures Fetches(name, opts, w)
       <==> && !w.get(SourceUrl(opts, "personas/manifest.json")).Fails?
            && (w.get(SourceUrl(opts, "personas/manifest.json")).Found? ==>
                  !w.get(SourceUrl(opts, "personas/manifest.json.sig")).Fails?)
            && (forall m :: SignedByListed(opts, w, m) ==> Covers(name, opts, w, m))
            && (NoneSignedByListed(opts, w) ==> !w.allowlist && AsExpected(name, opts, w, None))
  {
    var manifestUrl, sigUrl := SourceUrl(opts, "personas/manifest.json"), SourceUrl(opts, "personas/manifest.json.sig");
    SamePaths(name);
    match Signed(w, manifestUrl, sigUrl) {
      case None =>
        HoldIffExpected(name, opts, w, NO_ANCHORS, None);
        assert NoneSignedByListed(opts, w);
      case Some((m, sig, key)) =>
        assert SignedByListed(opts, w, m) && forall n :: SignedByListed(opts, w, n) ==> n == m;
        HoldIffExpected(name, opts, w, NO_ANCHORS, None);
        if name in m.reviewers {
          HoldIffExpected(name, opts, w, EntryOf(m, name).value, Some(m.reviewers[name]));
        }
    }
  }

  /** The lock names the source, the ref and the reviewer, and holds the hash of each part that was fetched. */
  lemma LockHolds(name: string, opts: Options, w: World)
    requires Fetches(name, opts, w)
    ensures Fetched(name, opts, w)
    ensures var lock, persona := LockFor(name, opts, w), Configured(name, opts, w).value;
            && lock.source + "@" + lock.ref == opts.from && ValidRef(lock.ref) && lock.reviewer == name
            && lock.pins.prompt == w.hashPrompt(w.get(SourceUrl(opts, "personas/" + name + "/prompt.md")).body)
            && lock.pins.tools == w.hashTools(persona.tools)
            && lock.pins.mcp == w.hashMcp(persona.mcp)
  {
    SamePaths(name);
    var lock := LockFor(name, opts, w);
    SourceSpecRoundTrip(opts.from, lock.source, lock.ref);
  }

  /** A fetch whose source has its files and whose flags, if any, match what is fetched. */
  predicate Fetchable(name: string, opts: Options, w: World) {
    && ReviewerName(name) && Supported(opts) && w.reviewersDir
    && !opts.prompt.Bad? && !opts.tools.Bad? && !opts.mcp.Bad?
    && w.get(SourceUrl(opts, PersonaFile(name, "prompt.md"))).Found?
    && !w.get(SourceUrl(opts, PersonaFile(name, "config.yaml"))).Fails?
    && ConfigOf(name, opts, w).Some?
    && PinsHold(opts, NO_ANCHORS, PinsOf(w, PromptOf(name, opts, w), ConfigOf(name, opts, w).value))
  }

  /**
   * A name that a verified manifest does not list is fetched all the same, with nothing but the
   * flags to hold it to, exactly when it is inherited.
   */
  lemma UnlistedFetchedIffInherited(name: string, opts: Options, w: World, m: Manifest)
    requires Fetchable(name, opts, w) && !opts.noVerifyManifest
    requires VerifiedManifest(opts, w, m) && name !in m.reviewers
    ensures Fetches(name, opts, w) <==> name in Inherited(m)
  {
    var manifestUrl := SourceUrl(opts, "personas/manifest.json");
    var sigUrl := SourceUrl(opts, "personas/manifest.json.sig");
    var sig := Trim(w.get(sigUrl).body);
    assert Signed(w, manifestUrl, sigUrl) == Some((m, sig, w.keys[m.signedBy]));
  }

  /** A source on which everything is found and every manifest reads as `m`, and verifies. */
  function SampleWorld(m: Manifest): World {
    World(_ => Found("x"), true, map[m.signedBy := "key"], true,
      _ => Some(m), (_, _, _) => true, _ => Some(Persona("", "")), _ => "", _ => "", _ => "")
  }

  const SAMPLE := Options("o/r@v1", Absent, Absent, Absent, false)

  lemma SampleRef()
    ensures ValidRef("v1")
  {
    SplitWhole("v1", '/');
    assert RefShape("v1");
  }

  lemma SampleSource()
    ensures Shorthand("o/r")
  {
    assert "o/r" == "o" + ['/'] + "r";
    SplitAt("o", "r", '/');
    SplitWhole("r", '/');
  }

  lemma SampleIsSupported()
    ensures Supported(SAMPLE)
  {
    SampleRef();
    SampleSource();
    assert "o/r@v1" == PrintSourceSpec("o/r", "v1");
    SourceSpecRoundTrip("o/r@v1", "o/r", "v1");
  }

  lemma InheritedIsName(name: string, m: Manifest)
    requires name in Inherited(m)
    ensures ReviewerName(name)
  {
  }

  lemma SampleVerified(m: Manifest)
    requires Supported(SAMPLE)
    ensures VerifiedManifest(SAMPLE, SampleWorld(m), m)
  {
    assert TrimLeft("x") == "x" && TrimRight("x") == "x";
  }

  lemma SampleFetchable(name: string, m: Manifest)
    requires ReviewerName(name) && Supported(SAMPLE)
    ensures Fetchable(name, SAMPLE, SampleWorld(m))
  {
  }

  /**
   * Under an allowlist, a signed manifest that does not list the reviewer lets every inherited name
   * through; with a `__proto__` entry, which the signature does not cover, `prompt_sha256` is one.
   */
  lemma InheritedNamesAreNotCovered(name: string, m: Manifest)
    requires name !in m.reviewers && name in Inherited(m)
    ensures SampleWorld(m).allowlist && !SAMPLE.noVerifyManifest
    ensures Fetches(name, SAMPLE, SampleWorld(m))
  {
    SampleIsSupported();
    InheritedIsName(name, m);
    SampleVerified(m);
    SampleFetchable(name, m);
    UnlistedFetchedIffInherited(name, SAMPLE, SampleWorld(m), m);
  }

  /** The `__proto__` entry alone decides whether `prompt_sha256` is let through. */
  lemma PrototypeEntryLetsNamesThrough(pins: Pins)
    ensures Fetches("prompt_sha256", SAMPLE, SampleWorld(Manifest("k", map[], Some(pins))))
    ensures !Fetches("prompt_sha256", SAMPLE, SampleWorld(Manifest("k", map[], None)))
  {
    InheritedNamesAreNotCovered("prompt_sha256", Manifest("k", map[], Some(pins)));
    var bare := Manifest("k", map[], None);
    SampleIsSupported();
    assert "prompt_sha256" !in OBJECT_MEMBERS;
    InheritedIsName("prompt_sha256", Manifest("k", map[], Some(pins)));
    SampleVerified(bare);
    SampleFetchable("prompt_sha256", bare);
    UnlistedFetchedIffInherited("prompt_sha256", SAMPLE, SampleWorld(bare), bare);
  }
}
