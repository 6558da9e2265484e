/**
 * What `stamp pr listen` checks before it acts on an event: the PR URL (src/lib/prUrlBinding.ts),
 * the author's standing (src/lib/peerOperatorVerify.ts) and the repository's consent
 * (src/lib/dataFlow.ts), in the order of the event loop (src/commands/prListen.ts).
 */
module Admission {
  import opened Results
  import opened Strings

  // ----- The PR URL ----------------------------------------------------------------------------

  const PEER_PR_HOST := "github.com"

  datatype PrUrl = PrUrl(owner: string, repo: string, number: nat)

  predicate AlnumDashDot(c: char) { Alnum(c) || c == '-' || c == '.' }

  predicate HostText(s: string) {
    s != "" && forall i :: 0 <= i < |s| ==> AlnumDashDot(s[i])
  }

  predicate SegmentText(s: string) {
    s != "" && forall i :: 0 <= i < |s| ==> AlnumDashDot(s[i]) || s[i] == '_'
  }

  /** One to ten digits, the first not zero. */
  predicate NumberText(s: string) {
    1 <= |s| <= 10 && s[0] != '0' && forall i :: 0 <= i < |s| ==> '0' <= s[i] <= '9'
  }

  predicate Dots(s: string) { s == "." || s == ".." }

  /** `parseGithubPrUrl`; the pattern's five parts contain no slash, so splitting finds them. */
  function ParsePrUrl(url: string): Option<PrUrl> {
    if |url| < 8 || url[..8] != "https://" then None
    else
      var parts := Split(url[8..], '/');
      if |parts| != 5 || !HostText(parts[0]) || !SegmentText(parts[1]) || !SegmentText(parts[2])
         || parts[3] != "pull" || !NumberText(parts[4]) then None
      else if Lower(parts[0]) != PEER_PR_HOST then None
      else if Dots(parts[1]) || Dots(parts[2]) then None
      else Some(PrUrl(parts[1], parts[2], Number(parts[4])))
  }

  predicate WellFormed(pr: PrUrl) {
    && SegmentText(pr.owner) && SegmentText(pr.repo) && !Dots(pr.owner) && !Dots(pr.repo)
    && 0 < pr.number && NumberText(Decimal(pr.number))
  }

  /** The URL of a PR on a host spelled in any letter case. */
  function UrlOf(host: string, pr: PrUrl): string {
    "https://" + Join([host, pr.owner, pr.repo, "pull", Decimal(pr.number)], "/")
  }

  ghost predicate GithubHost(host: string) {
    Lower(host) == PEER_PR_HOST && HostText(host)
  }

  lemma AcceptedIsUrl(url: string)
    requires ParsePrUrl(url).Some?
    ensures var pr, host := ParsePrUrl(url).value, Split(url[8..], '/')[0];
            WellFormed(pr) && GithubHost(host) && url == UrlOf(host, pr)
  {
    var parts := Split(url[8..], '/');
    var pr := ParsePrUrl(url).value;
    JoinSplit(url[8..], '/');
    DecimalOfNumber(parts[4]);
    assert parts == [parts[0], pr.owner, pr.repo, "pull", Decimal(pr.number)];
    assert url == url[..8] + url[8..];
  }

  lemma UrlParts(host: string, pr: PrUrl)
    requires WellFormed(pr) && HostText(host)
    ensures var url := UrlOf(host, pr);
            && |url| >= 8 && url[..8] == "https://"
            && Split(url[8..], '/') == [host, pr.owner, pr.repo, "pull", Decimal(pr.number)]
  {
    var url := UrlOf(host, pr);
    var parts := [host, pr.owner, pr.repo, "pull", Decimal(pr.number)];
    forall i | 0 <= i < |parts| ensures '/' !in parts[i] {
      assert '/' !in "pull";
    }
    SplitJoin(parts, '/');
    assert url[8..] == Join(parts, "/");
  }

  lemma UrlIsAccepted(host: string, pr: PrUrl)
    requires WellFormed(pr) && GithubHost(host)
    ensures ParsePrUrl(UrlOf(host, pr)) == Some(pr)
  {
    UrlParts(host, pr);
    NumberOfDecimal(pr.number);
  }

  /** A URL is accepted exactly when it is that of a well-formed PR on github.com, and it is read back. */
  lemma UrlsAccepted(url: string, pr: PrUrl)
    ensures ParsePrUrl(url) == Some(pr)
       <==> WellFormed(pr) && exists host :: GithubHost(host) && url == UrlOf(host, pr)
  {
    if ParsePrUrl(url) == Some(pr) {
      AcceptedIsUrl(url);
    }
    if WellFormed(pr) {
      forall host | GithubHost(host) && url == UrlOf(host, pr) ensures ParsePrUrl(url) == Some(pr) {
        UrlIsAccepted(host, pr);
      }
    }
  }

  /** `checkPrUrlBinding`. */
  function BindPrUrl(url: string, repo: string): Option<PrUrl> {
    match ParsePrUrl(url)
    case None => None
    case Some(pr) => if Lower(pr.owner + "/" + pr.repo) == Lower(repo) then Some(pr) else None
  }

  // ----- The author and the repository ---------------------------------------------------------

  predicate FullSha(s: string) {
    |s| == 40 && forall i :: 0 <= i < |s| ==> HexDigit(s[i])
  }

  datatype DataFlow = DataFlow(requireConfirmation: bool, confirmed: bool, endpoints: set<string>)

  /**
   * The mapped local clone. `operators` and `dataFlow` give, at each commit where the file can be
   * read and parsed, the operator keys of the manifest and the `data_flow` block of the config.
   */
  datatype Clone = Clone(
    tip: Option<string>, commits: set<string>, ancestry: set<(string, string)>,
    operators: map<string, set<string>>, dataFlow: map<string, Option<DataFlow>>)

  predicate OperatorAt(clone: Clone, sha: string, fp: string) {
    sha in clone.operators && fp in clone.operators[sha]
  }

  /** `verifyPeerAuthorLocal`. */
  predicate AuthorVerified(clone: Clone, baseSha: string, fp: string) {
    if !FullSha(baseSha) then false
    else if clone.tip.None? then false
    else if baseSha !in clone.commits then false
    else if (baseSha, clone.tip.value) !in clone.ancestry then false
    else if !OperatorAt(clone, baseSha, fp) then false
    else if clone.tip.value != baseSha then OperatorAt(clone, clone.tip.value, fp)
    else true
  }

  datatype Endpoint = Endpoint(host: Option<string>, offHost: bool)

  /** `checkPeerDataFlow`. */
  predicate Consents(block: Option<DataFlow>, endpoint: Endpoint) {
    if !endpoint.offHost then true
    else if block.Some? && block.value.requireConfirmation && !block.value.confirmed then false
    else if endpoint.host.None? then false
    else block.Some? && endpoint.host.value in block.value.endpoints
  }

  /** The loop over `refs`: every commit must be readable and consent. */
  method DataFlowGate(clone: Clone, baseSha: string, endpoint: Endpoint) returns (ok: bool)
    ensures ok == ConsentGate(clone, baseSha, endpoint)
  {
    if !endpoint.offHost {
      return true;
    }
    if clone.tip.None? {
      return false;
    }
    var refs := if clone.tip.value == baseSha then [baseSha] else [baseSha, clone.tip.value];
    var i := 0;
    while i < |refs|
      invariant i <= |refs|
      invariant forall j :: 0 <= j < i ==> ConsentAt(clone, refs[j], endpoint)
    {
      if refs[i] !in clone.dataFlow {
        return false;
      }
      if !Consents(clone.dataFlow[refs[i]], endpoint) {
        return false;
      }
      i := i + 1;
    }
    assert ConsentAt(clone, refs[0], endpoint) && ConsentAt(clone, refs[|refs| - 1], endpoint);
    return true;
  }

  predicate ConsentAt(clone: Clone, sha: string, endpoint: Endpoint) {
    sha in clone.dataFlow && Consents(clone.dataFlow[sha], endpoint)
  }

  predicate ConsentGate(clone: Clone, baseSha: string, endpoint: Endpoint) {
    endpoint.offHost ==>
      clone.tip.Some? && ConsentAt(clone, baseSha, endpoint) && ConsentAt(clone, clone.tip.value, endpoint)
  }

  // ----- An event ------------------------------------------------------------------------------

  /** A field of the payload is `None` when it is missing or not a string. */
  datatype PrEvent = PrEvent(
    kind: string, actorFp: string, eventPatch: string,
    patchId: Option<string>, baseSha: Option<string>, headSha: Option<string>,
    repoField: Option<string>, prUrl: Option<string>, requestedBy: Option<string>)
  {
    function Patch(): string { if patchId.Some? then patchId.value else eventPatch }
    function Repo(): string { if repoField.Some? then repoField.value else "unknown/unknown" }
    function Url(): string { if prUrl.Some? then prUrl.value else "" }
    function Author(): string { if requestedBy.Some? then requestedBy.value else actorFp }
  }

  /** `repos` is peer-repos.yml, whose keys are in lower case. */
  datatype Config = Config(fingerprint: string, endpoint: Endpoint, repos: map<string, string>)

  /** An event that passed every check: what the rest of the iteration works with. */
  datatype Admitted = Admitted(pr: PrUrl, patch: string, baseSha: string, headSha: string)

  function NoClone(): Clone { Clone(None, {}, {}, map[], map[]) }

  function CloneAt(clones: map<string, Clone>, path: string): Clone {
    if path in clones then clones[path] else NoClone()
  }

  /** The guards of the loop, in order; each failing guard is a `continue`. */
  function Admit(config: Config, event: PrEvent, clones: map<string, Clone>): Option<Admitted> {
    var binding := BindPrUrl(event.Url(), event.Repo());
    if binding.None? then None
    else if event.baseSha.None? || !FullSha(event.baseSha.value)
         || event.headSha.None? || !FullSha(event.headSha.value) then None
    else if event.Author() == config.fingerprint then None
    else if Lower(event.Repo()) !in config.repos then None
    else
      var clone := CloneAt(clones, config.repos[Lower(event.Repo())]);
      if !AuthorVerified(clone, event.baseSha.value, event.Author()) then None
      else if !ConsentGate(clone, event.baseSha.value, config.endpoint) then None
      else Some(Admitted(binding.value, event.Patch(), event.baseSha.value, event.headSha.value))
  }

  /** What a full SHA is to be: forty digits or letters from `a` to `f`. */
  ghost predicate LowerHex40(s: string) {
    |s| == 40 && forall c :: c in s ==> '0' <= c <= '9' || 'a' <= c <= 'f'
  }

  lemma FullShaIff(s: string)
    ensures FullSha(s) <==> LowerHex40(s)
  {
    assert forall i :: 0 <= i < |s| ==> s[i] in s;
  }

  /** The two commits whose policy counts: the cited base and the protected tip. */
  predicate PolicyRef(clone: Clone, baseSha: string, sha: string) {
    sha == baseSha || clone.tip == Some(sha)
  }

  /**
   * What admission promises about the repository: the base is on the protected branch, and at the
   * base and at the tip alike the author is an operator and, off-host, the endpoint is consented to.
   */
  ghost predicate Authorized(config: Config, event: PrEvent, clone: Clone, baseSha: string) {
    && clone.tip.Some?
    && baseSha in clone.commits && (baseSha, clone.tip.value) in clone.ancestry
    && event.Author() != config.fingerprint
    && forall sha :: PolicyRef(clone, baseSha, sha) ==>
         && sha in clone.operators && event.Author() in clone.operators[sha]
         && (config.endpoint.offHost ==>
               && config.endpoint.host.Some?
               && sha in clone.dataFlow && clone.dataFlow[sha].Some?
               && config.endpoint.host.value in clone.dataFlow[sha].value.endpoints
               && (clone.dataFlow[sha].value.requireConfirmation ==> clone.dataFlow[sha].value.confirmed))
  }

  /** An event is admitted exactly when all the conditions hold, and only for the PR it names. */
  lemma AdmitIff(config: Config, event: PrEvent, clones: map<string, Clone>, a: Admitted)
    ensures Admit(config, event, clones) == Some(a)
       <==> && ParsePrUrl(event.Url()) == Some(a.pr)
            && Lower(a.pr.owner + "/" + a.pr.repo) == Lower(event.Repo())
            && event.baseSha == Some(a.baseSha) && event.headSha == Some(a.headSha)
            && LowerHex40(a.baseSha) && LowerHex40(a.headSha) && a.patch == event.Patch()
            && Lower(event.Repo()) in config.repos
            && Authorized(config, event, CloneAt(clones, config.repos[Lower(event.Repo())]), a.baseSha)
  {
    FullShaIff(a.baseSha);
    FullShaIff(a.headSha);
    if Lower(event.Repo()) in config.repos {
      var clone := CloneAt(clones, config.repos[Lower(event.Repo())]);
      assert PolicyRef(clone, a.baseSha, a.baseSha);
      assert clone.tip.Some? ==> PolicyRef(clone, a.baseSha, clone.tip.value);
      if event.baseSha.Some? {
        var base := event.baseSha.value;
        assert PolicyRef(clone, base, base);
      }
    }
  }

  /** A key removed at the tip stops its events, whatever base they cite. */
  lemma RevocationSticks(config: Config, event: PrEvent, clones: map<string, Clone>, path: string)
    requires Lower(event.Repo()) in config.repos && config.repos[Lower(event.Repo())] == path
    requires CloneAt(clones, path).tip.Some? ==>
               var clone := CloneAt(clones, path);
               clone.tip.value !in clone.operators || event.Author() !in clone.operators[clone.tip.value]
    ensures Admit(config, event, clones).None?
  {
    var r := Admit(config, event, clones);
    if r.Some? {
      AdmitIff(config, event, clones, r.value);
      var clone := CloneAt(clones, path);
      assert PolicyRef(clone, r.value.baseSha, clone.tip.value);
      assert false;
    }
  }
}
