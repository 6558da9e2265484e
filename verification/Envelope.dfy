/**
 * The signed v4 envelope, from both ends: how `stamp merge` builds it (src/commands/merge.ts,
 * src/lib/trustAnchorCollection.ts) and how the pre-receive hook checks it (src/lib/v4Trust.ts).
 */
module Envelope {
  import opened Capabilities
  import opened Results
  import opened Strings
  import opened LatestRows
  import opened Approvals
  import Glob

  // ----- The envelope --------------------------------------------------------------------------

  const CURRENT_V4_SCHEMA_VERSION := 5

  datatype Check = Check(name: string, command: string, exitCode: int, outputSha: string)

  /** An admin's counter-signature. */
  datatype Anchor = Anchor(signer: string, signature: string)

  datatype Payload = Payload(
    schema: nat, target: Target, branch: string, snapshot: string, approvals: seq<Entry>,
    checks: seq<Check>, anchors: seq<Anchor>, signer: string)

  /** `capability` is `None` when the rule names no capability that exists. */
  datatype PathRule = PathRule(pattern: string, capability: Option<Capability>, minimum: nat, bypass: bool)

  /** Canonical payload bytes and signing, beside what `Approvals.Crypto` has. */
  datatype Keys = Keys(crypto: Crypto, payloadBytes: Payload -> string, sign: (string, string) -> string)

  /** What both ends read at the merge base (and, for the repository id, at the target's tip). */
  datatype Base = Base(
    trust: Trust, snapshot: string, rules: seq<PathRule>, changed: Option<seq<string>>,
    tipRepoId: Field, baseRepoId: Field)
  {
    function Binding(): Binding { ResolveBinding([tipRepoId, baseRepoId]) }
  }

  /** The bytes an admin signs: the payload without any counter-signature. */
  function AnchorBytes(keys: Keys, p: Payload): string {
    keys.payloadBytes(p.(anchors := []))
  }

  // ----- Building it ---------------------------------------------------------------------------

  predicate AnchorValid(keys: Keys, trust: Trust, bytes: string, a: Anchor) {
    trust.Pub(a.signer) && keys.crypto.verify(trust.pubs[a.signer], bytes, a.signature)
  }

  /** The note's signatures that are kept: the first of each signer, if an admin's and genuine. */
  function KeptAnchors(keys: Keys, trust: Trust, bytes: string, note: seq<Anchor>, seen: set<string>): seq<Anchor>
    decreases |note|
  {
    if note == [] then []
    else
      var a, rest := note[0], note[1..];
      if a.signer in seen then KeptAnchors(keys, trust, bytes, rest, seen)
      else
        (if trust.Has(a.signer, Admin) && AnchorValid(keys, trust, bytes, a) then [a] else [])
        + KeptAnchors(keys, trust, bytes, rest, seen + {a.signer})
  }

  /** The loop over the note in `collectTrustAnchorSignatures`. */
  method CollectVerified(keys: Keys, trust: Trust, bytes: string, note: seq<Anchor>) returns (verified: seq<Anchor>)
    ensures verified == KeptAnchors(keys, trust, bytes, note, {})
  {
    verified := [];
    var seen := {};
    var i := 0;
    assert note[0..] == note;
    while i < |note|
      invariant i <= |note|
      invariant verified + KeptAnchors(keys, trust, bytes, note[i..], seen) == KeptAnchors(keys, trust, bytes, note, {})
    {
      var sig := note[i];
      ghost var before := verified;
      assert note[i..][1..] == note[i + 1..];
      i := i + 1;
      if sig.signer in seen {
        continue;
      }
      seen := seen + {sig.signer};
      ghost var rest := KeptAnchors(keys, trust, bytes, note[i..], seen);
      Assoc(before, [sig], rest);
      assert [] + rest == rest;
      if sig.signer !in trust.capabilities || Admin !in trust.capabilities[sig.signer] {
        continue;
      }
      if !trust.Pub(sig.signer) {
        continue;
      }
      if !keys.crypto.verify(trust.pubs[sig.signer], bytes, sig.signature) {
        continue;
      }
      verified := verified + [sig];
    }
    assert verified + [] == verified;
  }

  /** How many of the signers hold the rule's capability. */
  function Qualifying(trust: Trust, signers: seq<string>, rule: PathRule): nat {
    if signers == [] then 0
    else
      (if rule.capability.Some? && trust.Has(signers[0], rule.capability.value) then 1 else 0)
      + Qualifying(trust, signers[1..], rule)
  }

  function Signers(anchors: seq<Anchor>): seq<string> {
    seq(|anchors|, i requires 0 <= i < |anchors| => anchors[i].signer)
  }

  predicate ProducerTouches(rule: PathRule, changed: seq<string>) {
    exists i :: 0 <= i < |changed| && Glob.ProducerMatches(rule.pattern, changed[i])
  }

  predicate VerifierTouches(rule: PathRule, changed: seq<string>) {
    exists i :: 0 <= i < |changed| && Glob.VerifierMatches(rule.pattern, changed[i])
  }

  predicate AnyProducerTouches(rules: seq<PathRule>, changed: seq<string>) {
    exists i :: 0 <= i < |rules| && ProducerTouches(rules[i], changed)
  }

  datatype BuildFailure = Fold(refusal: Refusal) | TooFewAnchors

  /** `collectTrustAnchorSignatures`. */
  function CollectAnchors(keys: Keys, base: Base, bare: Payload, note: seq<Anchor>): Result<seq<Anchor>, BuildFailure> {
    if base.rules == [] || base.changed.None? || !AnyProducerTouches(base.rules, base.changed.value) then Ok([])
    else if note == [] then Err(TooFewAnchors)
    else
      var verified := KeptAnchors(keys, base.trust, AnchorBytes(keys, bare), note, {});
      if forall i :: 0 <= i < |base.rules| && ProducerTouches(base.rules[i], base.changed.value) ==>
           Qualifying(base.trust, Signers(verified), base.rules[i]) >= base.rules[i].minimum
      then Ok(verified)
      else Err(TooFewAnchors)
  }

  /** `buildV4Trailers`: the payload and the operator's signature over it. */
  function BuildEnvelope(keys: Keys, base: Base, target: Target, branch: string, rows: seq<Row>, required: seq<string>,
      checks: seq<Check>, note: seq<Anchor>, signer: string, privateKey: string): Result<(Payload, string), BuildFailure>
  {
    match MergeFold(keys.crypto, base.trust, target, base.Binding(), rows, required)
    case Err(refusal) => Err(Fold(refusal))
    case Ok(entries) =>
      var bare := Payload(CURRENT_V4_SCHEMA_VERSION, target, branch, base.snapshot, entries, checks, [], signer);
      match CollectAnchors(keys, base, bare, note)
      case Err(f) => Err(f)
      case Ok(anchors) =>
        var payload := bare.(anchors := anchors);
        Ok((payload, keys.sign(privateKey, keys.payloadBytes(payload))))
  }

  // ----- Checking it ---------------------------------------------------------------------------

  /** The pushed commit: its parents, and the merge base git finds for the first two. */
  datatype MergeCommit = MergeCommit(parents: seq<string>, mergeBase: string)

  /** The branch rule the hook goes by. */
  datatype BranchRule = BranchRule(required: seq<string>, checks: seq<string>)

  /** Everything one phase looks at; `diffSha` is recomputed from the repository. */
  datatype Push = Push(commit: MergeCommit, branch: string, rule: BranchRule, diffSha: string, payload: Payload, signature: string)

  predicate MergeStructure(push: Push) {
    && |push.commit.parents| == 2 && push.commit.parents[1] == push.payload.target.headSha
    && push.commit.mergeBase == push.payload.target.baseSha
  }

  predicate TargetBranch(push: Push) { push.payload.branch == push.branch }

  predicate SignerTrust(base: Base, push: Push) {
    && push.payload.signer in base.trust.capabilities
    && (Admin in base.trust.capabilities[push.payload.signer] || Operator in base.trust.capabilities[push.payload.signer])
    && push.payload.signer in base.trust.pubs
  }

  predicate OuterSignature(keys: Keys, base: Base, push: Push)
    requires SignerTrust(base, push)
  {
    keys.crypto.verify(base.trust.pubs[push.payload.signer], keys.payloadBytes(push.payload), push.signature)
  }

  predicate ManifestSnapshot(base: Base, push: Push) { push.payload.snapshot == base.snapshot }

  /** The name is in the set of approving reviewers. */
  predicate ApprovedBy(es: seq<Entry>, name: string) {
    exists j :: 0 <= j < |es| && es[j].approval.verdict == Text("approved") && es[j].approval.reviewer == Text(name)
  }

  predicate RequiredApprovals(push: Push) {
    forall i :: 0 <= i < |push.rule.required| ==> ApprovedBy(push.payload.approvals, push.rule.required[i])
  }

  predicate DiffHash(push: Push) {
    && push.diffSha == push.payload.target.diffSha
    && forall i :: 0 <= i < |push.payload.approvals| ==> push.payload.approvals[i].approval.diffSha == Text(push.diffSha)
  }

  predicate ApprovalSignatures(keys: Keys, base: Base, push: Push) {
    forall i :: 0 <= i < |push.payload.approvals| ==>
      var e := push.payload.approvals[i];
      && e.approval.baseSha == Text(push.payload.target.baseSha)
      && e.approval.headSha == Text(push.payload.target.headSha)
      && e.approval.serverKey == Text(e.keyId)
      && base.trust.Has(e.keyId, Server) && base.trust.Pub(e.keyId)
      && keys.crypto.verify(base.trust.pubs[e.keyId], keys.crypto.approvalBytes(e.approval), e.signature)
  }

  predicate RepoBinding(base: Base, push: Push) {
    forall i :: 0 <= i < |push.payload.approvals| ==> RepoAccepted(push.payload.approvals[i].approval.repoId, base.Binding())
  }

  function CheckName(c: Check): string { c.name }

  predicate Attested(checks: seq<Check>, name: string) {
    name in Latest(checks, CheckName) && Latest(checks, CheckName)[name].exitCode == 0
  }

  predicate Checks(push: Push) {
    forall i :: 0 <= i < |push.rule.checks| ==> Attested(push.payload.checks, push.rule.checks[i])
  }

  predicate AnchorsGenuine(keys: Keys, trust: Trust, bytes: string, anchors: seq<Anchor>, seen: set<string>)
    decreases |anchors|
  {
    anchors == [] ||
    (&& anchors[0].signer !in seen
     && trust.Has(anchors[0].signer, Admin) && AnchorValid(keys, trust, bytes, anchors[0])
     && AnchorsGenuine(keys, trust, bytes, anchors[1..], seen + {anchors[0].signer}))
  }

  predicate TrustAnchorSignatures(keys: Keys, base: Base, push: Push) {
    AnchorsGenuine(keys, base.trust, AnchorBytes(keys, push.payload), push.payload.anchors, {})
  }

  /** The guard's own recount: genuine signers, each once, whether or not they are admins. */
  function ValidSigners(keys: Keys, trust: Trust, bytes: string, anchors: seq<Anchor>, seen: set<string>): seq<string>
    decreases |anchors|
  {
    if anchors == [] then []
    else
      var a, rest := anchors[0], anchors[1..];
      if a.signer in seen || !AnchorValid(keys, trust, bytes, a) then ValidSigners(keys, trust, bytes, rest, seen)
      else [a.signer] + ValidSigners(keys, trust, bytes, rest, seen + {a.signer})
  }

  predicate StampPathsGuard(keys: Keys, base: Base, push: Push, changed: seq<string>) {
    var signers := ValidSigners(keys, base.trust, AnchorBytes(keys, push.payload), push.payload.anchors, {});
    forall i :: 0 <= i < |base.rules| && VerifierTouches(base.rules[i], changed) ==>
      && Qualifying(base.trust, signers, base.rules[i]) >= base.rules[i].minimum
      && (base.rules[i].bypass || push.payload.approvals != [])
  }

  /** All twelve phases, in order; an unreadable list of changed files is a rejection. */
  predicate Accepts(keys: Keys, base: Base, push: Push) {
    && base.changed.Some?
    && MergeStructure(push) && TargetBranch(push) && SignerTrust(base, push) && OuterSignature(keys, base, push)
    && ManifestSnapshot(base, push) && RequiredApprovals(push) && DiffHash(push)
    && ApprovalSignatures(keys, base, push) && RepoBinding(base, push) && Checks(push)
    && TrustAnchorSignatures(keys, base, push) && StampPathsGuard(keys, base, push, base.changed.value)
  }

  // ----- What the hook makes of an honest merge --------------------------------------------------

  lemma {:induction false} KeptAreGenuine(keys: Keys, trust: Trust, bytes: string, note: seq<Anchor>,
      seen: set<string>, taken: set<string>)
    requires taken <= seen
    ensures var kept := KeptAnchors(keys, trust, bytes, note, seen);
            AnchorsGenuine(keys, trust, bytes, kept, taken)
    decreases |note|
  {
    if note != [] {
      var a, rest := note[0], note[1..];
      if a.signer in seen {
        KeptAreGenuine(keys, trust, bytes, rest, seen, taken);
      } else if trust.Has(a.signer, Admin) && AnchorValid(keys, trust, bytes, a) {
        KeptAreGenuine(keys, trust, bytes, rest, seen + {a.signer}, taken + {a.signer});
        var more := KeptAnchors(keys, trust, bytes, rest, seen + {a.signer});
        assert ([a] + more)[1..] == more;
      } else {
        KeptAreGenuine(keys, trust, bytes, rest, seen + {a.signer}, taken);
        var more := KeptAnchors(keys, trust, bytes, rest, seen + {a.signer});
        assert [] + more == more;
      }
    }
  }

  /** On a list the signature phase accepts, the guard counts every signer once. */
  lemma {:induction false} GenuineAllCount(keys: Keys, trust: Trust, bytes: string, anchors: seq<Anchor>, seen: set<string>)
    requires AnchorsGenuine(keys, trust, bytes, anchors, seen)
    ensures ValidSigners(keys, trust, bytes, anchors, seen) == Signers(anchors)
    decreases |anchors|
  {
    if anchors != [] {
      GenuineAllCount(keys, trust, bytes, anchors[1..], seen + {anchors[0].signer});
      assert Signers(anchors) == [anchors[0].signer] + Signers(anchors[1..]);
    }
  }

  /** The two copies of the glob compiler agree on a pattern that does not collide. */
  lemma TouchesAgree(rule: PathRule, changed: seq<string>)
    requires Glob.NulFree(rule.pattern) && !Glob.Collides(rule.pattern)
    ensures ProducerTouches(rule, changed) <==> VerifierTouches(rule, changed)
  {
    Glob.ProducerEqualsVerifier(rule.pattern);
  }

  predicate OkPatterns(rules: seq<PathRule>) {
    forall i :: 0 <= i < |rules| ==> Glob.NulFree(rules[i].pattern)
  }

  /** What a matched rule still asks of an envelope the producer let through. */
  predicate RuleLeftOver(base: Base, payload: Payload, required: seq<string>, rule: PathRule) {
    && (rule.bypass || required != [])
    && (Glob.Collides(rule.pattern) ==> Qualifying(base.trust, Signers(payload.anchors), rule) >= rule.minimum)
  }

  lemma {:induction false} AnchorsOfBuild(keys: Keys, base: Base, bare: Payload, note: seq<Anchor>, anchors: seq<Anchor>)
    requires CollectAnchors(keys, base, bare, note) == Ok(anchors) && bare.anchors == []
    ensures AnchorsGenuine(keys, base.trust, AnchorBytes(keys, bare.(anchors := anchors)), anchors, {})
    ensures ValidSigners(keys, base.trust, AnchorBytes(keys, bare.(anchors := anchors)), anchors, {}) == Signers(anchors)
    ensures base.changed.Some? ==>
              forall i :: 0 <= i < |base.rules| && ProducerTouches(base.rules[i], base.changed.value) ==>
                Qualifying(base.trust, Signers(anchors), base.rules[i]) >= base.rules[i].minimum
  {
    var bytes := AnchorBytes(keys, bare);
    assert bare.(anchors := anchors).(anchors := []) == bare.(anchors := []);
    KeptAreGenuine(keys, base.trust, bytes, note, {}, {});
    assert AnchorsGenuine(keys, base.trust, bytes, anchors, {});
    GenuineAllCount(keys, base.trust, bytes, anchors, {});
    assert AnchorBytes(keys, bare.(anchors := anchors)) == bytes;
  }

  /** The guard, on what the producer let through. */
  lemma {:induction false} GuardOfBuild(keys: Keys, base: Base, push: Push, required: seq<string>)
    requires base.changed.Some? && OkPatterns(base.rules)
    requires |push.payload.approvals| == |required|
    requires ValidSigners(keys, base.trust, AnchorBytes(keys, push.payload), push.payload.anchors, {})
          == Signers(push.payload.anchors)
    requires forall i :: 0 <= i < |base.rules| && ProducerTouches(base.rules[i], base.changed.value) ==>
               Qualifying(base.trust, Signers(push.payload.anchors), base.rules[i]) >= base.rules[i].minimum
    ensures StampPathsGuard(keys, base, push, base.changed.value)
       <==> forall i :: 0 <= i < |base.rules| && VerifierTouches(base.rules[i], base.changed.value) ==>
              RuleLeftOver(base, push.payload, required, base.rules[i])
  {
    forall i | 0 <= i < |base.rules| && !Glob.Collides(base.rules[i].pattern)
      ensures ProducerTouches(base.rules[i], base.changed.value) <==> VerifierTouches(base.rules[i], base.changed.value)
    {
      TouchesAgree(base.rules[i], base.changed.value);
    }
    assert push.payload.approvals == [] <==> required == [];
  }

  /** Approved reviewers are exactly the required ones. */
  lemma ApprovalsOfBuild(keys: Keys, base: Base, rows: seq<Row>, required: seq<string>, push: Push)
    requires Complete(keys.crypto, base.trust, push.payload.target, rows, required, push.payload.approvals)
    requires AllBound(push.payload.approvals, base.Binding())
    requires push.diffSha == push.payload.target.diffSha
    ensures DiffHash(push) && ApprovalSignatures(keys, base, push) && RepoBinding(base, push)
    ensures RequiredApprovals(push) <==> forall i :: 0 <= i < |push.rule.required| ==> push.rule.required[i] in required
  {
    var es := push.payload.approvals;
    assert forall j :: 0 <= j < |es| ==> Attests(keys.crypto, base.trust, push.payload.target, required[j], es[j]);
    forall i | 0 <= i < |push.rule.required|
      ensures push.rule.required[i] in required <==> ApprovedBy(es, push.rule.required[i])
    {
      if push.rule.required[i] in required {
        var j :| 0 <= j < |required| && required[j] == push.rule.required[i];
        assert es[j].approval.reviewer == Text(push.rule.required[i]);
      }
    }
  }

  /**
   * The hook accepts an envelope that `stamp merge` built exactly when: the commit is the merge it
   * claims to be, on its branch, with the diff that was hashed; the operator's key is an admin or
   * operator key committed at base; the hook's required reviewers and checks are among those the
   * merge covered; and every path rule that the hook matches lets the merge through without reviews,
   * or there were some, and, for a pattern the producer's compiler garbles, has its signatures all
   * the same. All else, that is the operator's signature, the snapshot, every approval and
   * counter-signature, is in order.
   */
  lemma HookAcceptsExactly(keys: Keys, base: Base, target: Target, branch: string, rows: seq<Row>, required: seq<string>,
      checks: seq<Check>, note: seq<Anchor>, signer: string, privateKey: string, push: Push)
    requires BuildEnvelope(keys, base, target, branch, rows, required, checks, note, signer, privateKey)
          == Ok((push.payload, push.signature))
    requires OkPatterns(base.rules)
    requires signer in base.trust.pubs ==>
               forall bytes :: keys.crypto.verify(base.trust.pubs[signer], bytes, keys.sign(privateKey, bytes))
    ensures Accepts(keys, base, push)
       <==> && base.changed.Some?
            && push.commit.mergeBase == target.baseSha
            && |push.commit.parents| == 2 && push.commit.parents[1] == target.headSha
            && push.branch == branch && push.diffSha == target.diffSha
            && signer in base.trust.pubs && (base.trust.Has(signer, Admin) || base.trust.Has(signer, Operator))
            && (forall i :: 0 <= i < |push.rule.required| ==> push.rule.required[i] in required)
            && (forall i :: 0 <= i < |push.rule.checks| ==> Attested(checks, push.rule.checks[i]))
            && forall i :: 0 <= i < |base.rules| && VerifierTouches(base.rules[i], base.changed.value) ==>
                 RuleLeftOver(base, push.payload, required, base.rules[i])
  {
    var entries := MergeFold(keys.crypto, base.trust, target, base.Binding(), rows, required).value;
    var bare := Payload(CURRENT_V4_SCHEMA_VERSION, target, branch, base.snapshot, entries, checks, [], signer);
    MergeFoldIff(keys.crypto, base.trust, target, base.Binding(), rows, required, entries);
    AnchorsOfBuild(keys, base, bare, note, push.payload.anchors);
    if push.diffSha == target.diffSha {
      ApprovalsOfBuild(keys, base, rows, required, push);
    }
    if base.changed.Some? {
      GuardOfBuild(keys, base, push, required);
    }
  }
}
