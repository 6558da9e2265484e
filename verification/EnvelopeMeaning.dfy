/**
 * What an envelope that the hook accepts proves, whoever made it (src/lib/v4Trust.ts), and what
 * envelope the merge builds (src/commands/merge.ts, src/lib/trustAnchorCollection.ts), both without
 * the phases and loops that decide it.
 */
module EnvelopeMeaning {
  import opened Capabilities
  import opened Results
  import opened Strings
  import opened LatestRows
  import opened Approvals
  import opened Envelope
  import Glob

  // ----- What the hook is to ensure --------------------------------------------------------------

  /** The signature verifies over the payload under the committed key of an admin or an operator. */
  predicate OperatorSigned(keys: Keys, trust: Trust, payload: Payload, signature: string) {
    && payload.signer in trust.capabilities
    && (Admin in trust.capabilities[payload.signer] || Operator in trust.capabilities[payload.signer])
    && payload.signer in trust.pubs
    && keys.crypto.verify(trust.pubs[payload.signer], keys.payloadBytes(payload), signature)
  }

  /** The approval is for this base, head and diff, and verifies under the server key it names. */
  predicate ApprovalHolds(keys: Keys, trust: Trust, target: Target, e: Entry) {
    && e.approval.baseSha == Text(target.baseSha) && e.approval.headSha == Text(target.headSha)
    && e.approval.diffSha == Text(target.diffSha) && e.approval.serverKey == Text(e.keyId)
    && e.keyId in trust.capabilities && Server in trust.capabilities[e.keyId]
    && e.keyId in trust.pubs && trust.pubs[e.keyId] != ""
    && keys.crypto.verify(trust.pubs[e.keyId], keys.crypto.approvalBytes(e.approval), e.signature)
  }

  /** With ids declared at tip or base, the approval carries one of them; none is declared malformed. */
  predicate IdHolds(repoId: Field, tip: Field, base: Field) {
    && tip != Other && base != Other
    && ((tip == Missing && base == Missing) || (repoId.Text? && (repoId == tip || repoId == base)))
  }

  /** Some approval of this reviewer says approved. */
  ghost predicate Approves(approvals: seq<Entry>, name: string) {
    exists e :: e in approvals && e.approval.reviewer == Text(name) && e.approval.verdict == Text("approved")
  }

  /** The check was attested, and its last attestation exits 0. */
  ghost predicate LastExitsZero(checks: seq<Check>, name: string) {
    exists k :: 0 <= k < |checks| && checks[k].name == name && checks[k].exitCode == 0
                && forall j :: k < j < |checks| ==> checks[j].name != name
  }

  /** The counter-signature is an admin's and verifies over the payload without counter-signatures. */
  predicate AdminSigned(keys: Keys, trust: Trust, payload: Payload, a: Anchor) {
    && a.signer in trust.capabilities && Admin in trust.capabilities[a.signer]
    && a.signer in trust.pubs && trust.pubs[a.signer] != ""
    && keys.crypto.verify(trust.pubs[a.signer], keys.payloadBytes(payload.(anchors := [])), a.signature)
  }

  predicate DistinctSigners(anchors: seq<Anchor>) {
    forall i, j :: 0 <= i < j < |anchors| ==> anchors[i].signer != anchors[j].signer
  }

  /** The counter-signers with the rule's capability. */
  function Holders(trust: Trust, anchors: seq<Anchor>, capability: Option<Capability>): set<string> {
    set a | a in anchors && capability.Some? && a.signer in trust.capabilities
            && capability.value in trust.capabilities[a.signer] :: a.signer
  }

  /** A rule that matches a changed path has its counter-signers, and reviews unless it does without. */
  ghost predicate RuleHolds(trust: Trust, rule: PathRule, changed: seq<string>, payload: Payload) {
    (exists path :: path in changed && Glob.VerifierMatches(rule.pattern, path)) ==>
      && |Holders(trust, payload.anchors, rule.capability)| >= rule.minimum
      && (rule.bypass || payload.approvals != [])
  }

  /**
   * For every push, whoever built it: the hook accepts it exactly when the commit is the merge the
   * payload claims, of the base, head, branch and diff it names, under the manifest of the base;
   * the operator's signature verifies; every approval is genuine, for this merge and this
   * repository, and every required reviewer approved; every required check passed last; and the
   * counter-signatures are genuine, of different admins, and enough for every rule that matches.
   */
  lemma AcceptsIff(keys: Keys, base: Base, push: Push)
    ensures Accepts(keys, base, push)
       <==> && base.changed.Some?
            && |push.commit.parents| == 2 && push.commit.parents[1] == push.payload.target.headSha
            && push.commit.mergeBase == push.payload.target.baseSha
            && push.payload.branch == push.branch && push.payload.target.diffSha == push.diffSha
            && push.payload.snapshot == base.snapshot
            && OperatorSigned(keys, base.trust, push.payload, push.signature)
            && (forall e :: e in push.payload.approvals ==>
                  && ApprovalHolds(keys, base.trust, push.payload.target, e)
                  && IdHolds(e.approval.repoId, base.tipRepoId, base.baseRepoId))
            && (forall name :: name in push.rule.required ==> Approves(push.payload.approvals, name))
            && (forall name :: name in push.rule.checks ==> LastExitsZero(push.payload.checks, name))
            && (forall a :: a in push.payload.anchors ==> AdminSigned(keys, base.trust, push.payload, a))
            && DistinctSigners(push.payload.anchors)
            && forall rule :: rule in base.rules ==> RuleHolds(base.trust, rule, base.changed.value, push.payload)
  {
    if push.payload.target.diffSha == push.diffSha {
      ApprovalsIff(keys, base, push);
    }
    RequiredIff(push);
    ChecksIff(push);
    AnchorsIff(keys, base.trust, push.payload);
    if TrustAnchorSignatures(keys, base, push) && base.changed.Some? {
      GuardIff(keys, base, push, base.changed.value);
    }
  }

  lemma RepoIdIff(base: Base, repoId: Field)
    ensures RepoAccepted(repoId, base.Binding()) <==> IdHolds(repoId, base.tipRepoId, base.baseRepoId)
  {
    var declarations := [base.tipRepoId, base.baseRepoId];
    RepoAcceptedIff(repoId, declarations);
    assert base.tipRepoId in declarations && base.baseRepoId in declarations;
    assert forall d :: d in declarations ==> d == base.tipRepoId || d == base.baseRepoId;
  }

  lemma ApprovalsIff(keys: Keys, base: Base, push: Push)
    requires push.payload.target.diffSha == push.diffSha
    ensures DiffHash(push) && ApprovalSignatures(keys, base, push) && RepoBinding(base, push)
       <==> forall e :: e in push.payload.approvals ==>
              && ApprovalHolds(keys, base.trust, push.payload.target, e)
              && IdHolds(e.approval.repoId, base.tipRepoId, base.baseRepoId)
  {
    var es := push.payload.approvals;
    forall i | 0 <= i < |es|
      ensures RepoAccepted(es[i].approval.repoId, base.Binding())
         <==> IdHolds(es[i].approval.repoId, base.tipRepoId, base.baseRepoId)
    {
      RepoIdIff(base, es[i].approval.repoId);
    }
    assert forall i :: 0 <= i < |es| ==> es[i] in es;
  }

  lemma RequiredIff(push: Push)
    ensures RequiredApprovals(push) <==> forall name :: name in push.rule.required ==> Approves(push.payload.approvals, name)
  {
    var es := push.payload.approvals;
    forall name ensures ApprovedBy(es, name) <==> Approves(es, name) {
      if Approves(es, name) {
        var e :| e in es && e.approval.reviewer == Text(name) && e.approval.verdict == Text("approved");
        var j :| 0 <= j < |es| && es[j] == e;
      }
    }
    assert forall i :: 0 <= i < |push.rule.required| ==> push.rule.required[i] in push.rule.required;
  }

  lemma AttestedIff(checks: seq<Check>, name: string)
    ensures Attested(checks, name) <==> LastExitsZero(checks, name)
  {
    LatestIsLast(checks, CheckName, name);
    if Attested(checks, name) {
      var k: nat :| LastAt(checks, CheckName, name, k);
      assert Latest(checks, CheckName)[name] == checks[k];
      assert checks[k].name == name && forall j :: k < j < |checks| ==> CheckName(checks[j]) != name;
    }
    if LastExitsZero(checks, name) {
      var k :| 0 <= k < |checks| && checks[k].name == name && checks[k].exitCode == 0
               && forall j :: k < j < |checks| ==> checks[j].name != name;
      assert LastAt(checks, CheckName, name, k);
    }
  }

  lemma ChecksIff(push: Push)
    ensures Checks(push) <==> forall name :: name in push.rule.checks ==> LastExitsZero(push.payload.checks, name)
  {
    forall name ensures Attested(push.payload.checks, name) <==> LastExitsZero(push.payload.checks, name) {
      AttestedIff(push.payload.checks, name);
    }
    assert forall i :: 0 <= i < |push.rule.checks| ==> push.rule.checks[i] in push.rule.checks;
  }

  // ----- Counter-signatures ----------------------------------------------------------------------

  predicate NoneSeen(anchors: seq<Anchor>, seen: set<string>) {
    forall i :: 0 <= i < |anchors| ==> anchors[i].signer !in seen
  }

  predicate AllAdminSigned(keys: Keys, trust: Trust, payload: Payload, anchors: seq<Anchor>) {
    forall i :: 0 <= i < |anchors| ==> AdminSigned(keys, trust, payload, anchors[i])
  }

  lemma DistinctCons(anchors: seq<Anchor>, seen: set<string>)
    requires anchors != []
    ensures DistinctSigners(anchors) && NoneSeen(anchors, seen)
       <==> && anchors[0].signer !in seen && DistinctSigners(anchors[1..])
            && NoneSeen(anchors[1..], seen + {anchors[0].signer})
  {
    var rest := anchors[1..];
    assert forall i :: 0 <= i < |rest| ==> rest[i] == anchors[i + 1];
    assert forall i :: 1 <= i < |anchors| ==> anchors[i] == rest[i - 1];
  }

  lemma {:induction false} GenuineIff(keys: Keys, trust: Trust, payload: Payload, anchors: seq<Anchor>, seen: set<string>)
    ensures AnchorsGenuine(keys, trust, AnchorBytes(keys, payload), anchors, seen)
       <==> DistinctSigners(anchors) && NoneSeen(anchors, seen) && AllAdminSigned(keys, trust, payload, anchors)
    decreases |anchors|
  {
    if anchors != [] {
      var rest := anchors[1..];
      GenuineIff(keys, trust, payload, rest, seen + {anchors[0].signer});
      DistinctCons(anchors, seen);
      assert AllAdminSigned(keys, trust, payload, anchors)
        <==> AdminSigned(keys, trust, payload, anchors[0]) && AllAdminSigned(keys, trust, payload, rest) by {
        assert forall i :: 0 <= i < |rest| ==> rest[i] == anchors[i + 1];
        assert forall i :: 1 <= i < |anchors| ==> anchors[i] == rest[i - 1];
      }
    }
  }

  lemma {:induction false} AnchorsIff(keys: Keys, trust: Trust, payload: Payload)
    ensures AnchorsGenuine(keys, trust, AnchorBytes(keys, payload), payload.anchors, {})
       <==> DistinctSigners(payload.anchors) && forall a :: a in payload.anchors ==> AdminSigned(keys, trust, payload, a)
  {
    GenuineIff(keys, trust, payload, payload.anchors, {});
    assert forall i :: 0 <= i < |payload.anchors| ==> payload.anchors[i] in payload.anchors;
  }

  /** With distinct signers the guard's count is the number of holders. */
  lemma {:induction false} CountIsHolders(trust: Trust, anchors: seq<Anchor>, rule: PathRule)
    requires DistinctSigners(anchors)
    ensures Qualifying(trust, Signers(anchors), rule) == |Holders(trust, anchors, rule.capability)|
  {
    if anchors != [] {
      var rest, signer := anchors[1..], anchors[0].signer;
      assert forall i :: 0 <= i < |rest| ==> rest[i] == anchors[i + 1];
      CountIsHolders(trust, rest, rule);
      assert Signers(anchors)[1..] == Signers(rest);
      HoldersCons(trust, anchors, rule.capability);
    } else {
      assert Holders(trust, anchors, rule.capability) == {};
    }
  }

  lemma HoldersCons(trust: Trust, anchors: seq<Anchor>, capability: Option<Capability>)
    requires anchors != [] && DistinctSigners(anchors)
    ensures var rest, signer := Holders(trust, anchors[1..], capability), anchors[0].signer;
            && signer !in rest
            && Holders(trust, anchors, capability)
               == rest + (if capability.Some? && trust.Has(signer, capability.value) then {signer} else {})
  {
    var rest := anchors[1..];
    assert forall i :: 0 <= i < |rest| ==> rest[i] == anchors[i + 1];
    assert forall a :: a in anchors <==> a == anchors[0] || a in rest;
  }

  lemma TouchesIff(rule: PathRule, changed: seq<string>)
    ensures VerifierTouches(rule, changed) <==> exists path :: path in changed && Glob.VerifierMatches(rule.pattern, path)
  {
    if path :| path in changed && Glob.VerifierMatches(rule.pattern, path) {
      var i :| 0 <= i < |changed| && changed[i] == path;
    }
  }

  lemma GuardIff(keys: Keys, base: Base, push: Push, changed: seq<string>)
    requires TrustAnchorSignatures(keys, base, push)
    ensures StampPathsGuard(keys, base, push, changed)
       <==> forall rule :: rule in base.rules ==> RuleHolds(base.trust, rule, changed, push.payload)
  {
    var anchors := push.payload.anchors;
    GenuineAllCount(keys, base.trust, AnchorBytes(keys, push.payload), anchors, {});
    AnchorsIff(keys, base.trust, push.payload);
    forall i | 0 <= i < |base.rules|
      ensures Qualifying(base.trust, Signers(anchors), base.rules[i])
           == |Holders(base.trust, anchors, base.rules[i].capability)|
      ensures VerifierTouches(base.rules[i], changed)
         <==> exists path :: path in changed && Glob.VerifierMatches(base.rules[i].pattern, path)
    {
      CountIsHolders(base.trust, anchors, base.rules[i]);
      TouchesIff(base.rules[i], changed);
    }
    assert forall i :: 0 <= i < |base.rules| ==> base.rules[i] in base.rules;
  }

  // ----- The guard by itself ---------------------------------------------------------------------

  /** The counter-signature verifies over the payload without counter-signatures, under a committed key. */
  predicate Verifies(keys: Keys, trust: Trust, payload: Payload, a: Anchor) {
    && a.signer in trust.pubs && trust.pubs[a.signer] != ""
    && keys.crypto.verify(trust.pubs[a.signer], keys.payloadBytes(payload.(anchors := [])), a.signature)
  }

  /** Those who made a counter-signature that verifies. */
  function Verified(keys: Keys, trust: Trust, payload: Payload, anchors: seq<Anchor>): set<string> {
    set a | a in anchors && Verifies(keys, trust, payload, a) :: a.signer
  }

  /** Those of them who have the rule's capability. */
  function VerifiedHolders(keys: Keys, trust: Trust, payload: Payload, capability: Option<Capability>): set<string> {
    set s | s in Verified(keys, trust, payload, payload.anchors) && capability.Some?
            && s in trust.capabilities && capability.value in trust.capabilities[s]
  }

  predicate DistinctNames(names: seq<string>) {
    forall i, j :: 0 <= i < j < |names| ==> names[i] != names[j]
  }

  lemma {:induction false} ValidAreVerified(keys: Keys, trust: Trust, payload: Payload, anchors: seq<Anchor>, seen: set<string>)
    ensures var signers := ValidSigners(keys, trust, AnchorBytes(keys, payload), anchors, seen);
            && DistinctNames(signers)
            && forall s :: s in signers <==> s in Verified(keys, trust, payload, anchors) && s !in seen
    decreases |anchors|
  {
    if anchors != [] {
      var a, rest := anchors[0], anchors[1..];
      assert forall x :: x in anchors <==> x == a || x in rest;
      if a.signer in seen || !Verifies(keys, trust, payload, a) {
        ValidAreVerified(keys, trust, payload, rest, seen);
      } else {
        ValidAreVerified(keys, trust, payload, rest, seen + {a.signer});
        var more := ValidSigners(keys, trust, AnchorBytes(keys, payload), rest, seen + {a.signer});
        assert a.signer !in more;
        assert forall s :: s in [a.signer] + more <==> s == a.signer || s in more;
      }
    }
  }

  lemma {:induction false} CountIsSize(trust: Trust, names: seq<string>, rule: PathRule)
    requires DistinctNames(names)
    ensures Qualifying(trust, names, rule)
         == |set s | s in names && rule.capability.Some? && s in trust.capabilities && rule.capability.value in trust.capabilities[s]|
  {
    var all := set s | s in names && rule.capability.Some? && s in trust.capabilities && rule.capability.value in trust.capabilities[s];
    if names == [] {
      assert all == {};
    } else {
      var first, rest := names[0], names[1..];
      assert forall i :: 0 <= i < |rest| ==> rest[i] == names[i + 1];
      CountIsSize(trust, rest, rule);
      var later := set s | s in rest && rule.capability.Some? && s in trust.capabilities && rule.capability.value in trust.capabilities[s];
      assert first !in later;
      assert all == later + (if rule.capability.Some? && trust.Has(first, rule.capability.value) then {first} else {});
    }
  }

  /**
   * The guard counts only counter-signatures that verify, each signer once, whatever any other phase
   * does: it passes exactly when every rule that matches a changed path has its minimum of those, and
   * reviews unless it does without.
   */
  lemma GuardStandsAlone(keys: Keys, base: Base, push: Push, changed: seq<string>)
    ensures StampPathsGuard(keys, base, push, changed)
       <==> forall rule :: rule in base.rules && (exists path :: path in changed && Glob.VerifierMatches(rule.pattern, path)) ==>
              && |VerifiedHolders(keys, base.trust, push.payload, rule.capability)| >= rule.minimum
              && (rule.bypass || push.payload.approvals != [])
  {
    var signers := ValidSigners(keys, base.trust, AnchorBytes(keys, push.payload), push.payload.anchors, {});
    ValidAreVerified(keys, base.trust, push.payload, push.payload.anchors, {});
    forall i | 0 <= i < |base.rules|
      ensures Qualifying(base.trust, signers, base.rules[i])
           == |VerifiedHolders(keys, base.trust, push.payload, base.rules[i].capability)|
      ensures VerifierTouches(base.rules[i], changed)
         <==> exists path :: path in changed && Glob.VerifierMatches(base.rules[i].pattern, path)
    {
      CountIsVerified(keys, base.trust, push.payload, signers, base.rules[i]);
      TouchesIff(base.rules[i], changed);
    }
    assert forall i :: 0 <= i < |base.rules| ==> base.rules[i] in base.rules;
  }

  lemma CountIsVerified(keys: Keys, trust: Trust, payload: Payload, signers: seq<string>, rule: PathRule)
    requires DistinctNames(signers)
    requires forall s :: s in signers <==> s in Verified(keys, trust, payload, payload.anchors)
    ensures Qualifying(trust, signers, rule) == |VerifiedHolders(keys, trust, payload, rule.capability)|
  {
    CountIsSize(trust, signers, rule);
    assert (set s | s in signers && rule.capability.Some? && s in trust.capabilities && rule.capability.value in trust.capabilities[s])
        == VerifiedHolders(keys, trust, payload, rule.capability);
  }

  // ----- What the merge builds -------------------------------------------------------------------

  /** Entry `i` of the note is the first of its signer, an admin's, and verifies over the payload. */
  predicate Picked(keys: Keys, trust: Trust, payload: Payload, note: seq<Anchor>, i: nat) {
    && i < |note| && AdminSigned(keys, trust, payload, note[i])
    && forall j :: 0 <= j < i ==> note[j].signer != note[i].signer
  }

  predicate Increasing(pos: seq<nat>) {
    forall x, y :: 0 <= x < y < |pos| ==> pos[x] < pos[y]
  }

  /** The counter-signatures are the picked entries of the note, in its order. */
  ghost predicate AllPicked(keys: Keys, trust: Trust, payload: Payload, note: seq<Anchor>, anchors: seq<Anchor>, pos: seq<nat>) {
    && |pos| == |anchors| && Increasing(pos)
    && (forall i: nat :: i in pos <==> Picked(keys, trust, payload, note, i))
    && forall x :: 0 <= x < |pos| ==> pos[x] < |note| && anchors[x] == note[pos[x]]
  }

  /** The picked signers with the rule's capability. */
  ghost function PickedHolders(keys: Keys, trust: Trust, payload: Payload, note: seq<Anchor>, capability: Option<Capability>): set<string> {
    set i | 0 <= i < |note| && Picked(keys, trust, payload, note, i) && capability.Some?
            && note[i].signer in trust.capabilities && capability.value in trust.capabilities[note[i].signer] :: note[i].signer
  }

  /** The rule matches a changed path, as the producer sees it. */
  ghost predicate Applies(base: Base, rule: PathRule) {
    base.changed.Some? && exists path :: path in base.changed.value && Glob.ProducerMatches(rule.pattern, path)
  }

  ghost predicate AnyApplies(base: Base) {
    exists rule :: rule in base.rules && Applies(base, rule)
  }

  /** Every rule that applies has enough picked signers; with no signature at all none has. */
  ghost predicate Enough(keys: Keys, base: Base, payload: Payload, note: seq<Anchor>) {
    AnyApplies(base) ==>
      && note != []
      && forall rule :: rule in base.rules && Applies(base, rule) ==>
           |PickedHolders(keys, base.trust, payload, note, rule.capability)| >= rule.minimum
  }

  /** The payload the merge is to sign, but for the counter-signatures. */
  function Unsigned(base: Base, target: Target, branch: string, es: seq<Entry>, checks: seq<Check>, signer: string): Payload {
    Payload(5, target, branch, base.snapshot, es, checks, [], signer)
  }

  /** Picked among the entries from `n` on, with the signers before `n` counted as seen. */
  ghost predicate PickedFrom(keys: Keys, trust: Trust, bytes: string, note: seq<Anchor>, seen: set<string>, i: nat) {
    && i < |note| && note[i].signer !in seen
    && trust.Has(note[i].signer, Admin) && AnchorValid(keys, trust, bytes, note[i])
    && forall j :: 0 <= j < i ==> note[j].signer != note[i].signer
  }

  ghost predicate KeptAt(keys: Keys, trust: Trust, bytes: string, note: seq<Anchor>, seen: set<string>,
      kept: seq<Anchor>, pos: seq<nat>)
  {
    && |pos| == |kept| && Increasing(pos)
    && (forall i: nat :: i in pos <==> PickedFrom(keys, trust, bytes, note, seen, i))
    && forall x :: 0 <= x < |pos| ==> pos[x] < |note| && kept[x] == note[pos[x]]
  }

  function Shifted(pos: seq<nat>): seq<nat> {
    seq(|pos|, x requires 0 <= x < |pos| => pos[x] + 1)
  }

  lemma ShiftedIn(pos: seq<nat>, i: nat)
    ensures i in Shifted(pos) <==> i > 0 && i - 1 in pos
  {
    if i in Shifted(pos) {
      var x :| 0 <= x < |pos| && Shifted(pos)[x] == i;
      assert pos[x] == i - 1;
    }
    if i > 0 && i - 1 in pos {
      var x :| 0 <= x < |pos| && pos[x] == i - 1;
      assert Shifted(pos)[x] == i;
    }
  }

  lemma PickedLater(keys: Keys, trust: Trust, bytes: string, note: seq<Anchor>, seen: set<string>, i: nat)
    requires note != [] && i > 0
    ensures PickedFrom(keys, trust, bytes, note, seen, i)
       <==> PickedFrom(keys, trust, bytes, note[1..], seen + {note[0].signer}, i - 1)
  {
    var rest := note[1..];
    assert forall j :: 0 <= j < |rest| ==> rest[j] == note[j + 1];
    if i < |note| {
      assert rest[i - 1] == note[i];
      if PickedFrom(keys, trust, bytes, rest, seen + {note[0].signer}, i - 1) {
        forall j | 0 <= j < i ensures note[j].signer != note[i].signer {
          if j > 0 {
            assert rest[j - 1] == note[j];
          }
        }
      }
    }
  }

  lemma {:induction false} KeptPositions(keys: Keys, trust: Trust, bytes: string, note: seq<Anchor>, seen: set<string>)
      returns (pos: seq<nat>)
    ensures KeptAt(keys, trust, bytes, note, seen, KeptAnchors(keys, trust, bytes, note, seen), pos)
    decreases |note|
  {
    pos := [];
    if note != [] {
      var a, rest := note[0], note[1..];
      var later := KeptPositions(keys, trust, bytes, rest, seen + {a.signer});
      SameSeen(keys, trust, bytes, note, seen);
      ShiftedAt(keys, trust, bytes, note, seen, KeptAnchors(keys, trust, bytes, rest, seen + {a.signer}), later);
      if PickedFrom(keys, trust, bytes, note, seen, 0) {
        pos := [0] + Shifted(later);
      } else {
        pos := Shifted(later);
        var kept := KeptAnchors(keys, trust, bytes, rest, seen + {a.signer});
        assert [] + kept == kept;
      }
    }
  }

  lemma ShiftedAt(keys: Keys, trust: Trust, bytes: string, note: seq<Anchor>, seen: set<string>, kept: seq<Anchor>, later: seq<nat>)
    requires note != [] && KeptAt(keys, trust, bytes, note[1..], seen + {note[0].signer}, kept, later)
    ensures if PickedFrom(keys, trust, bytes, note, seen, 0)
            then KeptAt(keys, trust, bytes, note, seen, [note[0]] + kept, [0] + Shifted(later))
            else KeptAt(keys, trust, bytes, note, seen, kept, Shifted(later))
  {
    forall i: nat
      ensures i > 0 ==> (i in Shifted(later) <==> PickedFrom(keys, trust, bytes, note, seen, i))
      ensures 0 !in Shifted(later)
    {
      ShiftedIn(later, i);
      ShiftedIn(later, 0);
      if i > 0 {
        PickedLater(keys, trust, bytes, note, seen, i);
      }
    }
    ShiftedKeeps(note, kept, later);
    FrontIsZero(later);
  }

  lemma ShiftedKeeps(note: seq<Anchor>, kept: seq<Anchor>, later: seq<nat>)
    requires note != [] && |later| == |kept| && Increasing(later)
    requires forall x :: 0 <= x < |later| ==> later[x] < |note[1..]| && kept[x] == note[1..][later[x]]
    ensures Increasing(Shifted(later)) && Increasing([0] + Shifted(later))
    ensures forall x :: 0 <= x < |later| ==> Shifted(later)[x] < |note| && kept[x] == note[Shifted(later)[x]]
  {
  }

  lemma FrontIsZero(later: seq<nat>)
    ensures forall i: nat :: i in [0] + Shifted(later) <==> i == 0 || i in Shifted(later)
  {
  }

  lemma {:induction false} SameSeen(keys: Keys, trust: Trust, bytes: string, note: seq<Anchor>, seen: set<string>)
    requires note != []
    ensures KeptAnchors(keys, trust, bytes, note, seen)
         == (if PickedFrom(keys, trust, bytes, note, seen, 0) then [note[0]] else [])
            + KeptAnchors(keys, trust, bytes, note[1..], seen + {note[0].signer})
  {
    if note[0].signer in seen {
      assert seen + {note[0].signer} == seen;
    }
  }

  /** What the merge fold is to give: an attesting entry of this repository for each required reviewer. */
  ghost predicate Folded(keys: Keys, base: Base, target: Target, rows: seq<Row>, required: seq<string>, es: seq<Entry>) {
    && Complete(keys.crypto, base.trust, target, rows, required, es)
    && base.tipRepoId != Other && base.baseRepoId != Other
    && forall e :: e in es ==> IdHolds(e.approval.repoId, base.tipRepoId, base.baseRepoId)
  }

  lemma FoldIff(keys: Keys, base: Base, target: Target, rows: seq<Row>, required: seq<string>, es: seq<Entry>)
    ensures MergeFold(keys.crypto, base.trust, target, base.Binding(), rows, required) == Ok(es)
       <==> Folded(keys, base, target, rows, required, es)
  {
    MergeFoldIff(keys.crypto, base.trust, target, base.Binding(), rows, required, es);
    var declarations := [base.tipRepoId, base.baseRepoId];
    BindingMeaning(declarations);
    assert base.tipRepoId in declarations && base.baseRepoId in declarations;
    assert forall d :: d in declarations ==> d == base.tipRepoId || d == base.baseRepoId;
    forall e: Entry ensures RepoAccepted(e.approval.repoId, base.Binding())
                <==> IdHolds(e.approval.repoId, base.tipRepoId, base.baseRepoId) {
      RepoIdIff(base, e.approval.repoId);
    }
    assert forall i :: 0 <= i < |es| ==> es[i] in es;
  }

  lemma PickedPositions(keys: Keys, trust: Trust, payload: Payload, note: seq<Anchor>) returns (pos: seq<nat>)
    ensures AllPicked(keys, trust, payload, note, KeptAnchors(keys, trust, AnchorBytes(keys, payload), note, {}), pos)
  {
    var bytes := AnchorBytes(keys, payload);
    pos := KeptPositions(keys, trust, bytes, note, {});
    forall i: nat ensures PickedFrom(keys, trust, bytes, note, {}, i) <==> Picked(keys, trust, payload, note, i) {
    }
  }

  lemma PickedAreDistinct(keys: Keys, trust: Trust, payload: Payload, note: seq<Anchor>, anchors: seq<Anchor>, pos: seq<nat>)
    requires AllPicked(keys, trust, payload, note, anchors, pos)
    ensures DistinctSigners(anchors)
  {
    forall x, y | 0 <= x < y < |anchors| ensures anchors[x].signer != anchors[y].signer {
      assert pos[y] in pos;
      assert Picked(keys, trust, payload, note, pos[y]);
    }
  }

  lemma PickedHoldersAreHolders(keys: Keys, trust: Trust, payload: Payload, note: seq<Anchor>, anchors: seq<Anchor>,
      pos: seq<nat>, capability: Option<Capability>)
    requires AllPicked(keys, trust, payload, note, anchors, pos)
    ensures Holders(trust, anchors, capability) == PickedHolders(keys, trust, payload, note, capability)
  {
    forall a | a in anchors ensures exists i: nat :: Picked(keys, trust, payload, note, i) && note[i] == a {
      var x :| 0 <= x < |anchors| && anchors[x] == a;
      assert pos[x] in pos;
    }
    forall i: nat | Picked(keys, trust, payload, note, i) ensures note[i] in anchors {
      assert i in pos;
      var x :| 0 <= x < |pos| && pos[x] == i;
      assert anchors[x] == note[i];
    }
  }

  lemma AppliesIff(base: Base, rule: PathRule)
    requires base.changed.Some?
    ensures ProducerTouches(rule, base.changed.value) <==> Applies(base, rule)
  {
    var changed := base.changed.value;
    if path :| path in changed && Glob.ProducerMatches(rule.pattern, path) {
      var i :| 0 <= i < |changed| && changed[i] == path;
    }
  }

  lemma AnyAppliesIff(base: Base)
    ensures AnyApplies(base) <==> base.rules != [] && base.changed.Some? && AnyProducerTouches(base.rules, base.changed.value)
  {
    if base.changed.Some? {
      forall rule ensures ProducerTouches(rule, base.changed.value) <==> Applies(base, rule) {
        AppliesIff(base, rule);
      }
      if rule :| rule in base.rules && Applies(base, rule) {
        var i :| 0 <= i < |base.rules| && base.rules[i] == rule;
      }
      if AnyProducerTouches(base.rules, base.changed.value) {
        var i :| 0 <= i < |base.rules| && ProducerTouches(base.rules[i], base.changed.value);
        assert base.rules[i] in base.rules;
      }
    }
  }

  lemma {:induction false} EnoughIff(keys: Keys, base: Base, bare: Payload, note: seq<Anchor>)
    ensures Enough(keys, base, bare, note) <==> CollectAnchors(keys, base, bare, note).Ok?
    ensures Enough(keys, base, bare, note) && AnyApplies(base) ==>
              CollectAnchors(keys, base, bare, note) == Ok(KeptAnchors(keys, base.trust, AnchorBytes(keys, bare), note, {}))
    ensures !AnyApplies(base) ==> CollectAnchors(keys, base, bare, note) == Ok([])
  {
    AnyAppliesIff(base);
    if AnyApplies(base) {
      var kept := KeptAnchors(keys, base.trust, AnchorBytes(keys, bare), note, {});
      var pos := PickedPositions(keys, base.trust, bare, note);
      PickedAreDistinct(keys, base.trust, bare, note, kept, pos);
      forall i | 0 <= i < |base.rules|
        ensures Qualifying(base.trust, Signers(kept), base.rules[i])
             == |PickedHolders(keys, base.trust, bare, note, base.rules[i].capability)|
        ensures ProducerTouches(base.rules[i], base.changed.value) <==> Applies(base, base.rules[i])
      {
        CountIsHolders(base.trust, kept, base.rules[i]);
        PickedHoldersAreHolders(keys, base.trust, bare, note, kept, pos, base.rules[i].capability);
        AppliesIff(base, base.rules[i]);
      }
      assert forall i :: 0 <= i < |base.rules| ==> base.rules[i] in base.rules;
    }
  }

  /**
   * What the merge signs, and when it refuses: the payload holds schema 5, the target, branch,
   * manifest snapshot, checks and signer given, exactly the entries the fold is to give, and the
   * picked counter-signatures in the note's order when some rule applies, else none; it is refused
   * exactly when there are no such entries, or too few picked signers for some rule that applies.
   */
  lemma BuildMeans(keys: Keys, base: Base, target: Target, branch: string, rows: seq<Row>, required: seq<string>,
      checks: seq<Check>, note: seq<Anchor>, signer: string, privateKey: string)
    ensures match BuildEnvelope(keys, base, target, branch, rows, required, checks, note, signer, privateKey)
            case Ok((p, signature)) =>
              && p == Unsigned(base, target, branch, p.approvals, checks, signer).(anchors := p.anchors)
              && signature == keys.sign(privateKey, keys.payloadBytes(p))
              && Folded(keys, base, target, rows, required, p.approvals)
              && Enough(keys, base, p, note)
              && (if AnyApplies(base) then exists pos :: AllPicked(keys, base.trust, p, note, p.anchors, pos) else p.anchors == [])
            case Err(Fold(_)) => forall es :: !Folded(keys, base, target, rows, required, es)
            case Err(TooFewAnchors) =>
              exists es :: Folded(keys, base, target, rows, required, es)
                && !Enough(keys, base, Unsigned(base, target, branch, es, checks, signer), note)
  {
    var fold := MergeFold(keys.crypto, base.trust, target, base.Binding(), rows, required);
    if fold.Err? {
      forall es ensures !Folded(keys, base, target, rows, required, es) {
        FoldIff(keys, base, target, rows, required, es);
      }
    } else {
      var es := fold.value;
      FoldIff(keys, base, target, rows, required, es);
      BuildAnchors(keys, base, Unsigned(base, target, branch, es, checks, signer), note);
    }
  }

  lemma BuildAnchors(keys: Keys, base: Base, bare: Payload, note: seq<Anchor>)
    requires bare.anchors == []
    ensures match CollectAnchors(keys, base, bare, note)
            case Ok(anchors) =>
              && Enough(keys, base, bare.(anchors := anchors), note)
              && (if AnyApplies(base) then exists pos :: AllPicked(keys, base.trust, bare.(anchors := anchors), note, anchors, pos)
                  else anchors == [])
            case Err(_) => !Enough(keys, base, bare, note)
  {
    EnoughIff(keys, base, bare, note);
    var r := CollectAnchors(keys, base, bare, note);
    if r.Ok? {
      var p := bare.(anchors := r.value);
      SamePicked(keys, base.trust, bare, p, note);
      SameEnough(keys, base, bare, p, note);
      if AnyApplies(base) {
        var pos := PickedPositions(keys, base.trust, bare, note);
        assert AllPicked(keys, base.trust, p, note, r.value, pos);
      }
    }
  }

  /** Counter-signatures are over the payload without any, so adding some changes nothing. */
  lemma SamePicked(keys: Keys, trust: Trust, bare: Payload, p: Payload, note: seq<Anchor>)
    requires p.(anchors := []) == bare.(anchors := [])
    ensures forall i: nat :: Picked(keys, trust, p, note, i) <==> Picked(keys, trust, bare, note, i)
    ensures forall c :: PickedHolders(keys, trust, p, note, c) == PickedHolders(keys, trust, bare, note, c)
  {
  }

  lemma SameEnough(keys: Keys, base: Base, bare: Payload, p: Payload, note: seq<Anchor>)
    requires p.(anchors := []) == bare.(anchors := [])
    ensures Enough(keys, base, p, note) <==> Enough(keys, base, bare, note)
  {
    SamePicked(keys, base.trust, bare, p, note);
  }
}
