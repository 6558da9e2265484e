/**
 * Folding server-signed approvals into an attestation: the loops of `stamp merge`
 * (src/commands/merge.ts), `stamp attest` (src/commands/attest.ts) and `stamp admin sign`
 * (src/commands/adminSign.ts) over the same database rows.
 */
module Approvals {
  import opened Capabilities
  import opened Results
  import opened Strings
  import opened LatestRows

  // ----- Rows ----------------------------------------------------------------------------------

  /** A member of a parsed JSON object. */
  datatype Field = Missing | Text(value: string) | Other

  datatype Approval = Approval(
    reviewer: Field, verdict: Field, promptSha: Field, diffSha: Field, baseSha: Field,
    headSha: Field, issuedAt: Field, serverKey: Field, repoId: Field)

  /** What `JSON.parse` makes of a row's text. */
  datatype Json = Malformed | NonObject | Object(approval: Approval)

  datatype Row = Row(reviewer: string, json: Json, signature: string)

  function RowReviewer(row: Row): string { row.reviewer }

  datatype Entry = Entry(approval: Approval, keyId: string, signature: string)

  // ----- Trust ---------------------------------------------------------------------------------

  /** The manifest and the public keys committed at the merge base. */
  datatype Trust = Trust(capabilities: map<string, set<Capability>>, pubs: map<string, string>)
  {
    predicate Has(key: string, capability: Capability) {
      key in capabilities && capability in capabilities[key]
    }

    /** An empty key file is treated as no key file. */
    predicate Pub(key: string) { key in pubs && pubs[key] != "" }
  }

  /** Canonical serialization and Ed25519, of which nothing else is assumed. */
  datatype Crypto = Crypto(approvalBytes: Approval -> string, verify: (string, string, string) -> bool)

  datatype Binding = Unbound | Bound(accepted: seq<string>) | Invalid

  /** `resolveRepoBinding`: a declaration is absent, malformed or an id. */
  function ResolveBinding(declarations: seq<Field>): Binding {
    if declarations == [] then Unbound
    else
      match declarations[0]
      case Other => Invalid
      case Missing => ResolveBinding(declarations[1..])
      case Text(id) =>
        match ResolveBinding(declarations[1..])
        case Invalid => Invalid
        case Unbound => Bound([id])
        case Bound(ids) => Bound([id] + Without(ids, id))
  }

  function Without(ids: seq<string>, id: string): seq<string> {
    if ids == [] then []
    else (if ids[0] == id then [] else [ids[0]]) + Without(ids[1..], id)
  }

  /** `checkApprovalRepoId`. */
  predicate RepoAccepted(repoId: Field, binding: Binding) {
    match binding
    case Unbound => true
    case Invalid => false
    case Bound(ids) => repoId.Text? && repoId.value in ids
  }

  /** Bound to an id exactly when some declaration names it; unbound exactly when none names any. */
  lemma {:induction false} BindingMeaning(declarations: seq<Field>)
    ensures var b := ResolveBinding(declarations);
            && (b.Invalid? <==> Other in declarations)
            && (b.Unbound? <==> forall d :: d in declarations ==> d.Missing?)
            && (b.Bound? ==> forall id :: id in b.accepted <==> Text(id) in declarations)
  {
    if declarations != [] {
      var rest := declarations[1..];
      BindingMeaning(rest);
      assert forall d :: d in declarations <==> d == declarations[0] || d in rest;
      if declarations[0].Text? && ResolveBinding(rest).Bound? {
        WithoutMeaning(ResolveBinding(rest).accepted, declarations[0].value);
      }
    }
  }

  lemma {:induction false} WithoutMeaning(ids: seq<string>, id: string)
    ensures forall x :: x in Without(ids, id) <==> x in ids && x != id
  {
    if ids != [] {
      WithoutMeaning(ids[1..], id);
    }
  }

  /**
   * The repository id test, on the declarations: none may be malformed, and if there is any id
   * among them the approval must carry one of them.
   */
  lemma {:induction false} RepoAcceptedIff(repoId: Field, declarations: seq<Field>)
    ensures RepoAccepted(repoId, ResolveBinding(declarations))
       <==> && Other !in declarations
            && ((forall d :: d in declarations ==> d == Missing) || (repoId.Text? && repoId in declarations))
  {
    BindingMeaning(declarations);
  }

  // ----- The fold of stamp merge ---------------------------------------------------------------

  datatype Target = Target(baseSha: string, headSha: string, diffSha: string)

  datatype Refusal =
    | InvalidBinding | MissingRow | BadJson | NotObject | BadField | WrongReviewer | StaleBase
    | StaleHead | StaleDiff | WrongRepo | NotApproved | UnknownKey | NotServerKey | NoPub | BadSignature

  /** The eight members that must be strings. */
  predicate WellShaped(a: Approval) {
    && a.reviewer.Text? && a.verdict.Text? && a.promptSha.Text? && a.diffSha.Text?
    && a.baseSha.Text? && a.headSha.Text? && a.issuedAt.Text? && a.serverKey.Text?
  }

  /** One required reviewer in `buildV4Trailers`; each refusal is a throw. */
  function MergeEntry(crypto: Crypto, trust: Trust, target: Target, binding: Binding,
      latest: map<string, Row>, name: string): Result<Entry, Refusal>
  {
    if name !in latest then Err(MissingRow)
    else
      var row := latest[name];
      match row.json
      case Malformed => Err(BadJson)
      case NonObject => Err(NotObject)
      case Object(a) =>
        if !WellShaped(a) then Err(BadField)
        else if a.reviewer.value != name then Err(WrongReviewer)
        else if a.baseSha.value != target.baseSha then Err(StaleBase)
        else if a.headSha.value != target.headSha then Err(StaleHead)
        else if a.diffSha.value != target.diffSha then Err(StaleDiff)
        else if !RepoAccepted(a.repoId, binding) then Err(WrongRepo)
        else if a.verdict.value != "approved" then Err(NotApproved)
        else if a.serverKey.value !in trust.capabilities then Err(UnknownKey)
        else if Server !in trust.capabilities[a.serverKey.value] then Err(NotServerKey)
        else if !trust.Pub(a.serverKey.value) then Err(NoPub)
        else if !crypto.verify(trust.pubs[a.serverKey.value], crypto.approvalBytes(a), row.signature)
        then Err(BadSignature)
        else Ok(Entry(a, a.serverKey.value, row.signature))
  }

  function MergeEntries(crypto: Crypto, trust: Trust, target: Target, binding: Binding,
      latest: map<string, Row>, required: seq<string>): Result<seq<Entry>, Refusal>
  {
    if required == [] then Ok([])
    else
      match MergeEntry(crypto, trust, target, binding, latest, required[0])
      case Err(e) => Err(e)
      case Ok(first) =>
        match MergeEntries(crypto, trust, target, binding, latest, required[1..])
        case Err(e) => Err(e)
        case Ok(rest) => Ok([first] + rest)
  }

  function MergeFold(crypto: Crypto, trust: Trust, target: Target, binding: Binding,
      rows: seq<Row>, required: seq<string>): Result<seq<Entry>, Refusal>
  {
    if binding.Invalid? then Err(InvalidBinding)
    else MergeEntries(crypto, trust, target, binding, Latest(rows, RowReviewer), required)
  }

  // ----- The fold of stamp attest --------------------------------------------------------------

  /** One required reviewer in `buildV3Envelope`: the same checks, but no repository id. */
  function AttestEntry(crypto: Crypto, trust: Trust, target: Target, latest: map<string, Row>, name: string)
    : Result<Entry, Refusal>
  {
    if name !in latest then Err(MissingRow)
    else
      var row := latest[name];
      match row.json
      case Malformed => Err(BadJson)
      case NonObject => Err(NotObject)
      case Object(a) =>
        if !WellShaped(a) then Err(BadField)
        else if a.reviewer.value != name then Err(WrongReviewer)
        else if a.baseSha.value != target.baseSha then Err(StaleBase)
        else if a.headSha.value != target.headSha then Err(StaleHead)
        else if a.diffSha.value != target.diffSha then Err(StaleDiff)
        else if a.verdict.value != "approved" then Err(NotApproved)
        else if a.serverKey.value !in trust.capabilities then Err(UnknownKey)
        else if Server !in trust.capabilities[a.serverKey.value] then Err(NotServerKey)
        else if !trust.Pub(a.serverKey.value) then Err(NoPub)
        else if !crypto.verify(trust.pubs[a.serverKey.value], crypto.approvalBytes(a), row.signature)
        then Err(BadSignature)
        else Ok(Entry(a, a.serverKey.value, row.signature))
  }

  function AttestEntries(crypto: Crypto, trust: Trust, target: Target,
      latest: map<string, Row>, required: seq<string>): Result<seq<Entry>, Refusal>
  {
    if required == [] then Ok([])
    else
      match AttestEntry(crypto, trust, target, latest, required[0])
      case Err(e) => Err(e)
      case Ok(first) =>
        match AttestEntries(crypto, trust, target, latest, required[1..])
        case Err(e) => Err(e)
        case Ok(rest) => Ok([first] + rest)
  }

  function AttestFold(crypto: Crypto, trust: Trust, target: Target, rows: seq<Row>, required: seq<string>)
    : Result<seq<Entry>, Refusal>
  {
    AttestEntries(crypto, trust, target, Latest(rows, RowReviewer), required)
  }

  // ----- What an entry attests ------------------------------------------------------------------

  /** Signed over its own body by a key the repository trusts as a server. */
  predicate ServerSigned(crypto: Crypto, trust: Trust, e: Entry) {
    && e.approval.serverKey == Text(e.keyId)
    && e.keyId in trust.capabilities && Server in trust.capabilities[e.keyId]
    && e.keyId in trust.pubs && trust.pubs[e.keyId] != ""
    && crypto.verify(trust.pubs[e.keyId], crypto.approvalBytes(e.approval), e.signature)
  }

  /** An approval of exactly this diff between these commits by this reviewer. */
  predicate Attests(crypto: Crypto, trust: Trust, target: Target, name: string, e: Entry) {
    && WellShaped(e.approval)
    && e.approval.reviewer == Text(name) && e.approval.verdict == Text("approved")
    && e.approval.baseSha == Text(target.baseSha) && e.approval.headSha == Text(target.headSha)
    && e.approval.diffSha == Text(target.diffSha)
    && ServerSigned(crypto, trust, e)
  }

  /** The entry comes from the last row of the reviewer. */
  ghost predicate FromRows(rows: seq<Row>, name: string, e: Entry) {
    exists k: nat :: LastAt(rows, RowReviewer, name, k)
                     && rows[k] == Row(name, Object(e.approval), e.signature)
  }

  lemma {:induction false} FromRowsIsLatest(rows: seq<Row>, name: string, e: Entry)
    ensures FromRows(rows, name, e)
       <==> && name in Latest(rows, RowReviewer)
            && Latest(rows, RowReviewer)[name].json == Object(e.approval)
            && Latest(rows, RowReviewer)[name].signature == e.signature
  {
    LatestIsLast(rows, RowReviewer, name);
    var latest := Latest(rows, RowReviewer);
    if name in latest {
      var k: nat :| LastAt(rows, RowReviewer, name, k);
      assert rows[k].reviewer == name && latest[name] == rows[k];
    }
  }

  lemma {:induction false} MergeEntryIff(crypto: Crypto, trust: Trust, target: Target, binding: Binding, rows: seq<Row>, name: string, e: Entry)
    ensures MergeEntry(crypto, trust, target, binding, Latest(rows, RowReviewer), name) == Ok(e)
       <==> FromRows(rows, name, e) && Attests(crypto, trust, target, name, e)
            && RepoAccepted(e.approval.repoId, binding)
  {
    FromRowsIsLatest(rows, name, e);
  }

  lemma {:induction false} AttestEntryIff(crypto: Crypto, trust: Trust, target: Target, rows: seq<Row>, name: string, e: Entry)
    ensures AttestEntry(crypto, trust, target, Latest(rows, RowReviewer), name) == Ok(e)
       <==> FromRows(rows, name, e) && Attests(crypto, trust, target, name, e)
  {
    FromRowsIsLatest(rows, name, e);
  }

  /** One attesting entry for each required reviewer, in order. */
  ghost predicate Complete(crypto: Crypto, trust: Trust, target: Target, rows: seq<Row>,
      required: seq<string>, es: seq<Entry>)
  {
    && |es| == |required|
    && forall i :: 0 <= i < |required| ==>
         FromRows(rows, required[i], es[i]) && Attests(crypto, trust, target, required[i], es[i])
  }

  ghost predicate AllBound(es: seq<Entry>, binding: Binding) {
    forall i :: 0 <= i < |es| ==> RepoAccepted(es[i].approval.repoId, binding)
  }

  lemma {:induction false} MergeEntriesIff(crypto: Crypto, trust: Trust, target: Target, binding: Binding,
      rows: seq<Row>, required: seq<string>, es: seq<Entry>)
    ensures MergeEntries(crypto, trust, target, binding, Latest(rows, RowReviewer), required) == Ok(es)
       <==> Complete(crypto, trust, target, rows, required, es) && AllBound(es, binding)
  {
    if required == [] {
    } else if es != [] {
      MergeEntryIff(crypto, trust, target, binding, rows, required[0], es[0]);
      MergeEntriesIff(crypto, trust, target, binding, rows, required[1..], es[1..]);
      assert es == [es[0]] + es[1..];
      CompleteCons(crypto, trust, target, rows, required, es);
      assert AllBound(es, binding) <==> RepoAccepted(es[0].approval.repoId, binding) && AllBound(es[1..], binding) by {
        assert forall i :: 0 <= i < |es| - 1 ==> es[1..][i] == es[i + 1];
      }
    }
  }

  lemma {:induction false} AttestEntriesIff(crypto: Crypto, trust: Trust, target: Target,
      rows: seq<Row>, required: seq<string>, es: seq<Entry>)
    ensures AttestEntries(crypto, trust, target, Latest(rows, RowReviewer), required) == Ok(es)
       <==> Complete(crypto, trust, target, rows, required, es)
  {
    if required == [] {
    } else if es != [] {
      AttestEntryIff(crypto, trust, target, rows, required[0], es[0]);
      AttestEntriesIff(crypto, trust, target, rows, required[1..], es[1..]);
      assert es == [es[0]] + es[1..];
      CompleteCons(crypto, trust, target, rows, required, es);
    }
  }

  lemma CompleteCons(crypto: Crypto, trust: Trust, target: Target, rows: seq<Row>, required: seq<string>, es: seq<Entry>)
    requires required != [] && es != []
    ensures Complete(crypto, trust, target, rows, required, es)
       <==> && FromRows(rows, required[0], es[0]) && Attests(crypto, trust, target, required[0], es[0])
            && Complete(crypto, trust, target, rows, required[1..], es[1..])
  {
    var r, t := required[1..], es[1..];
    if Complete(crypto, trust, target, rows, r, t) && FromRows(rows, required[0], es[0])
       && Attests(crypto, trust, target, required[0], es[0]) {
      forall i | 0 <= i < |required|
        ensures FromRows(rows, required[i], es[i]) && Attests(crypto, trust, target, required[i], es[i])
      {
        if i > 0 {
          assert r[i - 1] == required[i] && t[i - 1] == es[i];
        }
      }
    }
  }

  /** The merge fold returns exactly when every required reviewer has an attesting, bound row. */
  lemma MergeFoldIff(crypto: Crypto, trust: Trust, target: Target, binding: Binding,
      rows: seq<Row>, required: seq<string>, es: seq<Entry>)
    ensures MergeFold(crypto, trust, target, binding, rows, required) == Ok(es)
       <==> && !binding.Invalid?
            && Complete(crypto, trust, target, rows, required, es) && AllBound(es, binding)
  {
    MergeEntriesIff(crypto, trust, target, binding, rows, required, es);
  }

  /** The two folds differ only by the repository id, which `stamp attest` does not look at. */
  lemma MergeIsAttestPlusBinding(crypto: Crypto, trust: Trust, target: Target, binding: Binding,
      rows: seq<Row>, required: seq<string>, es: seq<Entry>)
    ensures MergeFold(crypto, trust, target, binding, rows, required) == Ok(es)
       <==> && AttestFold(crypto, trust, target, rows, required) == Ok(es)
            && !binding.Invalid? && AllBound(es, binding)
  {
    MergeEntriesIff(crypto, trust, target, binding, rows, required, es);
    AttestEntriesIff(crypto, trust, target, rows, required, es);
  }

  // ----- What a refusal says ----------------------------------------------------------------------

  /** What is wrong with an approval, as the refusal names it. */
  predicate FaultyBody(refusal: Refusal, crypto: Crypto, trust: Trust, target: Target, binding: Binding, name: string,
      a: Approval, signature: string)
  {
    match refusal
    case BadField => !WellShaped(a)
    case WrongReviewer => a.reviewer != Text(name)
    case StaleBase => a.baseSha != Text(target.baseSha)
    case StaleHead => a.headSha != Text(target.headSha)
    case StaleDiff => a.diffSha != Text(target.diffSha)
    case WrongRepo => !RepoAccepted(a.repoId, binding)
    case NotApproved => a.verdict != Text("approved")
    case UnknownKey => a.serverKey.Text? && a.serverKey.value !in trust.capabilities
    case NotServerKey => a.serverKey.Text? && !trust.Has(a.serverKey.value, Server)
    case NoPub => a.serverKey.Text? && !trust.Pub(a.serverKey.value)
    case BadSignature =>
      && a.serverKey.Text? && a.serverKey.value in trust.pubs
      && !crypto.verify(trust.pubs[a.serverKey.value], crypto.approvalBytes(a), signature)
    case InvalidBinding => false
    case MissingRow => false
    case BadJson => false
    case NotObject => false
  }

  predicate Faulty(refusal: Refusal, crypto: Crypto, trust: Trust, target: Target, binding: Binding, name: string, row: Row) {
    match row.json
    case Malformed => refusal == BadJson
    case NonObject => refusal == NotObject
    case Object(a) => FaultyBody(refusal, crypto, trust, target, binding, name, a, row.signature)
  }

  /** No row of the reviewer, or a last row with this fault. */
  ghost predicate Refuses(refusal: Refusal, crypto: Crypto, trust: Trust, target: Target, binding: Binding,
      rows: seq<Row>, name: string)
  {
    if refusal.MissingRow? then forall k :: 0 <= k < |rows| ==> rows[k].reviewer != name
    else exists k: nat :: LastAt(rows, RowReviewer, name, k) && Faulty(refusal, crypto, trust, target, binding, name, rows[k])
  }

  lemma {:induction false} MissingOrLast(rows: seq<Row>, name: string)
    ensures name !in Latest(rows, RowReviewer) ==> forall k :: 0 <= k < |rows| ==> rows[k].reviewer != name
    ensures name in Latest(rows, RowReviewer) ==>
              exists k: nat :: LastAt(rows, RowReviewer, name, k) && rows[k] == Latest(rows, RowReviewer)[name]
    decreases |rows|
  {
    LatestIsLast(rows, RowReviewer, name);
    if name in Latest(rows, RowReviewer) {
      var k: nat :| LastAt(rows, RowReviewer, name, k);
    } else if rows != [] {
      var n := |rows| - 1;
      assert RowReviewer(rows[n]) != name;
      MissingOrLast(rows[..n], name);
      assert forall k :: 0 <= k < n ==> rows[k] == rows[..n][k];
    }
  }

  lemma MergeEntryFaulty(crypto: Crypto, trust: Trust, target: Target, binding: Binding, latest: map<string, Row>, name: string)
    ensures var r := MergeEntry(crypto, trust, target, binding, latest, name);
            r.Err? ==> if r.reason.MissingRow? then name !in latest
                       else name in latest && Faulty(r.reason, crypto, trust, target, binding, name, latest[name])
  {
  }

  lemma AttestEntryFaulty(crypto: Crypto, trust: Trust, target: Target, latest: map<string, Row>, name: string)
    ensures var r := AttestEntry(crypto, trust, target, latest, name);
            r.Err? ==> if r.reason.MissingRow? then name !in latest
                       else !r.reason.WrongRepo? && name in latest
                            && Faulty(r.reason, crypto, trust, target, Unbound, name, latest[name])
  {
  }

  lemma {:induction false} FaultIsRefusal(refusal: Refusal, crypto: Crypto, trust: Trust, target: Target, binding: Binding, rows: seq<Row>, name: string)
    requires var latest := Latest(rows, RowReviewer);
             if refusal.MissingRow? then name !in latest
             else name in latest && Faulty(refusal, crypto, trust, target, binding, name, latest[name])
    ensures Refuses(refusal, crypto, trust, target, binding, rows, name)
  {
    MissingOrLast(rows, name);
  }

  /** A refused merge fold names a fault that a required reviewer's last row indeed has. */
  lemma {:induction false} MergeRefusalHolds(crypto: Crypto, trust: Trust, target: Target, binding: Binding,
      rows: seq<Row>, required: seq<string>)
    ensures match MergeEntries(crypto, trust, target, binding, Latest(rows, RowReviewer), required)
            case Ok(_) => true
            case Err(refusal) => exists name :: name in required && Refuses(refusal, crypto, trust, target, binding, rows, name)
  {
    if required != [] {
      var first := MergeEntry(crypto, trust, target, binding, Latest(rows, RowReviewer), required[0]);
      MergeEntryFaulty(crypto, trust, target, binding, Latest(rows, RowReviewer), required[0]);
      if first.Err? {
        FaultIsRefusal(first.reason, crypto, trust, target, binding, rows, required[0]);
      }
      MergeRefusalHolds(crypto, trust, target, binding, rows, required[1..]);
      assert required[0] in required && forall name :: name in required[1..] ==> name in required;
    }
  }

  /** So does a refused attest fold, which never refuses for the repository. */
  lemma {:induction false} AttestRefusalHolds(crypto: Crypto, trust: Trust, target: Target, rows: seq<Row>, required: seq<string>)
    ensures match AttestFold(crypto, trust, target, rows, required)
            case Ok(_) => true
            case Err(refusal) =>
              !refusal.WrongRepo? && exists name :: name in required && Refuses(refusal, crypto, trust, target, Unbound, rows, name)
  {
    if required != [] {
      var first := AttestEntry(crypto, trust, target, Latest(rows, RowReviewer), required[0]);
      AttestEntryFaulty(crypto, trust, target, Latest(rows, RowReviewer), required[0]);
      if first.Err? {
        FaultIsRefusal(first.reason, crypto, trust, target, Unbound, rows, required[0]);
      }
      AttestRefusalHolds(crypto, trust, target, rows, required[1..]);
      assert required[0] in required && forall name :: name in required[1..] ==> name in required;
    }
  }

  // ----- The fold of stamp admin sign ----------------------------------------------------------

  /** One row in `loadServerApprovals`; a row that does not check out is skipped. */
  function Kept(crypto: Crypto, trust: Trust, row: Row): seq<Entry> {
    match row.json
    case Malformed => []
    case NonObject => []
    case Object(a) =>
      if !a.serverKey.Text? || !trust.Pub(a.serverKey.value) then []
      else if a.serverKey.value !in trust.capabilities || Server !in trust.capabilities[a.serverKey.value] then []
      else if !crypto.verify(trust.pubs[a.serverKey.value], crypto.approvalBytes(a), row.signature) then []
      else [Entry(a, a.serverKey.value, row.signature)]
  }

  function AllKept(crypto: Crypto, trust: Trust, rows: seq<Row>): seq<Entry> {
    if rows == [] then [] else Kept(crypto, trust, rows[0]) + AllKept(crypto, trust, rows[1..])
  }

  /** `x.approval.reviewer < y.approval.reviewer`; JavaScript orders no two values that are not strings. */
  predicate Before(x: Entry, y: Entry) {
    x.approval.reviewer.Text? && y.approval.reviewer.Text? && Less(x.approval.reviewer.value, y.approval.reviewer.value)
  }

  function Insert(e: Entry, es: seq<Entry>): seq<Entry> {
    if es == [] then [e]
    else if Before(es[0], e) then [es[0]] + Insert(e, es[1..])
    else [e] + es
  }

  /** A stable sort by reviewer. */
  function SortByReviewer(es: seq<Entry>): seq<Entry> {
    if es == [] then [] else Insert(es[0], SortByReviewer(es[1..]))
  }

  function AdminFold(crypto: Crypto, trust: Trust, rows: seq<Row>): seq<Entry> {
    SortByReviewer(AllKept(crypto, trust, rows))
  }

  /** How many rows hold the entry's approval with its signature. */
  function Copies(rows: seq<Row>, e: Entry): nat {
    multiset(Contents(rows))[(Object(e.approval), e.signature)]
  }

  function Contents(rows: seq<Row>): seq<(Json, string)> {
    seq(|rows|, i requires 0 <= i < |rows| => (rows[i].json, rows[i].signature))
  }

  lemma {:induction false} KeptCopies(crypto: Crypto, trust: Trust, rows: seq<Row>, e: Entry)
    ensures multiset(AllKept(crypto, trust, rows))[e] == if ServerSigned(crypto, trust, e) then Copies(rows, e) else 0
  {
    if rows != [] {
      KeptCopies(crypto, trust, rows[1..], e);
      KeptOnce(crypto, trust, rows[0], e);
      CopiesCons(rows, e);
    }
  }

  lemma KeptOnce(crypto: Crypto, trust: Trust, row: Row, e: Entry)
    ensures multiset(Kept(crypto, trust, row))[e]
         == if ServerSigned(crypto, trust, e) && row.json == Object(e.approval) && row.signature == e.signature then 1 else 0
  {
  }

  lemma CopiesCons(rows: seq<Row>, e: Entry)
    requires rows != []
    ensures Copies(rows, e)
         == (if rows[0].json == Object(e.approval) && rows[0].signature == e.signature then 1 else 0) + Copies(rows[1..], e)
  {
    assert Contents(rows) == [(rows[0].json, rows[0].signature)] + Contents(rows[1..]);
  }

  /** No entry stands after one that it should come before. */
  predicate NoneBefore(es: seq<Entry>) {
    forall i, j :: 0 <= i < j < |es| ==> !Before(es[j], es[i])
  }

  predicate TextReviewers(es: seq<Entry>) {
    forall i :: 0 <= i < |es| ==> es[i].approval.reviewer.Text?
  }

  lemma {:induction false} InsertPermutes(e: Entry, es: seq<Entry>)
    ensures multiset(Insert(e, es)) == multiset(es) + multiset{e}
  {
    if es != [] {
      assert es == [es[0]] + es[1..];
      InsertPermutes(e, es[1..]);
    }
  }

  /** The sort loses and adds nothing. */
  lemma {:induction false} SortPermutes(es: seq<Entry>)
    ensures multiset(SortByReviewer(es)) == multiset(es)
  {
    if es != [] {
      assert es == [es[0]] + es[1..];
      SortPermutes(es[1..]);
      InsertPermutes(es[0], SortByReviewer(es[1..]));
    }
  }

  lemma NotBeforeTransitive(x: Entry, y: Entry, z: Entry)
    requires x.approval.reviewer.Text? && y.approval.reviewer.Text? && z.approval.reviewer.Text?
    requires !Before(y, x) && !Before(z, y)
    ensures !Before(z, x)
  {
    var a, b, c := x.approval.reviewer.value, y.approval.reviewer.value, z.approval.reviewer.value;
    if Less(c, a) {
      LessTotal(a, b);
      LessTotal(b, c);
      if Less(a, b) {
        LessTransitive(c, a, b);
      }
    }
  }

  lemma BeforeIsOneWay(x: Entry, y: Entry)
    requires Before(x, y)
    ensures !Before(y, x)
  {
    if Before(y, x) {
      LessTransitive(x.approval.reviewer.value, y.approval.reviewer.value, x.approval.reviewer.value);
      LessIrreflexive(x.approval.reviewer.value);
    }
  }

  lemma {:induction false} InsertOrders(e: Entry, es: seq<Entry>)
    requires TextReviewers(es) && e.approval.reviewer.Text? && NoneBefore(es)
    ensures TextReviewers(Insert(e, es)) && NoneBefore(Insert(e, es))
  {
    if es == [] {
    } else if Before(es[0], e) {
      var rest := es[1..];
      assert forall i :: 0 <= i < |rest| ==> rest[i] == es[i + 1];
      InsertOrders(e, rest);
      BeforeIsOneWay(es[0], e);
      InsertedAfter(e, rest, es[0]);
      OrderedCons(es[0], Insert(e, rest));
    } else {
      forall j | 0 <= j < |es| ensures !Before(es[j], e) {
        if j > 0 {
          NotBeforeTransitive(e, es[0], es[j]);
        }
      }
      OrderedCons(e, es);
    }
  }

  lemma OrderedCons(first: Entry, rest: seq<Entry>)
    requires TextReviewers(rest) && first.approval.reviewer.Text? && NoneBefore(rest)
    requires forall j :: 0 <= j < |rest| ==> !Before(rest[j], first)
    ensures TextReviewers([first] + rest) && NoneBefore([first] + rest)
  {
  }

  lemma {:induction false} InsertedAfter(e: Entry, rest: seq<Entry>, first: Entry)
    requires !Before(e, first) && forall j :: 0 <= j < |rest| ==> !Before(rest[j], first)
    ensures forall j :: 0 <= j < |Insert(e, rest)| ==> !Before(Insert(e, rest)[j], first)
  {
    var tail := Insert(e, rest);
    InsertPermutes(e, rest);
    forall j | 0 <= j < |tail| ensures !Before(tail[j], first) {
      assert tail[j] in multiset(tail);
      assert tail[j] == e || tail[j] in rest;
    }
  }

  /** Entries whose reviewers are strings come out in ascending order of reviewer, also when some share one. */
  lemma {:induction false} SortOrders(es: seq<Entry>)
    ensures TextReviewers(es) ==> TextReviewers(SortByReviewer(es)) && NoneBefore(SortByReviewer(es))
  {
    if es != [] && TextReviewers(es) {
      assert forall i :: 0 <= i < |es| - 1 ==> es[1..][i] == es[i + 1];
      SortOrders(es[1..]);
      InsertOrders(es[0], SortByReviewer(es[1..]));
    }
  }

  lemma {:induction false} SortedOrders(es: seq<Entry>)
    ensures TextReviewers(SortByReviewer(es)) ==> NoneBefore(SortByReviewer(es))
  {
    var sorted := SortByReviewer(es);
    SortPermutes(es);
    if TextReviewers(sorted) {
      forall i | 0 <= i < |es| ensures es[i].approval.reviewer.Text? {
        assert es[i] in multiset(sorted);
      }
      SortOrders(es);
    }
  }

  function OfReviewer(es: seq<Entry>, reviewer: Field): seq<Entry> {
    if es == [] then []
    else (if es[0].approval.reviewer == reviewer then [es[0]] else []) + OfReviewer(es[1..], reviewer)
  }

  lemma {:induction false} InsertIsFirst(e: Entry, es: seq<Entry>, reviewer: Field)
    ensures OfReviewer(Insert(e, es), reviewer)
         == (if e.approval.reviewer == reviewer then [e] else []) + OfReviewer(es, reviewer)
  {
    if es != [] && Before(es[0], e) {
      SelfIsNotBefore(e);
      assert es[0].approval.reviewer != e.approval.reviewer;
      InsertIsFirst(e, es[1..], reviewer);
      var first := if es[0].approval.reviewer == reviewer then [es[0]] else [];
      assert ([es[0]] + Insert(e, es[1..]))[1..] == Insert(e, es[1..]);
      assert first == [] || e.approval.reviewer != reviewer;
    } else {
      assert ([e] + es)[1..] == es;
    }
  }

  /** The sort is stable: entries of one reviewer keep their order. */
  lemma {:induction false} SortIsStable(es: seq<Entry>, reviewer: Field)
    ensures OfReviewer(SortByReviewer(es), reviewer) == OfReviewer(es, reviewer)
  {
    if es != [] {
      SortIsStable(es[1..], reviewer);
      InsertIsFirst(es[0], SortByReviewer(es[1..]), reviewer);
    }
  }

  /** The same fold as the loop that pushes into `out`. */
  method LoadServerApprovals(crypto: Crypto, trust: Trust, rows: seq<Row>) returns (sorted: seq<Entry>)
    ensures sorted == AdminFold(crypto, trust, rows)
    ensures forall e :: multiset(sorted)[e] ==
              if ServerSigned(crypto, trust, e) then Copies(rows, e) else 0
    ensures TextReviewers(sorted) ==> NoneBefore(sorted)
  {
    var out := [];
    var i := 0;
    assert rows[0..] == rows;
    while i < |rows|
      invariant i <= |rows|
      invariant out + AllKept(crypto, trust, rows[i..]) == AllKept(crypto, trust, rows)
    {
      var row := rows[i];
      ghost var before := out;
      assert rows[i..][1..] == rows[i + 1..];
      i := i + 1;
      if !row.json.Object? || !row.json.approval.serverKey.Text? {
        assert Kept(crypto, trust, row) == [];
        assert [] + AllKept(crypto, trust, rows[i..]) == AllKept(crypto, trust, rows[i..]);
        continue;
      }
      var a, key := row.json.approval, row.json.approval.serverKey.value;
      var trusted := trust.Pub(key) && key in trust.capabilities && Server in trust.capabilities[key];
      if trusted && crypto.verify(trust.pubs[key], crypto.approvalBytes(a), row.signature) {
        out := out + [Entry(a, key, row.signature)];
      }
      assert out == before + Kept(crypto, trust, row);
      Assoc(before, Kept(crypto, trust, row), AllKept(crypto, trust, rows[i..]));
    }
    assert out + [] == out;
    sorted := SortByReviewer(out);
    SortPermutes(out);
    SortedOrders(out);
    forall e ensures multiset(sorted)[e] == if ServerSigned(crypto, trust, e) then Copies(rows, e) else 0 {
      KeptCopies(crypto, trust, rows, e);
    }
  }

  // ----- Three folds, one list -------------------------------------------------------------------

  /** Strictly ascending by reviewer. */
  predicate Ascending(es: seq<Entry>) {
    && (forall i :: 0 <= i < |es| ==> es[i].approval.reviewer.Text?)
    && forall i, j :: 0 <= i < j < |es| ==> Before(es[i], es[j])
  }

  predicate AscendingNames(names: seq<string>) {
    forall i, j :: 0 <= i < j < |names| ==> Less(names[i], names[j])
  }

  lemma {:induction false} InsertKeeps(e: Entry, es: seq<Entry>)
    requires Ascending(es) && e.approval.reviewer.Text?
    requires forall i :: 0 <= i < |es| ==> es[i].approval.reviewer != e.approval.reviewer
    ensures Ascending(Insert(e, es))
    ensures forall x :: x in Insert(e, es) <==> x == e || x in es
  {
    if es == [] {
    } else if Before(es[0], e) {
      InsertKeeps(e, es[1..]);
      var tail := Insert(e, es[1..]);
      assert forall j :: 0 <= j < |tail| ==> tail[j] in tail;
    } else {
      forall j | 0 <= j < |es| ensures Before(e, es[j]) {
        LessTotal(e.approval.reviewer.value, es[0].approval.reviewer.value);
        if j > 0 {
          LessTransitive(e.approval.reviewer.value, es[0].approval.reviewer.value, es[j].approval.reviewer.value);
        }
      }
    }
  }

  /** All reviewers are strings and no two entries share one. */
  predicate DistinctReviewers(es: seq<Entry>) {
    && (forall i :: 0 <= i < |es| ==> es[i].approval.reviewer.Text?)
    && forall i, j :: 0 <= i < j < |es| ==> es[i].approval.reviewer != es[j].approval.reviewer
  }

  /** With distinct reviewers the sort is a permutation in strictly ascending order. */
  lemma {:induction false} SortSorts(es: seq<Entry>)
    requires DistinctReviewers(es)
    ensures Ascending(SortByReviewer(es))
    ensures forall x :: x in SortByReviewer(es) <==> x in es
  {
    if es != [] {
      SortSorts(es[1..]);
      var rest := SortByReviewer(es[1..]);
      forall i | 0 <= i < |rest| ensures rest[i].approval.reviewer != es[0].approval.reviewer {
        assert rest[i] in es[1..];
      }
      InsertKeeps(es[0], rest);
      assert forall x :: x in es <==> x == es[0] || x in es[1..];
    }
  }

  lemma FirstIsLeast(xs: seq<Entry>, ys: seq<Entry>)
    requires Ascending(xs) && Ascending(ys) && xs != [] && ys != []
    requires forall e :: e in xs <==> e in ys
    ensures xs[0] == ys[0]
  {
    assert xs[0] in ys && ys[0] in xs;
    var i :| 0 <= i < |ys| && ys[i] == xs[0];
    var j :| 0 <= j < |xs| && xs[j] == ys[0];
    if i > 0 && j > 0 {
      LessTransitive(xs[0].approval.reviewer.value, ys[0].approval.reviewer.value, xs[0].approval.reviewer.value);
      LessIrreflexive(xs[0].approval.reviewer.value);
    }
  }

  lemma SelfIsNotBefore(e: Entry)
    ensures !Before(e, e)
  {
    if e.approval.reviewer.Text? {
      LessIrreflexive(e.approval.reviewer.value);
    }
  }

  lemma SameEmptiness(xs: seq<Entry>, ys: seq<Entry>)
    requires forall e :: e in xs <==> e in ys
    ensures xs == [] <==> ys == []
  {
    if xs != [] {
      assert xs[0] in xs;
    }
    if ys != [] {
      assert ys[0] in ys;
    }
  }

  /** An ascending list is determined by its elements. */
  lemma {:induction false} AscendingUnique(xs: seq<Entry>, ys: seq<Entry>)
    requires Ascending(xs) && Ascending(ys)
    requires forall e :: e in xs <==> e in ys
    ensures xs == ys
  {
    SameEmptiness(xs, ys);
    if xs != [] {
      FirstIsLeast(xs, ys);
      var x, y := xs[1..], ys[1..];
      SelfIsNotBefore(xs[0]);
      forall e ensures e in x <==> e in y {
        assert e in xs <==> e == xs[0] || e in x;
        assert e in ys <==> e == ys[0] || e in y;
        assert forall i :: 0 <= i < |x| ==> x[i] == xs[i + 1];
        assert forall i :: 0 <= i < |y| ==> y[i] == ys[i + 1];
      }
      AscendingUnique(x, y);
      assert xs == [xs[0]] + x && ys == [ys[0]] + y;
    }
  }

  /** Exactly one row for each required reviewer, in any order. */
  ghost predicate OneRowEach(rows: seq<Row>, required: seq<string>) {
    && (forall j, k :: 0 <= j < k < |rows| ==> rows[j].reviewer != rows[k].reviewer)
    && (forall k :: 0 <= k < |rows| ==> rows[k].reviewer in required)
  }

  /** With one row each, the row of a complete fold is the row itself. */
  lemma RowIsEntry(crypto: Crypto, trust: Trust, target: Target, rows: seq<Row>, required: seq<string>,
      es: seq<Entry>, k: nat) returns (i: nat)
    requires Complete(crypto, trust, target, rows, required, es) && OneRowEach(rows, required) && k < |rows|
    ensures i < |es| && required[i] == rows[k].reviewer
    ensures rows[k] == Row(required[i], Object(es[i].approval), es[i].signature)
    ensures Kept(crypto, trust, rows[k]) == [es[i]]
    ensures es[i].approval.reviewer == Text(rows[k].reviewer)
  {
    assert rows[k].reviewer in required;
    i :| 0 <= i < |required| && required[i] == rows[k].reviewer;
    assert FromRows(rows, required[i], es[i]);
    var j: nat :| LastAt(rows, RowReviewer, required[i], j)
                  && rows[j] == Row(required[i], Object(es[i].approval), es[i].signature);
    assert j == k;
  }

  /** Each row alone gives one entry. */
  ghost predicate OneKeptEach(crypto: Crypto, trust: Trust, rows: seq<Row>) {
    forall k :: 0 <= k < |rows| ==> |Kept(crypto, trust, rows[k])| == 1
  }

  lemma {:induction false} KeptRowByRow(crypto: Crypto, trust: Trust, rows: seq<Row>)
    requires OneKeptEach(crypto, trust, rows)
    ensures |AllKept(crypto, trust, rows)| == |rows|
    ensures forall k :: 0 <= k < |rows| ==> Kept(crypto, trust, rows[k]) == [AllKept(crypto, trust, rows)[k]]
  {
    if rows != [] {
      var rest := rows[1..];
      assert forall k :: 0 <= k < |rest| ==> rest[k] == rows[k + 1];
      KeptRowByRow(crypto, trust, rest);
      assert forall k :: 1 <= k < |rows| ==> rows[k] == rest[k - 1];
    }
  }

  lemma {:induction false} KeptAreEntries(crypto: Crypto, trust: Trust, target: Target, rows: seq<Row>, required: seq<string>, es: seq<Entry>)
    requires Complete(crypto, trust, target, rows, required, es) && OneRowEach(rows, required)
    ensures var kept := AllKept(crypto, trust, rows);
            && |kept| == |rows|
            && forall k :: 0 <= k < |kept| ==> kept[k] in es && kept[k].approval.reviewer == Text(rows[k].reviewer)
    ensures OneKeptEach(crypto, trust, rows)
  {
    forall k | 0 <= k < |rows| ensures |Kept(crypto, trust, rows[k])| == 1 {
      var i := RowIsEntry(crypto, trust, target, rows, required, es, k);
    }
    KeptRowByRow(crypto, trust, rows);
    var kept := AllKept(crypto, trust, rows);
    forall k | 0 <= k < |kept| ensures kept[k] in es && kept[k].approval.reviewer == Text(rows[k].reviewer) {
      var i := RowIsEntry(crypto, trust, target, rows, required, es, k);
      assert kept[k] == es[i];
    }
  }

  lemma {:induction false} EntryIsKept(crypto: Crypto, trust: Trust, target: Target, rows: seq<Row>, required: seq<string>,
      es: seq<Entry>, i: nat)
    requires Complete(crypto, trust, target, rows, required, es) && OneRowEach(rows, required) && i < |es|
    requires OneKeptEach(crypto, trust, rows)
    ensures es[i] in AllKept(crypto, trust, rows)
  {
    assert FromRows(rows, required[i], es[i]) && Attests(crypto, trust, target, required[i], es[i]);
    var j: nat :| LastAt(rows, RowReviewer, required[i], j)
                  && rows[j] == Row(required[i], Object(es[i].approval), es[i].signature);
    KeptRowByRow(crypto, trust, rows);
    assert Kept(crypto, trust, rows[j]) == [es[i]];
  }

  lemma EntriesAscend(crypto: Crypto, trust: Trust, target: Target, rows: seq<Row>, required: seq<string>, es: seq<Entry>)
    requires Complete(crypto, trust, target, rows, required, es) && AscendingNames(required)
    ensures Ascending(es)
  {
    assert forall i :: 0 <= i < |es| ==> Attests(crypto, trust, target, required[i], es[i]);
  }

  lemma {:induction false} KeptSameElements(crypto: Crypto, trust: Trust, target: Target, rows: seq<Row>, required: seq<string>, es: seq<Entry>)
    requires Complete(crypto, trust, target, rows, required, es) && OneRowEach(rows, required)
    ensures var kept := AllKept(crypto, trust, rows);
            DistinctReviewers(kept) && forall e :: e in kept <==> e in es
  {
    KeptAreEntries(crypto, trust, target, rows, required, es);
    forall i | 0 <= i < |es| ensures es[i] in AllKept(crypto, trust, rows) {
      EntryIsKept(crypto, trust, target, rows, required, es, i);
    }
  }

  /**
   * When the merge fold succeeds, the attest fold returns the identical list; and with required
   * reviewers in ascending order and one row for each, so does the admin fold, whatever the order
   * of the rows.
   */
  lemma ThreeFoldsAgree(crypto: Crypto, trust: Trust, target: Target, binding: Binding,
      rows: seq<Row>, required: seq<string>, es: seq<Entry>)
    requires MergeFold(crypto, trust, target, binding, rows, required) == Ok(es)
    ensures AttestFold(crypto, trust, target, rows, required) == Ok(es)
    ensures AscendingNames(required) && OneRowEach(rows, required) ==> AdminFold(crypto, trust, rows) == es
  {
    MergeIsAttestPlusBinding(crypto, trust, target, binding, rows, required, es);
    MergeFoldIff(crypto, trust, target, binding, rows, required, es);
    if AscendingNames(required) && OneRowEach(rows, required) {
      EntriesAscend(crypto, trust, target, rows, required, es);
      KeptSameElements(crypto, trust, target, rows, required, es);
      SortSorts(AllKept(crypto, trust, rows));
      AscendingUnique(AdminFold(crypto, trust, rows), es);
    }
  }
}
