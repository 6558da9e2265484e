# Verified models of stamp

stamp decides whether a change may land: reviewers' signed approvals, an operator's signed merge, and
admins' counter-signatures on the files that define trust. This project models the parts of stamp where
that decision is made or can go wrong, and proves what they promise. `dafny verify dfyconfig.toml`
checks all of it.

| module | models |
|---|---|
| `Sse` | the incremental `text/event-stream` parser of `stamp pr listen`, against sections 9.2.5 and 9.2.6 of the HTML Standard |
| `Delivery` | the one-slot promise queue of a connection, and the loop that reconnects with growing delays |
| `Admission` | what an event must pass before the listener acts on it: PR URL, author, consent |
| `Listener`, `ListenerRuns` | the listener's event loop (seat, heartbeat, diff, review, post, spend cap), and what every run keeps |
| `ListenerCalls` | exactly which calls one iteration makes, in which order, what each says and what is charged |
| `ListenerSeats`, `ListenerSignal` | what becomes of each seat and heartbeat; the event loop and its SIGINT handler as two interleaved tasks |
| `CommitGraph`, `Merge`, `MergeRace` | `stamp merge` over one repository object, and any number of merges over one lock |
| `Approvals`, `Envelope` | the three folds over server-signed approvals; building the v4 envelope and the hook's twelve phases |
| `EnvelopeMeaning` | what an accepted envelope proves, whoever built it, and what envelope the merge builds |
| `Glob` | the staged compilation of path globs, in the two forms the repository holds |
| `SourceSpec`, `PersonaFetch` | source specs, persona URLs under RFC 3986, and the trust policy of `stamp reviewers fetch` |
| `Migrate`, `Rotate` | the manifest written and scanned by the migration, and the manifest under add-key and revoke |
| `Strings`, `Results`, `Capabilities`, `LatestRows` | shared definitions |

Code that changes state is modelled by classes and methods whose postconditions equate the new state with
a function of the old one; the properties are then lemmas about those functions, over every input, run or
interleaving. Git, the network, GitHub, the server, the language model, the clock and the database enter
as arbitrary answers. Ed25519 and canonical serialization are arbitrary functions; where a signature is
produced and then checked, that the two agree is a stated hypothesis. Costs are reals. The queue and the
reconnecting loop are driven by a script of inputs, so that an `await` is a place where the script goes on.

## Findings

These are places where the code does not do what its comments, or the standard it follows, say. The code
is modelled as it is, and each point is a lemma with the exact condition or a concrete instance.

- Path globs: src/lib/trustAnchorCollection.ts:288-291 says its copy must stay identical to the hook's.
  The copies agree on a NUL-free pattern exactly when it has neither a `*` or `?` followed by the word
  `DOUBLESTAR` and another wildcard, nor a `?` followed by `SINGLESTAR` and a `*` or `?`; otherwise the
  producer's rule never fires (`Glob.SidesAgreeUnlessCollision`, `Glob.CollisionExample`).
- Event stream: on LF and CRLF text the handler and the HTML Standard differ exactly when a completed event
  has a `data` line without a colon, or any `data` line as the first line after a byte order mark, which the
  handler leaves in (`Sse.AgreesWithStandard`, `Sse.MarkDiffers`). A lone CR does not end a line; whatever the
  text, a frame that keeps one is not what the standard dispatches (`Sse.CrInFrameDiffers`, `Sse.LoneCrDiffers`).
- Heartbeat: a seat is released while its heartbeat still runs (src/commands/prListen.ts:1454-1490) exactly
  when the event leads to a claim, the claim is granted, the diff is fetched and the review fails
  (`ListenerSeats.ReleasedWhileBeatingIff`, `ListenerSeats.FailedReviewExample`); otherwise the call after the
  review stops it.
- SIGINT: the handler begins a release and leaves the loop running (src/commands/prListen.ts:877-905). Each
  seat is settled once, with nothing cut off, exactly when the signal finds no claim that is being granted and
  no release in flight, and, if it finds a seat holder's review running, the handler's release is answered
  before anything else happens (`ListenerSignal.SigintCleanIff`). Otherwise the seat stays held, or a release
  is cut off (`ListenerSignal.LostRequestExamples`), or it is released twice
  (`ListenerSignal.TwoReleasesExample`), or its review is posted although it is being given back
  (`ListenerSignal.PostedAnywayExample`).
- Merging a branch that the target already contains succeeds and replaces the target's tip
  (`Merge.ContainedBranchReplacesTip`).
- A lock judged stale and taken over lets one process stamp another's merge (`MergeRace.StolenLockMisstamps`).
- `stamp reviewers fetch`: a reviewer that a verified manifest does not list is fetched all the same exactly
  when its name is inherited by the object that collects the entries: a member of every JavaScript object
  (`constructor`, `toString`, ...), or, when the manifest's JSON has an entry `__proto__`, which the signature
  does not cover, `prompt_sha256` and its like (src/lib/reviewerManifest.ts:88-105;
  `PersonaFetch.UnlistedFetchedIffInherited`, `PersonaFetch.InheritedNamesAreNotCovered`).
- Migration: the line scanner credits a list of capabilities to the fingerprint above it. It finds the true
  admins exactly when, entry by entry, the list so credited has `admin` just when the entry's own does
  (`Migrate.ScanOfWritten`, `Migrate.SwappedEntryIsMisread`). Names are made unique exactly when no repeated
  name with its count as suffix is itself a name (`Migrate.DisambiguationIff`), although
  src/lib/migrateServerAttested.ts:135-137 promises it always.
- Adding an admin key: a file with the key's name is taken for the key without looking into it
  (src/commands/adminRotate.ts:234-243). The new key is committed exactly when there is no such file or the
  key is already in some file (`Rotate.AddKeepsIff`).

## Model

| member | source | states |
|---|---|---|
| Sse.Parser.FlushFrame | src/commands/prListen.ts:347-370 | a blank line hands over the pending data lines joined by line feeds and clears them; with none pending nothing happens |
| Sse.Parser.OnData | src/commands/prListen.ts:371-396 | one chunk leaves buffer, pending lines and frames as draining buffer plus chunk line by line does |
| Sse.ChunkInvariance | src/commands/prListen.ts:371-396 | however a text is cut into chunks, the frames, the pending lines and the leftover buffer are those of the whole text |
| Sse.UnterminatedFrameNeverEmitted | src/commands/prListen.ts:347-378 | text that completes no blank line emits no frame |
| Sse.FramesGrow | src/commands/prListen.ts:347-351 | later lines only append to the frames already emitted |
| Sse.AgreesWithStandard | src/commands/prListen.ts:376-394 | on LF and CRLF text, with or without a byte order mark, the frames are the events the HTML Standard dispatches, exactly when no completed event holds a `data` line without a colon, or any as its first line after a mark |
| Sse.MarkDiffers | src/commands/prListen.ts:371-394 | a stream that begins with a byte order mark and whose first event the handler loses |
| Sse.CrInFrameDiffers | src/commands/prListen.ts:375-377 | for every text, frames that keep a lone CR are not what the standard dispatches |
| Sse.LoneCrDiffers | src/commands/prListen.ts:375-377 | a text with a lone CR on which handler and standard differ |
| Sse.PrintParse | src/commands/prListen.ts:347-396 | frames printed as data lines with any mix of comments and line endings, in any chunks, come back as their texts joined by line feeds, in order, with nothing left over |
| Delivery.EventQueue.Deliver | src/commands/prListen.ts:466-474 | an event resolves the waiting promise or joins the queue |
| Delivery.EventQueue.SignalEnd | src/commands/prListen.ts:475-482 | the end is recorded and resolves a waiting promise to null |
| Delivery.EventQueue.NextEvent | src/commands/prListen.ts:483-494 | a promise resolves from the queue, else to null after the end, else waits |
| Delivery.EventsConserved | src/commands/prListen.ts:462-494 | for every order of calls, events handed over followed by events queued are exactly the events delivered, in order; a waiting promise means an open, empty queue |
| Delivery.EveryPromiseKept | src/commands/prListen.ts:464-494 | promises issued equal promises resolved, plus one waiting, plus those asked for over an open one, which are lost; with none of those, promise i is the i-th resolved |
| Delivery.NullMeansDrained | src/commands/prListen.ts:475-494 | null means ended with every delivered event handed over |
| Delivery.NeverWaitsAfterEnd | src/commands/prListen.ts:475-494 | once the end was signalled no promise waits |
| Delivery.Reconnector.NextEvent | src/commands/prListen.ts:776-845 | one call leaves the state that the step machine reaches on the inputs used; it returns one event, stops with an outcome, or is still waiting when the script ends; after SIGINT it returns null at once and uses no input |
| Delivery.Reconnector.WhileBusy | src/commands/prListen.ts:466-482 | what arrives while the event loop is busy leaves the state that the step machine reaches on it |
| Delivery.ExactlyOnce | src/commands/prListen.ts:738-846 | over every run, across reconnects, events returned are a prefix of events arrived, the rest being in flight or queued; between connections nothing is missing |
| Delivery.AskingDrains | src/commands/prListen.ts:776-783 | asking once per queued event hands over everything that arrived |
| Delivery.WaitsOnlyOnOpenConnection | src/commands/prListen.ts:483-494 | a read waits exactly while its connection is open and its queue empty |
| Delivery.StopsOnlyWhenTold | src/commands/prListen.ts:777-837 | after a first successful connect, null only after SIGINT and exit 1 only after a 401 or 403 |
| Delivery.BarredStops | src/commands/prListen.ts:822-830 | a connect refused with 401 or 403 ends the loop for good, without another delay |
| Delivery.ShutResumption | src/commands/prListen.ts:776-830 | after SIGINT a call, the end of a delay, an ended stream and an answered connect each stop the loop, with null but for a 401 or 403, while an event already resolved is still returned |
| Delivery.ShutdownEnds | src/commands/prListen.ts:776-830 | over every run after SIGINT no read, delay or connect begins, at most the event being read is handed over, and a stopped loop stays stopped |
| Delivery.EndedStreamIsReconnected | src/commands/prListen.ts:784-837 | without SIGINT, a stream that ends is replaced after any number of refused connects and one that stands, with nothing lost and the attempt count back at 0 |
| Delivery.BackoffTotal | src/commands/prListen.ts:725-803 | the first n delays total 1000(2^n - 1) ms up to n = 6 and 63000 + 60000(n - 6) ms from there |
| Delivery.BackoffOverRuns | src/commands/prListen.ts:798-836 | over every run the delays since the last success start again from 1 s, never decrease, lie in [1 s, 60 s] and have that total |
| Admission.UrlsAccepted | src/lib/prUrlBinding.ts:31-49 | a URL is accepted exactly when it is the URL of a well-formed PR on github.com in any letter case, and is read back as that PR |
| Admission.DataFlowGate | src/commands/prListen.ts:1065-1108 | the loop over refs passes exactly when the endpoint is local or the configuration at base and at the tip is readable and consents |
| Admission.AdmitIff | src/commands/prListen.ts:988-1108 | an event is admitted exactly when the URL is bound to the repository, both SHAs are full, the author is another, the base is on the protected branch, and at base and at the tip the author is an operator and, off-host, the endpoint is consented to |
| Admission.RevocationSticks | src/lib/peerOperatorVerify.ts:150-214 | no event of a key that is no operator at the tip is admitted, whatever base it cites |
| Listener.Loop.AddSpend | src/commands/prListen.ts:856-864 | a charge on another day restarts the sum |
| Listener.Loop.DecideAndLog | src/commands/prListen.ts:1136-1215 | triage, its charge, the cap's downgrade to skip and the logged decision, in that order |
| Listener.Loop.HandleEvent | src/commands/prListen.ts:945-1648 | one iteration makes exactly the calls and charges of the iteration function and ends with no recorded seat and no heartbeat |
| ListenerCalls.CallsAreDue | src/commands/prListen.ts:988-1648 | every iteration makes each kind of call once or not at all, exactly as event, decision and answers call for: a claim unless skipped, capped or without its prompt; a registration for `always` when the seats are full; fetch and review for those placed; a draft only in mode draft for a 40-digit hexadecimal patch; a post only in mode auto-post; neither in a dry run |
| ListenerCalls.CallsTell | src/commands/prListen.ts:988-1648 | every call carries the admitted event's patch, PR, base and head, the decision logged, and the world's own outcome; a post carries the review's verdict |
| ListenerCalls.CallsAreOrdered | src/commands/prListen.ts:988-1648 | triage, log, claim, registration, fetch, review and publication come in this order |
| ListenerCalls.ChargesAreDue | src/commands/prListen.ts:1136-1490 | an admitted event is charged its triage, and its review when one comes back, and nothing else |
| Listener.Loop.Run | src/commands/prListen.ts:936-1648 | a run makes the calls and charges of its events in order, each at the spend the ones before left |
| ListenerRuns.IterationObeys | src/commands/prListen.ts:945-1648 | every iteration follows the seat protocol automaton from nothing held to nothing held: fetch after seat, heartbeat for seats only, review of the fetched head, release with the record cleared, post pinned to the fetched head |
| ListenerRuns.BalanceIsHolding | src/commands/prListen.ts:1350-1648 | in any sequence that follows the protocol, seats granted less seats released or used up by a post are the seats held |
| ListenerRuns.EverySeatSettled | src/commands/prListen.ts:936-1648 | over every run the number of seats granted is the number of releases plus successful posts by a holder |
| ListenerSeats.EachSeatSettledOnce | src/commands/prListen.ts:1350-1648 | in every run, each granted claim is followed, before the next claim, by one release of the same patch or one successful post made while holding that seat, and by no other release or holder's post |
| ListenerSeats.ExtrasHoldNothing | src/commands/prListen.ts:1286-1326 | in every run, after a claim that was not granted nothing is released, no heartbeat starts and no seat is used up until the next claim |
| ListenerSeats.HeartbeatOnlyDuringReview | src/commands/prListen.ts:1422-1490 | a heartbeat starts right after the diff was fetched for the seat held, and never runs for an extra, while a draft is saved or a review posted, or after the event |
| ListenerSeats.ReleasedWhileBeatingIff | src/commands/prListen.ts:1454-1490 | some seat is released under a running heartbeat exactly when the event is admitted and not skipped, its prompt is there, the claim is granted, the diff fetched and the review fails |
| ListenerSeats.HeartbeatStopsAfterReview | src/commands/prListen.ts:1454-1490 | after a seat holder's review, success: the next call stops the heartbeat; failure: the next call releases the seat, the one after it stops the heartbeat |
| ListenerSeats.FailedReviewExample | src/commands/prListen.ts:1456-1490 | an event whose seat is released under its heartbeat |
| ListenerSignal.SigintCleanIff | src/commands/prListen.ts:877-905 | for a SIGINT at any awaited call and whatever happens until the exit, further signals included: each granted seat is settled once and no request cut off, exactly when the signal finds no claim being granted and no release in flight, and during a seat holder's review the handler's release is answered next |
| ListenerSignal.ClaimIsAbandoned | src/commands/prListen.ts:1262-1352 | SIGINT while a claim is being granted: the process exits, one seat more is granted than settled |
| ListenerSignal.ReleaseIsCutOff | src/commands/prListen.ts:1398-1410 | SIGINT while a release is in flight: the seat is off the record, so the process exits before the answer |
| ListenerSignal.FailedReviewReleasesTwice | src/commands/prListen.ts:1456-1475 | SIGINT during a review that fails before the handler's release is answered: the loop begins a second release of that seat |
| ListenerSignal.LostRequestExamples | src/commands/prListen.ts:877-905 | an event with an unclean exit at its claim and at its release |
| ListenerSignal.TwoReleasesExample | src/commands/prListen.ts:877-905 | an event whose seat is released twice |
| ListenerSignal.PostedAnywayExample | src/commands/prListen.ts:877-943 | an event whose review is posted under the handler's release, after which the loop exits before that is answered |
| ListenerRuns.ChecksBeforeEffects | src/commands/prListen.ts:988-1121 | every call made for an event names that event's own patch, PR, base and head; an event that is not admitted causes no call and no charge |
| ListenerRuns.PostsStayInTheAuthorizedRepository | src/commands/prListen.ts:1593-1600 | every post is on the event's repository at the event's full head SHA, with the author authorized at base and tip |
| ListenerRuns.SpendIsTodaysSum | src/commands/prListen.ts:848-864 | the accumulator is always the exact sum of the charges since the day last changed |
| ListenerRuns.DailyReviewSpendBounded | src/commands/prListen.ts:1170-1191 | if every claiming decision carries a positive cap of at most C and a review costs at most R, review costs recorded on one day stay below C + R at every moment of every run, also across midnight |
| Merge.LastRowDecides | src/commands/merge.ts:197-216 | the gate takes a reviewer's last row |
| Merge.Repo.GitMerge | src/commands/merge.ts:305-318 | a contained branch changes nothing; another yields a commit with the tip and the branch as parents |
| Merge.Repo.GitAmend | src/commands/merge.ts:456-460 | amending replaces the tip by a commit with the same parents and the new stamp |
| Merge.Repo.RunChecks | src/commands/merge.ts:352-412 | result i is check i's name and exit code, and all passed exactly when all codes are zero |
| Merge.Repo.RunMerge | src/commands/merge.ts:95-171 | lock as before on every exit; success exactly when every step's condition holds, the gate being that the last row of each required reviewer says approved; failure names a condition that does not hold and leaves all refs as before unless the reset failed too; success moves only the target, to a commit stamped version 4 exactly when the rule before the merge has a review server, else 3, for the merge base and the branch tip, with every check of the merged rule at exit code 0 |
| Merge.ContainedBranchReplacesTip | src/commands/merge.ts:305-318 | the stamped commit is a merge on the old tip, and still reaches it, exactly when the branch was not already contained |
| CommitGraph.ContainedIffBaseIsHead | src/lib/git.ts:344-358 | for a best common ancestor, that is one below no other, the branch is contained exactly when it is the branch's tip, which can be seen before merging |
| MergeRace.StepKeeps | src/commands/merge.ts:184-460 | each step of any process keeps the lock exclusive and what its holder remembers true |
| MergeRace.HistoryIsStamped | src/commands/merge.ts:154-171 | for every interleaving without a stolen lock or a contained branch, whenever the lock is free each branch is its initial history plus merges stamped for their own second parent and for the merge base of their parents |
| MergeRace.MergeWindowIsExclusive | src/lib/mergeLock.ts:87-160 | from a merge to its stamp no other process is past its pre-flight and the tip is still that merge |
| MergeRace.ChecksRunningIsReached | src/commands/merge.ts:305-352 | two processes can get to where one runs its checks and the other waits for the lock |
| MergeRace.StolenLockMisstamps | src/lib/mergeLock.ts:117-139 | from there one stolen lock gives a commit stamped for a head that is not its second parent |
| LatestRows.LatestIsLast | src/commands/merge.ts:826-828 | a map built from rows holds, for each reviewer, the last row |
| Approvals.BindingMeaning | src/lib/repoBinding.ts:146-161 | approvals are bound to exactly the ids declared at tip or base, unbound when none is declared, refused when one is malformed |
| Approvals.RepoAcceptedIff | src/lib/repoBinding.ts:146-200 | an approval passes exactly when no declared id is malformed and either none is declared or it carries one of them |
| Approvals.MergeFoldIff | src/commands/merge.ts:823-1006 | the fold returns a list exactly when it holds, for each required reviewer in order, an approval from the last row for this base, head and diff, approved, with an accepted repository id, signed by a server key of the manifest |
| Approvals.MergeIsAttestPlusBinding | src/commands/attest.ts:521-687 | merge and attest folds return the same lists, except that merge also demands the repository id |
| Approvals.MergeRefusalHolds | src/commands/merge.ts:823-1006 | a refusal names a fault that the last row of some required reviewer has, or that there is none |
| Approvals.AttestRefusalHolds | src/commands/attest.ts:521-687 | the same for the attest fold, which never refuses for the repository |
| Approvals.LoadServerApprovals | src/commands/adminSign.ts:702-766 | the list holds each approval as often as the rows do when the key it names is a server's with a public key and its signature verifies over it, and no other; where reviewers are strings it is in ascending order |
| Approvals.SortSorts | src/commands/adminSign.ts:755-763 | with distinct reviewers the sort yields the same entries in strictly ascending order |
| Approvals.SortIsStable | src/commands/adminSign.ts:755-763 | entries of one reviewer keep their order |
| Approvals.ThreeFoldsAgree | src/commands/adminSign.ts:702-766 | when the merge fold succeeds the attest fold gives the identical list, and so does the admin fold for ascending reviewers with one row each, in any row order |
| Envelope.CollectVerified | src/lib/trustAnchorCollection.ts:208-246 | the loop over the note keeps the first genuine admin signature of each signer |
| Envelope.AnchorsOfBuild | src/lib/trustAnchorCollection.ts:128-286 | collected counter-signatures all pass the hook's own check, each signer counts once, and every rule the producer matches has its minimum |
| Envelope.GuardOfBuild | src/lib/v4Trust.ts:744-841 | on such an envelope the hook's path guard passes exactly when each rule it matches is satisfied in what the producer does not check |
| Envelope.ApprovalsOfBuild | src/lib/v4Trust.ts:319-593 | approvals the merge fold returned pass the hook's diff, signature and repository checks, and satisfy its required list exactly when that is part of the merge's |
| EnvelopeMeaning.AcceptsIff | src/lib/v4Trust.ts:165-841 | for every push, whoever built it: accepted exactly when the commit is the merge the payload claims, on its branch, with its diff, under the manifest at base; the operator's signature verifies under a committed admin or operator key; every approval verifies under a server key for this base, head, diff and repository; each required name has an approval; each required check's last attestation exits 0; counter-signatures are by distinct admins and verify; and each rule matching a changed path has its minimum of them, and reviews unless it bypasses them |
| EnvelopeMeaning.GuardStandsAlone | src/lib/v4Trust.ts:744-841 | whatever the other phases do, the path guard passes exactly when each rule matching a changed path has its minimum of different signers whose counter-signatures verify and who hold its capability, and reviews unless it bypasses them |
| EnvelopeMeaning.BuildMeans | src/commands/merge.ts:731-1086 | the payload has schema 5, the given target, branch, checks and signer, the manifest snapshot, the attesting entries, and, if a rule applies, the note's first genuine admin signature of each signer in order; it is signed over all that; it is refused exactly when there are no such entries or too few such signatures |
| Envelope.HookAcceptsExactly | src/lib/v4Trust.ts:165-187 | the hook's twelve phases accept an envelope built by the merge exactly under the listed conditions on commit, branch, diff, operator key, rule and path rules |
| Glob.VerifierCompilesTokens | src/lib/v4Trust.ts:971-981 | the hook's staged rewriting of a NUL-free pattern is the expression of its left-to-right tokens, `**` paired leftmost |
| Glob.VerifierMatchesGlob | src/lib/v4Trust.ts:971-990 | a path matches exactly when it matches the tokens: `**` any run without line terminators, `*` any run without slash, `?` one character but a slash |
| Glob.ProducerEqualsVerifier | src/commands/adminSign.ts:136-149 | the two compilations give the same expression exactly when no sentinel collision is possible, and otherwise a NUL is left in it |
| Glob.ProducerRegexIsValid | src/commands/adminSign.ts:136-149 | the producer's expression always parses |
| Glob.SidesAgreeUnlessCollision | src/lib/trustAnchorCollection.ts:288-305 | the two sides match the same NUL-free paths exactly when the pattern does not collide |
| Glob.CollidingRuleNeverFires | src/lib/trustAnchorCollection.ts:288-305 | a colliding pattern matches no path for the producer |
| Glob.CollisionExample | src/lib/trustAnchorCollection.ts:288-305 | `*DOUBLESTAR*` gates the path `DOUBLESTAR` for the hook and not for the producer |
| Glob.LiteralPattern | src/commands/adminSign.ts:136-156 | on both sides a pattern without wildcards matches exactly itself |
| Glob.PrefixPattern | src/commands/adminSign.ts:136-156 | on both sides a literal prefix followed by `**` matches exactly the paths with that prefix and no line terminator after it |
| Glob.DepthPreserved | src/commands/adminSign.ts:136-156 | on both sides a pattern without `**` only matches paths with as many slashes |
| SourceSpec.SourceSpecRoundTrip | src/commands/reviewers.ts:913-945 | a spec parses to (source, ref) exactly when it is that non-empty source, `@` and that valid ref |
| SourceSpec.RawUrls | src/commands/reviewers.ts:947-957 | a file is asked for under the repository on the raw host, or under the `https` source with or without a slash at its end; other sources are refused |
| SourceSpec.RemovesDotSegments | src/commands/reviewers.ts:913-930 | on every path section 5.2.4 of RFC 3986 is a walk over the segments: `.` stays, `..` goes up, either leaves a slash at the end |
| SourceSpec.RemovesOnlyDots | src/commands/reviewers.ts:913-930 | section 5.2.4 of RFC 3986 removes from segments without `..` and empty ones exactly the `.` segments |
| SourceSpec.PersonaUrlStaysInPlace | src/commands/reviewers.ts:947-957 | for an owner/repo source and any accepted ref the normalized URL path keeps the repository prefix and the persona file |
| PersonaFetch.Workspace.CheckManifest | src/commands/reviewers.ts:503-628 | the five cells allow a fetch exactly when a manifest signed by a listed key verifies and has an entry for the reviewer, or there is no such manifest and no allowlist, and yield that entry's pins; a refusal says what is wrong with the source |
| PersonaFetch.Workspace.Fetch | src/commands/reviewers.ts:448-709 | success exactly under the policy and matching hashes; a refusal says what failed, makes requests only and writes nothing; success writes the fetched prompt, then a lock with its hashes |
| PersonaFetch.FetchesIff | src/commands/reviewers.ts:448-680 | a fetch succeeds exactly when its files are there and: verification is off and the flags hold; or the manifest signed by a listed key verifies, covers the name, and flags, else listed hashes, hold; or there is none such, no allowlist, and the flags hold |
| PersonaFetch.LockHolds | src/commands/reviewers.ts:655-700 | the lock has the source and ref of the spec, and the hash of the fetched prompt, of the tools and of the servers, each in its place |
| PersonaFetch.AllowlistMeansVerified | src/commands/reviewers.ts:519-628 | with an allowlist and verification on, every success has a manifest verifying under an allowlisted key; each locked hash is the flag's or else the manifest's if it lists the name, and otherwise the name is inherited and nothing was pinned |
| PersonaFetch.UnlistedFetchedIffInherited | src/commands/reviewers.ts:586-595 | with everything else in order, a name that the verified manifest does not list is fetched exactly when it is inherited |
| PersonaFetch.InheritedNamesAreNotCovered | src/commands/reviewers.ts:586-595 | for every inherited name there is a fetch that succeeds under an allowlist although the manifest does not list it |
| PersonaFetch.PrototypeEntryLetsNamesThrough | src/lib/reviewerManifest.ts:88-105 | an entry `__proto__` alone decides whether `prompt_sha256` is fetched under an empty signed manifest |
| Migrate.ReadExistingAdminFingerprints | src/commands/migrateServerAttested.ts:710-743 | the loop computes the scan |
| Migrate.ScanOfRendered | src/commands/migrateServerAttested.ts:710-743 | on a preamble and rendered entries the scan finds exactly the fingerprints whose list contains `admin` |
| Migrate.AppendKeepsAdmins | src/commands/migrateServerAttested.ts:505-548 | appending the server's entry keeps any existing text as a prefix and changes no scanned admin |
| Migrate.AppendedLines | src/commands/migrateServerAttested.ts:505-548 | nothing is appended when an entry has the fingerprint or the name; else the text's lines are followed by the server's entry with exactly that capability |
| Migrate.PickAdminsFromFingerprints | src/commands/migrateServerAttested.ts:623-660 | a choice is accepted exactly when some fingerprint is given and all are detected, and is then those |
| Migrate.PickAdminsFromIndexes | src/commands/migrateServerAttested.ts:663-674 | the choice is the keys at the positions in range |
| Migrate.ChooseForFreshManifest | src/commands/migrateServerAttested.ts:145-260 | a fresh manifest gets the non-empty set of detected admins selected and the threshold 2 for two or more of them, else 1, or is refused, exactly when the selection names no admin or an unknown one |
| Migrate.FreshManifestSatisfiable | src/lib/migrateServerAttested.ts:194-237 | scanning the manifest that was written finds the chosen admins, and so the same threshold, which they can meet |
| Migrate.FreshManifestLists | src/lib/migrateServerAttested.ts:194-237 | every detected key has its lines in the text, with admin and operator if chosen and else operator, and every server its lines with server only |
| Migrate.ScanOfWritten | src/commands/migrateServerAttested.ts:710-743 | for entries with distinct fingerprints, each written in either order, the scan finds the true admins exactly when each entry is credited with `admin` just when it has it: its own list unless written first, replaced by the next one's when that is written first |
| Migrate.SwappedEntryIsMisread | src/commands/migrateServerAttested.ts:722-738 | an admin entry written the other way round after one that is no admin makes that one the only admin found |
| Migrate.DisambiguateNames | src/lib/migrateServerAttested.ts:153-161 | a repeated name gets the count of its occurrence as suffix |
| Migrate.DisambiguationIff | src/lib/migrateServerAttested.ts:135-161 | the names come out distinct exactly when no name that occurred before, with its count as suffix, is one of the names |
| Rotate.Repository.RunAdminAddKey | src/commands/adminRotate.ts:180-245 | adds the entry and its key file, or refuses, for a reason that holds, and changes nothing |
| Rotate.Repository.RunAdminRevoke | src/commands/adminRotate.ts:294-338 | removes the entry, or refuses and changes nothing |
| Rotate.AddMeans | src/commands/adminRotate.ts:187-243 | an add is accepted exactly with some capability and an unused name and fingerprint; the entries are then the old ones and one with just what was given |
| Rotate.RevokeMeans | src/commands/adminRotate.ts:294-338 | an accepted revoke cuts out the key's entry, keeps the others in order and leaves the files alone; it is accepted exactly when another entry is an admin |
| Rotate.AddKeepsIff | src/commands/adminRotate.ts:187-243 | an accepted add keeps names and fingerprints distinct, every trusted key committed and an admin, exactly when no file of the key's name stands in for another key |
| Rotate.RunKeeps | src/commands/adminRotate.ts:187-338 | over every sequence of commands whose added keys have their file names free, names and fingerprints stay distinct, every trusted key is in a file and there is an admin |
| Rotate.AddThenRevoke | src/commands/adminRotate.ts:187-338 | a key just added can be revoked, which restores the entries |
| Rotate.RevokeRefusedIff | src/commands/adminRotate.ts:306-327 | revoking a trusted key is refused exactly when it is the only admin |

## Left out

- Sse.AgreesWithStandard: texts with a lone CR outside the frames (in a comment, another field or an unfinished event) are not characterized; the handler looks for LF and CRLF only.
- Sse.PrintParse: the payload stops at the text given to `JSON.parse`; decoding it into an event, and the notice printed for one kind of comment, are not modelled.
- Delivery.Reconnector.NextEvent: the settings only meant for driving it by hand (a cap on reconnects, an injected stream) are not modelled, and the exit that the SIGINT handler itself performs is left to the script.
- Admission.UrlsAccepted: letter case is folded for ASCII only, so a non-ASCII letter whose lower case is ASCII is not modelled.
- Admission.AdmitIff: git, the manifest and the configuration of the local clone are a snapshot for the event; that two reads of the tip could differ is not modelled.
- ListenerSignal.SigintCleanIff: SIGINT is taken where the loop awaits; a signal during a synchronous child process is handled at the next such point, and what the terminal sends to that child is not modelled.
- Listener.Loop.HandleEvent: exceptions from the reviewer or the triplet log, heartbeat ticks and desktop notifications are not modelled.
- ListenerRuns.DailyReviewSpendBounded: without a cap on each claiming decision, as when there is no rules file, the code sets no bound.
- Merge.Repo.RunMerge: the contents of a signed approval are in Approvals and Envelope; here building the trailers succeeds or fails as a whole, and checks do not move refs.
- MergeRace.HistoryIsStamped: refs are moved only by the modelled steps, no reset fails, and no process dies while it holds the lock.
- Approvals.MergeFoldIff: a repository id is absent, malformed or well formed; the slug pattern is not spelled out.
- Approvals.LoadServerApprovals: strings are ordered by code point, and the sort of approvals whose reviewer is no string is one of those JavaScript allows.
- Glob.VerifierMatchesGlob: characters are Unicode scalar values, while the source's expressions have no `u` flag and match UTF-16 units, so `?` against a character outside the basic plane is not modelled.
- Envelope.HookAcceptsExactly: the trailer's base64 framing and the quarantine notes on checks are not modelled; admin signatures made before checks exist verify only if the bytes agree, which is left to the signatures.
- SourceSpec.PersonaUrlStaysInPlace: full `https://` sources are passed on as they are and nothing is claimed about their paths.
- PersonaFetch.Workspace.Fetch: normalizing the hash flags and the three hash constructions are inputs.
- Migrate.AppendKeepsAdmins: what the YAML parser makes of the text is an input; white space is ASCII.
- Migrate.ChooseForFreshManifest: the dry run, which writes nothing, and the wording of the prompt are not modelled.
- Rotate.RunKeeps: the order in which entries are written, and the commit made after each command, are not modelled.
- `signPending` and `listPending` of src/commands/adminSign.ts, bootstrap envelopes, PR-mode verification, configuration rewriting, and the remaining commands (option parsing, printing, plumbing) are not modelled.
