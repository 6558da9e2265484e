/** The trusted-keys manifest under `stamp admin add-key` and `stamp admin revoke` (src/commands/adminRotate.ts). */
module Rotate {
  import opened Capabilities
  import opened Results

  datatype Entry = Entry(name: string, fp: string, caps: set<Capability>)

  datatype Refusal = NoCapability | NameTaken | AlreadyTrusted | NotTrusted | LastAdmin | WouldBeEmpty

  /**
   * The manifest and the key files: for the fingerprint in a file's name, the fingerprint of the
   * key in the file. The two need not agree for a file put there by hand.
   */
  datatype State = State(entries: seq<Entry>, files: map<string, string>)

  datatype Command = AddKey(name: string, fp: string, caps: set<Capability>) | Revoke(fp: string)

  function Without(es: seq<Entry>, fp: string): seq<Entry> {
    if es == [] then []
    else (if es[0].fp == fp then [] else [es[0]]) + Without(es[1..], fp)
  }

  predicate HasAdmin(es: seq<Entry>) {
    exists i :: 0 <= i < |es| && Admin in es[i].caps
  }

  predicate Named(es: seq<Entry>, name: string) { exists i :: 0 <= i < |es| && es[i].name == name }

  predicate Trusted(es: seq<Entry>, fp: string) { exists i :: 0 <= i < |es| && es[i].fp == fp }

  /** `entries.find((e) => e.fingerprint === fp)`. */
  function Find(es: seq<Entry>, fp: string): (r: Option<Entry>)
    ensures r.Some? <==> Trusted(es, fp)
    ensures r.Some? ==> r.value in es && r.value.fp == fp
  {
    if es == [] then None
    else if es[0].fp == fp then Some(es[0])
    else
      var r := Find(es[1..], fp);
      assert forall i :: 0 <= i < |es| - 1 ==> es[1..][i] == es[i + 1];
      r
  }

  /** The key is copied only when no file has its name. */
  function WithFile(files: map<string, string>, fp: string): map<string, string> {
    if fp in files then files else files[fp := fp]
  }

  function Step(s: State, c: Command): Result<State, Refusal> {
    match c
    case AddKey(name, fp, caps) =>
      if caps == {} then Err(NoCapability)
      else if Named(s.entries, name) then Err(NameTaken)
      else if Trusted(s.entries, fp) then Err(AlreadyTrusted)
      else Ok(State(s.entries + [Entry(name, fp, caps)], WithFile(s.files, fp)))
    case Revoke(fp) =>
      match Find(s.entries, fp)
      case None => Err(NotTrusted)
      case Some(target) =>
        var rest := Without(s.entries, fp);
        if Admin in target.caps && !HasAdmin(rest) then Err(LastAdmin)
        else if rest == [] then Err(WouldBeEmpty)
        else Ok(State(rest, s.files))
  }

  /** The commands on the files they rewrite. */
  class Repository {
    var entries: seq<Entry>
    var files: map<string, string>

    function Value(): State
      reads this
    {
      State(entries, files)
    }

    method RunAdminAddKey(name: string, fp: string, caps: set<Capability>) returns (r: Option<Refusal>)
      modifies this
      ensures match Step(old(Value()), AddKey(name, fp, caps))
              case Ok(next) => r == None && Value() == next
              case Err(e) => r.Some? && Value() == old(Value())
      ensures r == Some(NoCapability) <==> caps == {}
      ensures r == Some(NameTaken) ==> Named(old(entries), name)
      ensures r == Some(AlreadyTrusted) ==> Trusted(old(entries), fp)
      ensures r.Some? ==> r.value in {NoCapability, NameTaken, AlreadyTrusted}
    {
      if caps == {} {
        return Some(NoCapability);
      }
      var i := 0;
      while i < |entries|
        invariant i <= |entries| && Value() == old(Value())
        invariant forall j :: 0 <= j < i ==> entries[j].name != name && entries[j].fp != fp
      {
        if entries[i].name == name {
          return Some(NameTaken);
        }
        if entries[i].fp == fp {
          return Some(AlreadyTrusted);
        }
        i := i + 1;
      }
      entries := entries + [Entry(name, fp, caps)];
      if fp !in files {
        files := files[fp := fp];
      }
      return None;
    }

    method RunAdminRevoke(fp: string) returns (r: Option<Refusal>)
      modifies this
      ensures match Step(old(Value()), Revoke(fp))
              case Ok(next) => r == None && Value() == next
              case Err(e) => r == Some(e) && Value() == old(Value())
    {
      var target := Find(entries, fp);
      if target.None? {
        return Some(NotTrusted);
      }
      var updated := Without(entries, fp);
      if Admin in target.value.caps && !HasAdmin(updated) {
        return Some(LastAdmin);
      }
      if updated == [] {
        return Some(WouldBeEmpty);
      }
      entries := updated;
      return None;
    }
  }

  // ----- What every run keeps --------------------------------------------------------------------

  /** No two entries share a name or a fingerprint. */
  predicate Distinct(es: seq<Entry>) {
    forall i, j :: 0 <= i < j < |es| ==> Apart(es[i], es[j])
  }

  /** Some file holds the key: the verifier goes by what is in the files. */
  predicate KeyCommitted(files: map<string, string>, fp: string) {
    exists name :: name in files && files[name] == fp
  }

  ghost predicate Inv(s: State) {
    && Distinct(s.entries)
    && HasAdmin(s.entries)
    && forall i :: 0 <= i < |s.entries| ==> KeyCommitted(s.files, s.entries[i].fp) && s.entries[i].caps != {}
  }

  /** What is left keeps its order: every kept entry is an old one, at its own place or earlier. */
  lemma {:induction false} WithoutIsPart(es: seq<Entry>, fp: string)
    ensures forall e :: e in Without(es, fp) <==> e in es && e.fp != fp
  {
    if es != [] {
      WithoutIsPart(es[1..], fp);
      assert forall e :: e in es <==> e == es[0] || e in es[1..];
    }
  }

  predicate Apart(a: Entry, b: Entry) { a.name != b.name && a.fp != b.fp }

  lemma DistinctCons(e: Entry, es: seq<Entry>)
    ensures Distinct([e] + es) <==> Distinct(es) && forall k :: 0 <= k < |es| ==> Apart(e, es[k])
  {
    var all := [e] + es;
    assert all[0] == e && all[1..] == es;
    if Distinct(all) {
      forall k | 0 <= k < |es| ensures Apart(e, es[k]) {
        assert Apart(all[0], all[k + 1]);
      }
      forall i, j | 0 <= i < j < |es| ensures Apart(es[i], es[j]) {
        assert Apart(all[i + 1], all[j + 1]);
      }
    }
    if Distinct(es) && forall k :: 0 <= k < |es| ==> Apart(e, es[k]) {
      forall i, j | 0 <= i < j < |all| ensures Apart(all[i], all[j]) {
        assert all[j] == es[j - 1];
        if i > 0 {
          assert all[i] == es[i - 1];
        }
      }
    }
  }

  lemma {:induction false} WithoutDistinct(es: seq<Entry>, fp: string)
    requires Distinct(es)
    ensures Distinct(Without(es, fp))
  {
    if es != [] {
      var rest := es[1..];
      assert es == [es[0]] + rest;
      DistinctCons(es[0], rest);
      WithoutDistinct(rest, fp);
      WithoutIsPart(rest, fp);
      var w := Without(rest, fp);
      forall k | 0 <= k < |w| ensures Apart(es[0], w[k]) {
        assert w[k] in rest;
      }
      DistinctCons(es[0], w);
      assert [] + w == w;
    }
  }

  lemma {:induction false} AdminRemains(s: State, fp: string)
    requires Inv(s) && Step(s, Revoke(fp)).Ok?
    ensures HasAdmin(Without(s.entries, fp))
  {
    var rest := Without(s.entries, fp);
    var target := Find(s.entries, fp).value;
    WithoutIsPart(s.entries, fp);
    if Admin !in target.caps {
      var i :| 0 <= i < |s.entries| && Admin in s.entries[i].caps;
      OtherFingerprint(s, target, s.entries[i]);
      assert s.entries[i] in rest;
      var k :| 0 <= k < |rest| && rest[k] == s.entries[i];
    }
  }

  lemma RevokeKeeps(s: State, fp: string)
    requires Inv(s) && Step(s, Revoke(fp)).Ok?
    ensures Inv(Step(s, Revoke(fp)).value)
  {
    var rest := Without(s.entries, fp);
    AdminRemains(s, fp);
    WithoutIsPart(s.entries, fp);
    WithoutDistinct(s.entries, fp);
    forall k | 0 <= k < |rest| ensures KeyCommitted(s.files, rest[k].fp) && rest[k].caps != {} {
      assert rest[k] in s.entries;
    }
    assert Step(s, Revoke(fp)).value == State(rest, s.files);
  }

  lemma OtherFingerprint(s: State, a: Entry, b: Entry)
    requires Inv(s) && a in s.entries && b in s.entries && a.caps != b.caps
    ensures a.fp != b.fp
  {
  }

  lemma SameFingerprint(s: State, a: Entry, b: Entry)
    requires Inv(s) && a in s.entries && b in s.entries && a.fp == b.fp
    ensures a == b
  {
  }

  /** A file of the key's name, if there is one, does not keep the key from being committed. */
  predicate NameFree(files: map<string, string>, fp: string) {
    fp !in files || KeyCommitted(files, fp)
  }

  lemma FilesGrow(files: map<string, string>, fp: string, other: string)
    ensures KeyCommitted(files, other) ==> KeyCommitted(WithFile(files, fp), other)
    ensures KeyCommitted(WithFile(files, fp), fp) <==> NameFree(files, fp)
    ensures NameFree(files, other) ==> NameFree(WithFile(files, fp), other)
  {
    var after := WithFile(files, fp);
    if KeyCommitted(files, other) {
      var name :| name in files && files[name] == other;
      assert after[name] == other;
    }
    if fp !in files {
      assert after[fp] == fp;
    }
  }

  lemma DistinctSnoc(es: seq<Entry>, e: Entry)
    requires Distinct(es) && !Named(es, e.name) && !Trusted(es, e.fp)
    ensures Distinct(es + [e])
  {
    var all := es + [e];
    forall i, j | 0 <= i < j < |all| ensures Apart(all[i], all[j]) {
      assert all[i] == es[i];
    }
  }

  /** Adding a key keeps the manifest sound exactly when no file of its name holds another key only. */
  lemma AddKeepsIff(s: State, name: string, fp: string, caps: set<Capability>)
    requires Inv(s) && Step(s, AddKey(name, fp, caps)).Ok?
    ensures Inv(Step(s, AddKey(name, fp, caps)).value) <==> NameFree(s.files, fp)
  {
    var e := Entry(name, fp, caps);
    var t := Step(s, AddKey(name, fp, caps)).value;
    assert t.entries == s.entries + [e];
    var i :| 0 <= i < |s.entries| && Admin in s.entries[i].caps;
    assert t.entries[i] == s.entries[i];
    DistinctSnoc(s.entries, e);
    FilesGrow(s.files, fp, fp);
    forall k | 0 <= k < |s.entries| ensures KeyCommitted(t.files, t.entries[k].fp) && t.entries[k].caps != {} {
      FilesGrow(s.files, fp, s.entries[k].fp);
      assert t.entries[k] == s.entries[k];
    }
    assert t.entries[|s.entries|] == e;
  }

  /** A refused command changes nothing; the others follow one another. */
  function Run(s: State, commands: seq<Command>): State
    decreases |commands|
  {
    if commands == [] then s
    else Run(match Step(s, commands[0]) case Ok(next) => next case Err(_) => s, commands[1..])
  }

  /** Every key to be added has its file's name free for it. */
  predicate AllFree(files: map<string, string>, commands: seq<Command>) {
    forall i :: 0 <= i < |commands| && commands[i].AddKey? ==> NameFree(files, commands[i].fp)
  }

  lemma AllFreeRest(s: State, commands: seq<Command>)
    requires commands != [] && AllFree(s.files, commands)
    ensures AllFree(s.files, commands[1..])
    ensures commands[0].AddKey? ==> AllFree(WithFile(s.files, commands[0].fp), commands[1..])
  {
    var rest := commands[1..];
    forall i | 0 <= i < |rest| && rest[i].AddKey?
      ensures NameFree(s.files, rest[i].fp)
      ensures commands[0].AddKey? ==> NameFree(WithFile(s.files, commands[0].fp), rest[i].fp)
    {
      assert rest[i] == commands[i + 1];
      if commands[0].AddKey? {
        FilesGrow(s.files, commands[0].fp, rest[i].fp);
      }
    }
  }

  /**
   * Whatever commands are given, as long as no key's file name is taken by another key, names and
   * fingerprints stay distinct, every trusted key is committed, and there is always an admin left to
   * sign the next change.
   */
  lemma {:induction false} RunKeeps(s: State, commands: seq<Command>)
    requires Inv(s) && AllFree(s.files, commands)
    ensures Inv(Run(s, commands))
    decreases |commands|
  {
    if commands != [] {
      AllFreeRest(s, commands);
      if Step(s, commands[0]).Ok? {
        match commands[0] {
          case AddKey(name, fp, caps) => AddKeepsIff(s, name, fp, caps);
          case Revoke(fp) => RevokeKeeps(s, fp);
        }
        RunKeeps(Step(s, commands[0]).value, commands[1..]);
      } else {
        RunKeeps(s, commands[1..]);
      }
    }
  }

  lemma {:induction false} WithoutNew(es: seq<Entry>, e: Entry)
    requires !Trusted(es, e.fp)
    ensures Without(es + [e], e.fp) == es
  {
    if es == [] {
      assert es + [e] == [e] && [e][1..] == [];
    } else {
      assert es[0].fp != e.fp;
      assert forall i :: 0 <= i < |es| - 1 ==> es[1..][i] == es[i + 1];
      assert (es + [e])[0] == es[0] && (es + [e])[1..] == es[1..] + [e];
      WithoutNew(es[1..], e);
    }
  }

  /** A key just added can be revoked, and that restores the manifest. */
  lemma AddThenRevoke(s: State, name: string, fp: string, caps: set<Capability>)
    requires Inv(s) && Step(s, AddKey(name, fp, caps)).Ok?
    ensures Step(Step(s, AddKey(name, fp, caps)).value, Revoke(fp)) == Ok(State(s.entries, WithFile(s.files, fp)))
  {
    var e := Entry(name, fp, caps);
    var after := s.entries + [e];
    WithoutNew(s.entries, e);
    assert after[|s.entries|] == e;
    assert Trusted(after, fp);
  }

  /**
   * An add is accepted exactly with some capability and a name and a fingerprint no entry has; then
   * the entries are the old ones and one with just what was given, and the key has a file of its name.
   */
  lemma AddMeans(s: State, name: string, fp: string, caps: set<Capability>)
    ensures Step(s, AddKey(name, fp, caps)).Ok?
       <==> caps != {} && forall e :: e in s.entries ==> e.name != name && e.fp != fp
    ensures Step(s, AddKey(name, fp, caps)).Ok? ==>
              var t := Step(s, AddKey(name, fp, caps)).value;
              && t.entries == s.entries + [Entry(name, fp, caps)]
              && fp in t.files && t.files.Keys == s.files.Keys + {fp}
              && (forall file :: file in s.files ==> t.files[file] == s.files[file])
              && (fp !in s.files ==> t.files[fp] == fp)
  {
    assert forall i :: 0 <= i < |s.entries| ==> s.entries[i] in s.entries;
  }

  /** Where nothing has the fingerprint, nothing is removed. */
  lemma {:induction false} WithoutAbsent(es: seq<Entry>, fp: string)
    requires !Trusted(es, fp)
    ensures Without(es, fp) == es
  {
    if es != [] {
      assert forall i :: 0 <= i < |es| - 1 ==> es[1..][i] == es[i + 1];
      WithoutAbsent(es[1..], fp);
      assert [es[0]] + es[1..] == es;
    }
  }

  /** With distinct entries the one of the fingerprint is cut out. */
  lemma {:induction false} WithoutCuts(es: seq<Entry>, fp: string, k: nat)
    requires Distinct(es) && k < |es| && es[k].fp == fp
    ensures Without(es, fp) == es[..k] + es[k + 1..]
  {
    var rest := es[1..];
    assert forall i :: 0 <= i < |rest| ==> rest[i] == es[i + 1];
    if k == 0 {
      assert !Trusted(rest, fp) by {
        assert forall i :: 0 <= i < |rest| ==> Apart(es[0], rest[i]);
      }
      WithoutAbsent(rest, fp);
      assert [] + rest == es[..0] + es[1..];
    } else {
      assert Apart(es[0], es[k]);
      WithoutCuts(rest, fp, k - 1);
      assert [es[0]] + (rest[..k - 1] + rest[k..]) == es[..k] + es[k + 1..];
    }
  }

  /** An accepted revoke cuts out the key's entry, keeps the others in order, and leaves the files alone. */
  lemma RevokeMeans(s: State, fp: string, k: nat)
    requires Inv(s) && k < |s.entries| && s.entries[k].fp == fp
    ensures Step(s, Revoke(fp)).Ok? <==> exists i :: 0 <= i < |s.entries| && i != k && Admin in s.entries[i].caps
    ensures Step(s, Revoke(fp)).Ok? ==> Step(s, Revoke(fp)).value == State(s.entries[..k] + s.entries[k + 1..], s.files)
  {
    WithoutCuts(s.entries, fp, k);
    assert Trusted(s.entries, fp);
    RevokeRefusedIff(s, fp);
    forall i | 0 <= i < |s.entries| ensures s.entries[i].fp == fp <==> i == k {
      assert i < k ==> Apart(s.entries[i], s.entries[k]);
      assert k < i ==> Apart(s.entries[k], s.entries[i]);
    }
  }

  predicate OnlyAdmin(es: seq<Entry>, fp: string) {
    forall i :: 0 <= i < |es| && Admin in es[i].caps ==> es[i].fp == fp
  }

  lemma OnlyAdminStays(s: State, fp: string)
    requires Inv(s) && Trusted(s.entries, fp) && OnlyAdmin(s.entries, fp)
    ensures Step(s, Revoke(fp)) == Err(LastAdmin)
  {
    var rest := Without(s.entries, fp);
    WithoutIsPart(s.entries, fp);
    var target := Find(s.entries, fp).value;
    var i :| 0 <= i < |s.entries| && Admin in s.entries[i].caps;
    SameFingerprint(s, target, s.entries[i]);
    forall k | 0 <= k < |rest| ensures Admin !in rest[k].caps {
      assert rest[k] in s.entries;
    }
  }

  lemma OthersCanGo(s: State, fp: string)
    requires Trusted(s.entries, fp) && !OnlyAdmin(s.entries, fp)
    ensures Step(s, Revoke(fp)).Ok?
  {
    var rest := Without(s.entries, fp);
    WithoutIsPart(s.entries, fp);
    var i :| 0 <= i < |s.entries| && Admin in s.entries[i].caps && s.entries[i].fp != fp;
    assert s.entries[i] in rest;
    var k :| 0 <= k < |rest| && rest[k] == s.entries[i];
    assert HasAdmin(rest);
  }

  /** A revoke is refused, for a trusted key, exactly when it is the only admin. */
  lemma RevokeRefusedIff(s: State, fp: string)
    requires Inv(s) && Trusted(s.entries, fp)
    ensures Step(s, Revoke(fp)).Err? <==> OnlyAdmin(s.entries, fp)
  {
    if OnlyAdmin(s.entries, fp) {
      OnlyAdminStays(s, fp);
    } else {
      OthersCanGo(s, fp);
    }
  }
}
