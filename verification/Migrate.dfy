/**
 * `stamp init --migrate-to-server-attested`: the manifest it writes, the line scanner that reads one
 * back, and the signature threshold it picks (src/commands/migrateServerAttested.ts,
 * src/lib/migrateServerAttested.ts).
 */
module Migrate {
  import opened Results
  import opened Strings

  // ----- The line scanner ----------------------------------------------------------------------

  predicate Word(c: char) { Alnum(c) || c == '_' }

  /** `sha256:` and 64 lower-case hex digits. */
  predicate IsFingerprint(s: string) {
    |s| == 71 && s[..7] == "sha256:" && forall i :: 7 <= i < 71 ==> HexDigit(s[i])
  }

  datatype Line = Fingerprint(fp: string) | Capabilities(list: seq<string>) | OtherLine

  /** `.split(",").map(trim, toLowerCase).filter(Boolean)`. */
  function CleanList(parts: seq<string>): seq<string> {
    if parts == [] then []
    else
      var word := Lower(Trim(parts[0]));
      (if word == "" then [] else [word]) + CleanList(parts[1..])
  }

  const FINGERPRINT := "fingerprint:"
  const CAPABILITIES := "capabilities:"

  /** What follows the key and white space, when the line starts with the key. */
  function Value(t: string, key: string): Option<string> {
    if key <= t then Some(TrimLeft(t[|key|..])) else None
  }

  function AsFingerprint(v: string): Line {
    if |v| >= 71 && IsFingerprint(v[..71]) && (|v| == 71 || !Word(v[71])) then Fingerprint(v[..71]) else OtherLine
  }

  function AsList(v: string): Line {
    if v != "" && v[0] == '[' && ']' in v then
      Capabilities(CleanList(Split(v[1..][..IndexOf(v[1..], ']')], ',')))
    else OtherLine
  }

  function ClassifyBody(t: string): Line {
    match Value(t, FINGERPRINT)
    case Some(v) => AsFingerprint(v)
    case None =>
      match Value(t, CAPABILITIES)
      case Some(v) => AsList(v)
      case None => OtherLine
  }

  /** The two patterns of the loop, tried in order; both need leading white space. */
  function Classify(line: string): Line {
    var t := TrimLeft(line);
    if |t| == |line| then OtherLine else ClassifyBody(t)
  }

  /** The loop's variables. */
  datatype Scan = Scan(current: Option<string>, caps: seq<string>, found: set<string>)

  const START := Scan(None, [], {})

  function Flush(s: Scan): set<string> {
    if s.current.Some? && "admin" in s.caps then s.found + {s.current.value} else s.found
  }

  function Step(s: Scan, line: string): Scan {
    match Classify(line)
    case Fingerprint(fp) => Scan(Some(fp), [], Flush(s))
    case Capabilities(list) => s.(caps := list)
    case OtherLine => s
  }

  function Fold(s: Scan, lines: seq<string>): Scan
    decreases |lines|
  {
    if lines == [] then s else Fold(Step(s, lines[0]), lines[1..])
  }

  function AdminsIn(text: string): set<string> {
    Flush(Fold(START, Split(text, '\n')))
  }

  method ReadExistingAdminFingerprints(text: string) returns (found: set<string>)
    ensures found == AdminsIn(text)
  {
    found := {};
    var current: Option<string> := None;
    var caps: seq<string> := [];
    var lines := Split(text, '\n');
    var i := 0;
    assert lines[0..] == lines;
    while i < |lines|
      invariant i <= |lines|
      invariant Fold(Scan(current, caps, found), lines[i..]) == Fold(START, lines)
    {
      assert lines[i..][1..] == lines[i + 1..];
      match Classify(lines[i]) {
        case Fingerprint(fp) =>
          if current.Some? && "admin" in caps {
            found := found + {current.value};
          }
          current := Some(fp);
          caps := [];
        case Capabilities(list) => caps := list;
        case OtherLine =>
      }
      i := i + 1;
    }
    if current.Some? && "admin" in caps {
      found := found + {current.value};
    }
  }

  // ----- Rendered entries ----------------------------------------------------------------------

  /** An entry of the manifest as the command writes it. */
  datatype Entry = Entry(name: string, fp: string, caps: seq<string>, role: Option<string>)

  function CapsLine(caps: seq<string>): string { "    capabilities: [" + Join(caps, ", ") + "]" }

  function FpLine(fp: string): string { "    fingerprint: " + fp }

  function EntryLines(e: Entry): seq<string> {
    ["  " + e.name + ":", FpLine(e.fp), CapsLine(e.caps)]
    + (if e.role.Some? then ["    role_source: " + e.role.value] else [])
  }

  function AllLines(es: seq<Entry>): seq<string> {
    if es == [] then [] else EntryLines(es[0]) + AllLines(es[1..])
  }

  predicate CapWord(s: string) {
    s != "" && forall i :: 0 <= i < |s| ==> 'a' <= s[i] <= 'z'
  }

  predicate NameText(s: string) {
    s != "" && forall i :: 0 <= i < |s| ==> Word(s[i]) || s[i] == '.' || s[i] == '-'
  }

  ghost predicate WellFormed(e: Entry) {
    && NameText(e.name) && IsFingerprint(e.fp)
    && (forall i :: 0 <= i < |e.caps| ==> CapWord(e.caps[i]))
    && (e.role.Some? ==> NameText(e.role.value))
  }

  lemma {:induction false} LowerWord(s: string)
    requires forall i :: 0 <= i < |s| ==> 'a' <= s[i] <= 'z'
    ensures Lower(s) == s
  {
  }

  lemma TrimWord(s: string)
    requires CapWord(s)
    ensures Trim(s) == s && Trim(" " + s) == s
  {
    LeftSpace(s);
    assert TrimLeft(s) == s && TrimRight(s) == s;
  }

  lemma {:induction false} LeftSpace(s: string)
    ensures TrimLeft(" " + s) == TrimLeft(s)
  {
    assert (" " + s)[0] == ' ' && (" " + s)[1..] == s;
  }

  lemma {:induction false} SplitAfterSpace(s: string)
    ensures Split(" " + s, ',') == [" " + Split(s, ',')[0]] + Split(s, ',')[1..]
  {
    var n := IndexOf(s, ',');
    IndexOfIsFirst(s, ',');
    if n == |s| {
      assert s[..n] == s;
      SplitWhole(s, ',');
      SplitWhole(" " + s, ',');
    } else {
      var first, rest := s[..n], s[n + 1..];
      assert s == first + [','] + rest;
      assert " " + s == (" " + first) + [','] + rest;
      SplitAt(first, rest, ',');
      SplitAt(" " + first, rest, ',');
      assert ([first] + Split(rest, ','))[1..] == Split(rest, ',');
    }
  }

  /** White space after a comma does not matter. */
  lemma {:induction false} CleanAfterSpace(s: string)
    ensures CleanList(Split(" " + s, ',')) == CleanList(Split(s, ','))
  {
    var first, rest := Split(s, ',')[0], Split(s, ',')[1..];
    SplitAfterSpace(s);
    LeftSpace(first);
    assert ([" " + first] + rest)[1..] == rest;
  }

  lemma {:induction false} CleanJoined(caps: seq<string>)
    requires forall i :: 0 <= i < |caps| ==> CapWord(caps[i])
    ensures CleanList(Split(Join(caps, ", "), ',')) == caps
  {
    if caps == [] {
      assert Split("", ',') == [""];
      assert CleanList([""]) == [] by {
        assert [""][1..] == [];
      }
    } else {
      var c, rest := caps[0], caps[1..];
      TrimWord(c);
      LowerWord(c);
      if rest == [] {
        SplitWhole(c, ',');
        assert [c][1..] == [];
      } else {
        var more := Join(rest, ", ");
        assert forall i :: 0 <= i < |rest| ==> rest[i] == caps[i + 1];
        CleanJoined(rest);
        assert c + ", " + more == c + [','] + (" " + more);
        SplitAt(c, " " + more, ',');
        CleanAfterSpace(more);
        assert ([c] + Split(" " + more, ','))[1..] == Split(" " + more, ',');
      }
      assert caps == [c] + rest;
    }
  }

  lemma {:induction false} IndentedText(pad: string, body: string)
    requires forall i :: 0 <= i < |pad| ==> pad[i] == ' '
    requires body != "" && !Space(body[0])
    ensures TrimLeft(pad + body) == body
  {
    if pad == "" {
      assert pad + body == body;
    } else {
      assert (pad + body)[0] == ' ' && (pad + body)[1..] == pad[1..] + body;
      IndentedText(pad[1..], body);
    }
  }

  lemma {:induction false} ValueHit(key: string, v: string)
    ensures Value(key + (" " + v), key) == Some(TrimLeft(v))
  {
    assert (key + (" " + v))[..|key|] == key && (key + (" " + v))[|key|..] == " " + v;
    LeftSpace(v);
  }

  lemma ValueMiss(t: string, key: string)
    requires t != "" && key != "" && t[0] != key[0]
    ensures Value(t, key) == None
  {
  }

  /** A name and a colon can be a key only with nothing after it. */
  lemma ValueOfName(name: string, key: string)
    requires ':' !in name && key != "" && key[|key| - 1] == ':'
    ensures Value(name + ":", key) == None || Value(name + ":", key) == Some("")
  {
    var t := name + ":";
    if key <= t {
      assert t[|key| - 1] == ':';
      assert |key| == |t| && t[|key|..] == "";
    }
  }

  lemma NameLineIsOther(name: string)
    requires NameText(name)
    ensures Classify("  " + name + ":") == OtherLine
  {
    var body := name + ":";
    assert "  " + name + ":" == "  " + body;
    assert body[0] == name[0];
    IndentedText("  ", body);
    ValueOfName(name, FINGERPRINT);
    ValueOfName(name, CAPABILITIES);
    assert ClassifyBody(body) == OtherLine;
    assert TrimLeft("  " + name + ":") == body;
  }

  lemma RoleLineIsOther(role: string)
    ensures Classify("    role_source: " + role) == OtherLine
  {
    var body := "role_source: " + role;
    assert "    role_source: " + role == "    " + body;
    IndentedText("    ", body);
    ValueMiss(body, FINGERPRINT);
    ValueMiss(body, CAPABILITIES);
  }

  lemma FpLineIsRead(fp: string)
    requires IsFingerprint(fp)
    ensures Classify(FpLine(fp)) == Fingerprint(fp)
  {
    var body := FINGERPRINT + (" " + fp);
    assert FpLine(fp) == "    " + body;
    assert fp[0] == fp[..7][0] == 's';
    IndentedText("    ", body);
    ValueHit(FINGERPRINT, fp);
    assert fp[..71] == fp;
  }

  lemma {:induction false} ListIsRead(list: string)
    requires ']' !in list
    ensures AsList("[" + (list + "]")) == Capabilities(CleanList(Split(list, ',')))
  {
    var rest := list + "]";
    var v := "[" + rest;
    assert v[0] == '[' && v[1..] == rest;
    assert rest[|list|] == ']' && rest[..|list|] == list;
    assert v[|list| + 1] == ']';
    IndexAfter(list, "]", ']');
  }

  lemma CapsLineIsRead(caps: seq<string>)
    requires forall i :: 0 <= i < |caps| ==> CapWord(caps[i])
    ensures Classify(CapsLine(caps)) == Capabilities(caps)
  {
    var list := Join(caps, ", ");
    var v := "[" + (list + "]");
    var body := CAPABILITIES + (" " + v);
    assert CapsLine(caps) == "    " + body;
    IndentedText("    ", body);
    ValueMiss(body, FINGERPRINT);
    ValueHit(CAPABILITIES, v);
    assert TrimLeft(v) == v;
    NoBracket(caps);
    ListIsRead(list);
    CleanJoined(caps);
  }

  lemma {:induction false} NoBracket(caps: seq<string>)
    requires forall i :: 0 <= i < |caps| ==> CapWord(caps[i])
    ensures ']' !in Join(caps, ", ") && '\n' !in Join(caps, ", ")
  {
    if |caps| > 1 {
      assert forall i :: 0 <= i < |caps| - 1 ==> caps[1..][i] == caps[i + 1];
      NoBracket(caps[1..]);
      assert ']' !in ", " && '\n' !in ", ";
    }
  }

  // ----- Reading back what was written -----------------------------------------------------------

  function Admins(es: seq<Entry>): set<string> {
    set i | 0 <= i < |es| && "admin" in es[i].caps :: es[i].fp
  }

  lemma {:induction false} FoldConcat(s: Scan, a: seq<string>, b: seq<string>)
    ensures Fold(s, a + b) == Fold(Fold(s, a), b)
    decreases |a|
  {
    if a == [] {
      assert a + b == b;
    } else {
      assert (a + b)[1..] == a[1..] + b;
      FoldConcat(Step(s, a[0]), a[1..], b);
    }
  }

  lemma {:induction false} FoldEntry(s: Scan, e: Entry)
    requires WellFormed(e)
    ensures Fold(s, EntryLines(e)) == Scan(Some(e.fp), e.caps, Flush(s))
  {
    NameLineIsOther(e.name);
    FpLineIsRead(e.fp);
    CapsLineIsRead(e.caps);
    var name, fp, caps := "  " + e.name + ":", FpLine(e.fp), CapsLine(e.caps);
    var tail := if e.role.Some? then ["    role_source: " + e.role.value] else [];
    assert EntryLines(e) == [name] + ([fp] + ([caps] + tail));
    FoldCons(s, name, [fp] + ([caps] + tail));
    FoldCons(s, fp, [caps] + tail);
    FoldCons(Scan(Some(e.fp), [], Flush(s)), caps, tail);
    if e.role.Some? {
      RoleLineIsOther(e.role.value);
      assert tail == [tail[0]] + [];
      FoldCons(Scan(Some(e.fp), e.caps, Flush(s)), tail[0], []);
    }
  }

  lemma {:induction false} FoldCons(s: Scan, line: string, rest: seq<string>)
    ensures Fold(s, [line] + rest) == Fold(Step(s, line), rest)
  {
    assert ([line] + rest)[0] == line && ([line] + rest)[1..] == rest;
  }

  lemma {:induction false} FoldEntries(s: Scan, es: seq<Entry>)
    requires forall i :: 0 <= i < |es| ==> WellFormed(es[i])
    ensures Flush(Fold(s, AllLines(es))) == Flush(s) + Admins(es)
    decreases |es|
  {
    if es != [] {
      var s1 := Scan(Some(es[0].fp), es[0].caps, Flush(s));
      FoldEntry(s, es[0]);
      FoldConcat(s, EntryLines(es[0]), AllLines(es[1..]));
      FoldEntries(s1, es[1..]);
      AdminsCons(es);
    }
  }

  lemma AdminsCons(es: seq<Entry>)
    requires es != []
    ensures Admins(es) == (if "admin" in es[0].caps then {es[0].fp} else {}) + Admins(es[1..])
  {
    var rest := es[1..];
    forall fp ensures fp in Admins(es) <==> ("admin" in es[0].caps && fp == es[0].fp) || fp in Admins(rest) {
      if fp in Admins(es) {
        var i :| 0 <= i < |es| && "admin" in es[i].caps && es[i].fp == fp;
        if i > 0 {
          assert rest[i - 1] == es[i];
        }
      }
      if fp in Admins(rest) {
        var i :| 0 <= i < |rest| && "admin" in rest[i].caps && rest[i].fp == fp;
        assert es[i + 1] == rest[i];
      }
    }
  }

  lemma {:induction false} OthersDoNothing(s: Scan, lines: seq<string>)
    requires forall i :: 0 <= i < |lines| ==> Classify(lines[i]) == OtherLine
    ensures Fold(s, lines) == s
    decreases |lines|
  {
    if lines != [] {
      assert forall i :: 0 <= i < |lines| - 1 ==> lines[1..][i] == lines[i + 1];
      OthersDoNothing(s, lines[1..]);
    }
  }

  /** A text: some preamble, the entries, a final newline. */
  function Render(preamble: seq<string>, es: seq<Entry>): string {
    Join(preamble + AllLines(es), "\n") + "\n"
  }

  predicate Preamble(lines: seq<string>) {
    lines != [] && forall i :: 0 <= i < |lines| ==> '\n' !in lines[i] && Classify(lines[i]) == OtherLine
  }

  lemma {:induction false} EntryLinesAreLines(es: seq<Entry>)
    requires forall i :: 0 <= i < |es| ==> WellFormed(es[i])
    ensures forall k :: 0 <= k < |AllLines(es)| ==> '\n' !in AllLines(es)[k]
  {
    if es != [] {
      EntryLinesAreLines(es[1..]);
      var e := es[0];
      NoBracket(e.caps);
      assert '\n' !in e.name && '\n' !in e.fp && (e.role.Some? ==> '\n' !in e.role.value);
      forall k | 0 <= k < |EntryLines(e)| ensures '\n' !in EntryLines(e)[k] {
        assert '\n' !in "    fingerprint: " && '\n' !in "    capabilities: [" && '\n' !in "]";
        assert '\n' !in "    role_source: " && '\n' !in "  " && '\n' !in ":";
      }
    }
  }

  lemma {:induction false} JoinWithEnd(lines: seq<string>)
    requires lines != []
    ensures Join(lines, "\n") + "\n" == Join(lines + [""], "\n")
  {
    if |lines| == 1 {
      assert lines + [""] == [lines[0], ""];
      assert [lines[0], ""][1..] == [""];
      assert Join([lines[0], ""], "\n") == lines[0] + "\n" + "";
    } else {
      JoinWithEnd(lines[1..]);
      assert (lines + [""])[0] == lines[0] && (lines + [""])[1..] == lines[1..] + [""];
      Assoc(lines[0] + "\n", Join(lines[1..], "\n"), "\n");
    }
  }

  /** Scanning a preamble and then lines is folding the lines. */
  lemma {:induction false} ScanOfLines(preamble: seq<string>, lines: seq<string>)
    requires Preamble(preamble) && forall k :: 0 <= k < |lines| ==> '\n' !in lines[k]
    ensures AdminsIn(Join(preamble + lines, "\n") + "\n") == Flush(Fold(START, lines))
  {
    var all := preamble + lines;
    JoinWithEnd(all);
    SplitJoin(all + [""], '\n');
    assert all + [""] == preamble + (lines + [""]);
    FoldConcat(START, preamble, lines + [""]);
    OthersDoNothing(START, preamble);
    FoldConcat(START, lines, [""]);
    OthersDoNothing(Fold(START, lines), [""]);
  }

  /** Scanning rendered entries finds exactly the fingerprints whose list contains `admin`. */
  lemma ScanOfRendered(preamble: seq<string>, es: seq<Entry>)
    requires Preamble(preamble) && forall i :: 0 <= i < |es| ==> WellFormed(es[i])
    ensures AdminsIn(Render(preamble, es)) == Admins(es)
  {
    EntryLinesAreLines(es);
    ScanOfLines(preamble, AllLines(es));
    FoldEntries(START, es);
  }

  /** A parsed entry, as far as the append looks at it. */
  datatype Parsed = Parsed(name: string, fp: string)

  function Block(name: string, fp: string): string {
    Join(EntryLines(Entry(name, fp, ["server"], Some("server"))) + [""], "\n")
  }

  /**
   * `appendServerEntryToManifest`: the text is left alone when it parses and already binds the
   * fingerprint or the name. `parsed` is `None` when the YAML parser rejects the text.
   */
  function AppendServerEntry(existing: string, parsed: Option<seq<Parsed>>, name: string, fp: string): string {
    if parsed.Some? && exists i :: 0 <= i < |parsed.value| && (parsed.value[i].fp == fp || parsed.value[i].name == name)
    then existing
    else existing + (if existing != "" && existing[|existing| - 1] == '\n' then "" else "\n") + Block(name, fp)
  }

  lemma BlockLines(name: string, fp: string)
    requires NameText(name) && IsFingerprint(fp)
    ensures Split(Block(name, fp), '\n') == EntryLines(Entry(name, fp, ["server"], Some("server"))) + [""]
  {
    var e := Entry(name, fp, ["server"], Some("server"));
    var lines := EntryLines(e);
    assert WellFormed(e);
    assert AllLines([e]) == lines by {
      assert [e][1..] == [] && lines + [] == lines;
    }
    EntryLinesAreLines([e]);
    SplitJoin(lines + [""], '\n');
  }

  lemma {:induction false} ServerBlockAddsNoAdmin(s: Scan, name: string, fp: string)
    requires NameText(name) && IsFingerprint(fp)
    ensures Flush(Fold(s, Split(Block(name, fp), '\n'))) == Flush(s)
  {
    var e := Entry(name, fp, ["server"], Some("server"));
    assert WellFormed(e);
    BlockLines(name, fp);
    FoldConcat(s, EntryLines(e), [""]);
    FoldEntry(s, e);
    OthersDoNothing(Fold(s, EntryLines(e)), [""]);
    assert "admin" !in e.caps;
  }

  lemma ScanThenBlock(t: string, name: string, fp: string)
    requires NameText(name) && IsFingerprint(fp)
    ensures AdminsIn(t + "\n" + Block(name, fp)) == AdminsIn(t)
  {
    SplitConcat(t, Block(name, fp), '\n');
    FoldConcat(START, Split(t, '\n'), Split(Block(name, fp), '\n'));
    ServerBlockAddsNoAdmin(Fold(START, Split(t, '\n')), name, fp);
  }

  lemma FinalNewline(t: string)
    ensures AdminsIn(t + "\n") == AdminsIn(t)
  {
    assert t + "\n" == t + "\n" + "";
    SplitConcat(t, "", '\n');
    SplitWhole("", '\n');
    FoldConcat(START, Split(t, '\n'), [""]);
    OthersDoNothing(Fold(START, Split(t, '\n')), [""]);
  }

  /** Appending the server's entry to any text keeps that text as it is and changes no admin in it. */
  lemma AppendKeepsAdmins(existing: string, parsed: Option<seq<Parsed>>, name: string, fp: string)
    requires NameText(name) && IsFingerprint(fp)
    ensures existing <= AppendServerEntry(existing, parsed, name, fp)
    ensures AdminsIn(AppendServerEntry(existing, parsed, name, fp)) == AdminsIn(existing)
  {
    var block := Block(name, fp);
    if existing == "" || existing[|existing| - 1] != '\n' {
      assert existing + "\n" + block == existing + ("\n" + block);
      ScanThenBlock(existing, name, fp);
    } else {
      var t := existing[..|existing| - 1];
      assert existing == t + "\n";
      assert existing + "" + block == t + "\n" + block;
      ScanThenBlock(t, name, fp);
      FinalNewline(t);
    }
  }

  /** The text without one final line feed. */
  function Unended(text: string): string {
    if text != "" && text[|text| - 1] == '\n' then text[..|text| - 1] else text
  }

  /**
   * What is appended: nothing if the text parses and an entry has the fingerprint or the name, else,
   * after the text's own lines, the server's entry with exactly that capability.
   */
  lemma AppendedLines(existing: string, parsed: Option<seq<Parsed>>, name: string, fp: string)
    requires NameText(name) && IsFingerprint(fp)
    ensures var bound := parsed.Some? && exists p :: p in parsed.value && (p.fp == fp || p.name == name);
            var text := AppendServerEntry(existing, parsed, name, fp);
            && (bound ==> text == existing)
            && (!bound ==>
                  Split(text, '\n')
                  == Split(Unended(existing), '\n')
                     + ["  " + name + ":", "    fingerprint: " + fp, "    capabilities: [server]", "    role_source: server", ""])
  {
    if parsed.Some? {
      assert forall i :: 0 <= i < |parsed.value| ==> parsed.value[i] in parsed.value;
    }
    SplitConcat(Unended(existing), Block(name, fp), '\n');
    BlockLines(name, fp);
    ServerLines(name, fp);
    AppendedText(existing, Block(name, fp));
  }

  lemma AppendedText(existing: string, block: string)
    ensures existing + (if existing != "" && existing[|existing| - 1] == '\n' then "" else "\n") + block
         == Unended(existing) + "\n" + block
  {
    if existing != "" && existing[|existing| - 1] == '\n' {
      assert existing == Unended(existing) + "\n";
      assert existing + "" == existing;
    }
  }

  lemma ServerLines(name: string, fp: string)
    ensures EntryLines(Entry(name, fp, ["server"], Some("server"))) + [""]
         == ["  " + name + ":", "    fingerprint: " + fp, "    capabilities: [server]", "    role_source: server", ""]
  {
    ServerKeyLinesAre(Key(name, fp));
  }

  // ----- Choosing the admins ---------------------------------------------------------------------

  datatype Key = Key(name: string, fp: string)

  function Fingerprints(detected: seq<Key>): set<string> {
    set i | 0 <= i < |detected| :: detected[i].fp
  }

  /** The tokens of `--admin-keys` that count, in the form they are looked up. */
  function Wanted(tokens: seq<string>): set<string> {
    set i | 0 <= i < |tokens| && Lower(Trim(tokens[i])) != "" :: Lower(Trim(tokens[i]))
  }

  datatype Pick = Unknown | NothingPicked

  /** A fingerprint is looked up in lower case, which is how detected fingerprints are written. */
  ghost predicate LowerCase(detected: seq<Key>) {
    forall i :: 0 <= i < |detected| ==> Lower(detected[i].fp) == detected[i].fp
  }

  /** `pickAdminsFromFingerprints`: every token must name a detected key, and one must be given. */
  method PickAdminsFromFingerprints(detected: seq<Key>, tokens: seq<string>) returns (r: Result<set<string>, Pick>)
    requires LowerCase(detected)
    ensures r.Ok? <==> Wanted(tokens) <= Fingerprints(detected) && Wanted(tokens) != {}
    ensures r.Ok? ==> r.value == Wanted(tokens)
  {
    var out, unknown := {}, [];
    ghost var missing := {};
    var i := 0;
    while i < |tokens|
      invariant i <= |tokens|
      invariant out <= Fingerprints(detected) && missing !! Fingerprints(detected)
      invariant Wanted(tokens[..i]) == out + missing
      invariant unknown == [] <==> missing == {}
    {
      var fp := Lower(Trim(tokens[i]));
      WantedSnoc(tokens, i);
      i := i + 1;
      if fp == "" {
        continue;
      }
      if fp in Fingerprints(detected) {
        out := out + {fp};
      } else {
        unknown := unknown + [fp];
        missing := missing + {fp};
      }
    }
    assert tokens[..i] == tokens;
    if unknown != [] {
      ghost var fp :| fp in missing;
      assert fp in Wanted(tokens) && fp !in Fingerprints(detected);
      return Err(Unknown);
    }
    if out == {} {
      return Err(NothingPicked);
    }
    return Ok(out);
  }

  lemma WantedSnoc(tokens: seq<string>, i: nat)
    requires i < |tokens|
    ensures var fp := Lower(Trim(tokens[i]));
            Wanted(tokens[..i + 1]) == Wanted(tokens[..i]) + (if fp == "" then {} else {fp})
  {
    var a, b := tokens[..i], tokens[..i + 1];
    assert forall j :: 0 <= j < i ==> a[j] == b[j];
    assert b[i] == tokens[i];
  }

  /** The keys at the given 1-based positions; numbers out of range do not count. */
  function AtIndexes(detected: seq<Key>, indexes: seq<int>): set<string> {
    set i | 0 <= i < |indexes| && 1 <= indexes[i] <= |detected| :: detected[indexes[i] - 1].fp
  }

  lemma AtIndexesSnoc(detected: seq<Key>, indexes: seq<int>, i: nat)
    requires i < |indexes|
    ensures AtIndexes(detected, indexes[..i + 1])
         == AtIndexes(detected, indexes[..i])
            + (if 1 <= indexes[i] <= |detected| then {detected[indexes[i] - 1].fp} else {})
  {
    var a, b := indexes[..i], indexes[..i + 1];
    assert forall j :: 0 <= j < i ==> a[j] == b[j];
    assert b[i] == indexes[i];
  }

  /** `pickAdminsFromIndexes`. */
  method PickAdminsFromIndexes(detected: seq<Key>, indexes: seq<int>) returns (out: set<string>)
    ensures out == AtIndexes(detected, indexes) && out <= Fingerprints(detected)
  {
    out := {};
    var i := 0;
    while i < |indexes|
      invariant i <= |indexes|
      invariant out == AtIndexes(detected, indexes[..i])
    {
      AtIndexesSnoc(detected, indexes, i);
      var k := indexes[i];
      i := i + 1;
      if k < 1 || k > |detected| {
        continue;
      }
      out := out + {detected[k - 1].fp};
    }
    assert indexes[..i] == indexes;
  }

  // ----- The threshold ---------------------------------------------------------------------------

  /** `adminCount === 1 ? 1 : 2`. */
  function MinimumSignatures(admins: set<string>): nat {
    if |admins| == 1 then 1 else 2
  }

  function EntryFor(key: Key, admins: set<string>): Entry {
    Entry(key.name, key.fp, if key.fp in admins then ["admin", "operator"] else ["operator"], None)
  }

  function KeyEntries(detected: seq<Key>, admins: set<string>): seq<Entry> {
    seq(|detected|, i requires 0 <= i < |detected| => EntryFor(detected[i], admins))
  }

  function ServerEntries(servers: seq<Key>): seq<Entry> {
    seq(|servers|, i requires 0 <= i < |servers| => Entry(servers[i].name, servers[i].fp, ["server"], Some("server")))
  }

  /** The fresh manifest: any order of these entries under the fixed preamble. */
  ghost predicate FreshManifest(text: string, preamble: seq<string>, detected: seq<Key>, admins: set<string>, servers: seq<Key>) {
    exists es :: Preamble(preamble) && text == Render(preamble, es)
                 && multiset(es) == multiset(KeyEntries(detected, admins) + ServerEntries(servers))
  }

  predicate WellFormedKeys(keys: seq<Key>) {
    forall i :: 0 <= i < |keys| ==> NameText(keys[i].name) && IsFingerprint(keys[i].fp)
  }

  lemma EntriesWellFormed(detected: seq<Key>, admins: set<string>, servers: seq<Key>)
    requires WellFormedKeys(detected) && WellFormedKeys(servers)
    ensures var es := KeyEntries(detected, admins) + ServerEntries(servers);
            forall i :: 0 <= i < |es| ==> WellFormed(es[i])
  {
    assert CapWord("admin") && CapWord("operator") && CapWord("server") && NameText("server");
    forall i | 0 <= i < |detected| ensures WellFormed(EntryFor(detected[i], admins)) {
    }
  }

  lemma AdminsOfKeys(detected: seq<Key>, admins: set<string>, servers: seq<Key>)
    ensures Admins(KeyEntries(detected, admins) + ServerEntries(servers)) == admins * Fingerprints(detected)
  {
    var ks, ss := KeyEntries(detected, admins), ServerEntries(servers);
    var es := ks + ss;
    assert forall i :: 0 <= i < |ks| ==> es[i] == EntryFor(detected[i], admins);
    assert forall i :: |ks| <= i < |es| ==> es[i] == ss[i - |ks|] && es[i].caps == ["server"];
    forall fp ensures fp in Admins(es) <==> fp in admins && fp in Fingerprints(detected) {
      if fp in Admins(es) {
        var i :| 0 <= i < |es| && "admin" in es[i].caps && es[i].fp == fp;
        assert "admin" !in ["server"] && "admin" !in ["operator"];
        assert i < |ks| && detected[i].fp == fp;
      }
      if fp in admins && fp in Fingerprints(detected) {
        var i :| 0 <= i < |detected| && detected[i].fp == fp;
        assert es[i].caps == ["admin", "operator"];
      }
    }
  }

  lemma SameEntriesSameAdmins(a: seq<Entry>, b: seq<Entry>)
    requires multiset(a) == multiset(b)
    ensures Admins(a) == Admins(b)
    ensures (forall i :: 0 <= i < |b| ==> WellFormed(b[i])) ==> forall i :: 0 <= i < |a| ==> WellFormed(a[i])
  {
    assert forall x :: x in a <==> x in multiset(a);
    assert forall x :: x in b <==> x in multiset(b);
    forall fp ensures fp in Admins(a) <==> fp in Admins(b) {
      if fp in Admins(a) {
        var i :| 0 <= i < |a| && "admin" in a[i].caps && a[i].fp == fp;
        assert a[i] in b;
      }
      if fp in Admins(b) {
        var i :| 0 <= i < |b| && "admin" in b[i].caps && b[i].fp == fp;
        assert b[i] in a;
      }
    }
    forall i | 0 <= i < |a| ensures a[i] in b {
      assert a[i] in a;
    }
  }

  /**
   * On every path that writes a fresh manifest the admins are a non-empty set of detected keys;
   * the threshold then can be met by them, and reading the manifest back, for a later run of the
   * command, finds the same admins and so picks the same threshold.
   */
  lemma FreshManifestSatisfiable(text: string, preamble: seq<string>, detected: seq<Key>, admins: set<string>, servers: seq<Key>)
    requires WellFormedKeys(detected) && WellFormedKeys(servers)
    requires admins <= Fingerprints(detected) && admins != {}
    requires FreshManifest(text, preamble, detected, admins, servers)
    ensures MinimumSignatures(admins) == (if |admins| >= 2 then 2 else 1) <= |admins|
    ensures AdminsIn(text) == admins && MinimumSignatures(AdminsIn(text)) == MinimumSignatures(admins)
  {
    var es :| Preamble(preamble) && text == Render(preamble, es)
              && multiset(es) == multiset(KeyEntries(detected, admins) + ServerEntries(servers));
    EntriesWellFormed(detected, admins, servers);
    AdminsOfKeys(detected, admins, servers);
    SameEntriesSameAdmins(es, KeyEntries(detected, admins) + ServerEntries(servers));
    ScanOfRendered(preamble, es);
    assert admins * Fingerprints(detected) == admins;
  }

  /** The lines that the fresh manifest is to have for a key, and for a server. */
  function KeyLines(key: Key, admin: bool): seq<string> {
    ["  " + key.name + ":", "    fingerprint: " + key.fp,
     if admin then "    capabilities: [admin, operator]" else "    capabilities: [operator]"]
  }

  function ServerKeyLines(server: Key): seq<string> {
    ["  " + server.name + ":", "    fingerprint: " + server.fp, "    capabilities: [server]", "    role_source: server"]
  }

  /** The lines stand one after another somewhere in the text. */
  ghost predicate HasLines(text: string, lines: seq<string>) {
    exists k: nat :: LinesAt(Split(text, '\n'), k, lines)
  }

  predicate LinesAt(all: seq<string>, k: nat, lines: seq<string>) {
    k + |lines| <= |all| && all[k..k + |lines|] == lines
  }

  lemma {:induction false} LinesOfEntry(es: seq<Entry>, i: nat) returns (k: nat)
    requires i < |es|
    ensures LinesAt(AllLines(es), k, EntryLines(es[i]))
  {
    var first, rest := EntryLines(es[0]), AllLines(es[1..]);
    if i == 0 {
      k := 0;
    } else {
      assert es[1..][i - 1] == es[i];
      var j := LinesOfEntry(es[1..], i - 1);
      k := |first| + j;
      assert (first + rest)[k..k + |EntryLines(es[i])|] == rest[j..j + |EntryLines(es[i])|];
    }
  }

  lemma RenderedHasLines(preamble: seq<string>, es: seq<Entry>, i: nat)
    requires Preamble(preamble) && i < |es| && forall j :: 0 <= j < |es| ==> WellFormed(es[j])
    ensures HasLines(Render(preamble, es), EntryLines(es[i]))
  {
    var all, lines := preamble + AllLines(es), EntryLines(es[i]);
    EntryLinesAreLines(es);
    JoinWithEnd(all);
    SplitJoin(all + [""], '\n');
    var j := LinesOfEntry(es, i);
    var k := |preamble| + j;
    assert (all + [""])[k..k + |lines|] == AllLines(es)[j..j + |lines|];
    assert LinesAt(all + [""], k, lines);
  }

  lemma OperatorLines(key: Key, admins: set<string>)
    ensures EntryLines(EntryFor(key, admins)) == KeyLines(key, key.fp in admins)
  {
    assert Join(["operator"], ", ") == "operator";
    assert ["admin", "operator"][1..] == ["operator"];
    assert Join(["admin", "operator"], ", ") == "admin" + ", " + "operator";
    assert "    capabilities: [" + ("admin" + ", " + "operator") + "]" == "    capabilities: [admin, operator]";
    assert "    capabilities: [" + "operator" + "]" == "    capabilities: [operator]";
  }

  /** Every detected key, and every server, has its lines in the fresh manifest, with the capabilities chosen for it. */
  lemma FreshManifestLists(text: string, preamble: seq<string>, detected: seq<Key>, admins: set<string>, servers: seq<Key>)
    requires WellFormedKeys(detected) && WellFormedKeys(servers)
    requires FreshManifest(text, preamble, detected, admins, servers)
    ensures forall key :: key in detected ==> HasLines(text, KeyLines(key, key.fp in admins))
    ensures forall server :: server in servers ==> HasLines(text, ServerKeyLines(server))
  {
    var given := KeyEntries(detected, admins) + ServerEntries(servers);
    var es :| Preamble(preamble) && text == Render(preamble, es) && multiset(es) == multiset(given);
    EntriesWellFormed(detected, admins, servers);
    SameEntriesSameAdmins(es, given);
    forall key | key in detected ensures HasLines(text, KeyLines(key, key.fp in admins)) {
      var i :| 0 <= i < |detected| && detected[i] == key;
      KeyIsListed(preamble, es, detected, admins, servers, i);
    }
    forall server | server in servers ensures HasLines(text, ServerKeyLines(server)) {
      var i :| 0 <= i < |servers| && servers[i] == server;
      ServerIsListed(preamble, es, detected, admins, servers, i);
    }
  }

  lemma KeyIsListed(preamble: seq<string>, es: seq<Entry>, detected: seq<Key>, admins: set<string>, servers: seq<Key>, i: nat)
    requires Preamble(preamble) && i < |detected| && forall j :: 0 <= j < |es| ==> WellFormed(es[j])
    requires multiset(es) == multiset(KeyEntries(detected, admins) + ServerEntries(servers))
    ensures HasLines(Render(preamble, es), KeyLines(detected[i], detected[i].fp in admins))
  {
    var given := KeyEntries(detected, admins) + ServerEntries(servers);
    assert given[i] == EntryFor(detected[i], admins);
    OperatorLines(detected[i], admins);
    GivenHasLines(preamble, es, given, i);
  }

  lemma ServerIsListed(preamble: seq<string>, es: seq<Entry>, detected: seq<Key>, admins: set<string>, servers: seq<Key>, i: nat)
    requires Preamble(preamble) && i < |servers| && forall j :: 0 <= j < |es| ==> WellFormed(es[j])
    requires multiset(es) == multiset(KeyEntries(detected, admins) + ServerEntries(servers))
    ensures HasLines(Render(preamble, es), ServerKeyLines(servers[i]))
  {
    var given := KeyEntries(detected, admins) + ServerEntries(servers);
    assert given[|detected| + i] == Entry(servers[i].name, servers[i].fp, ["server"], Some("server"));
    ServerKeyLinesAre(servers[i]);
    GivenHasLines(preamble, es, given, |detected| + i);
  }

  lemma ServerKeyLinesAre(server: Key)
    ensures EntryLines(Entry(server.name, server.fp, ["server"], Some("server"))) == ServerKeyLines(server)
  {
    assert Join(["server"], ", ") == "server";
    assert "    capabilities: [" + "server" + "]" == "    capabilities: [server]";
    assert "    role_source: " + "server" == "    role_source: server";
  }

  lemma GivenHasLines(preamble: seq<string>, es: seq<Entry>, given: seq<Entry>, i: nat)
    requires Preamble(preamble) && multiset(es) == multiset(given) && i < |given|
    requires forall j :: 0 <= j < |es| ==> WellFormed(es[j])
    ensures HasLines(Render(preamble, es), EntryLines(given[i]))
  {
    assert given[i] in multiset(given);
    assert given[i] in es;
    var j :| 0 <= j < |es| && es[j] == given[i];
    RenderedHasLines(preamble, es, j);
  }

  /** How the admins are chosen when there is no manifest yet. */
  datatype Selection = AdminKeys(tokens: seq<string>) | Indexes(indexes: seq<int>) | EveryKey | NonInteractive

  datatype Refusal = BadKeys(pick: Pick) | NoSelection | ZeroAdmins

  /** The choice and its threshold, up to the refusal to write a manifest without an admin. */
  method ChooseForFreshManifest(detected: seq<Key>, selection: Selection) returns (r: Result<(set<string>, nat), Refusal>)
    requires LowerCase(detected)
    ensures r.Ok? ==>
              && r.value.0 <= Fingerprints(detected) && r.value.0 != {}
              && r.value.1 == (if |r.value.0| >= 2 then 2 else 1) && 1 <= r.value.1 <= |r.value.0|
              && r.value.0 == match selection
                              case AdminKeys(tokens) => Wanted(tokens)
                              case Indexes(indexes) => AtIndexes(detected, indexes)
                              case _ => Fingerprints(detected)
    ensures r.Err? <==> match selection
                        case AdminKeys(tokens) => !(Wanted(tokens) <= Fingerprints(detected)) || Wanted(tokens) == {}
                        case Indexes(indexes) => forall i :: 0 <= i < |indexes| ==> !(1 <= indexes[i] <= |detected|)
                        case EveryKey => detected == []
                        case NonInteractive => true
  {
    var admins: set<string> := {};
    match selection {
      case AdminKeys(tokens) =>
        var picked := PickAdminsFromFingerprints(detected, tokens);
        if picked.Err? {
          return Err(BadKeys(picked.reason));
        }
        admins := picked.value;
      case Indexes(indexes) =>
        admins := PickAdminsFromIndexes(detected, indexes);
        assert admins == {} ==> forall i :: 0 <= i < |indexes| ==> !(1 <= indexes[i] <= |detected|) by {
          assert forall i :: 0 <= i < |indexes| && 1 <= indexes[i] <= |detected| ==> detected[indexes[i] - 1].fp in admins;
        }
      case EveryKey =>
        admins := Fingerprints(detected);
        assert detected != [] ==> detected[0].fp in admins;
      case NonInteractive =>
        return Err(NoSelection);
    }
    if |admins| == 0 {
      return Err(ZeroAdmins);
    }
    return Ok((admins, MinimumSignatures(admins)));
  }

  // ----- Entries in either order -------------------------------------------------------------------

  /** An entry, possibly with its capabilities written before its fingerprint. */
  datatype Written = Written(entry: Entry, swapped: bool)

  function SwappedLines(e: Entry): seq<string> {
    ["  " + e.name + ":", CapsLine(e.caps), FpLine(e.fp)]
    + (if e.role.Some? then ["    role_source: " + e.role.value] else [])
  }

  function WrittenLines(w: Written): seq<string> {
    if w.swapped then SwappedLines(w.entry) else EntryLines(w.entry)
  }

  function AllWritten(ws: seq<Written>): seq<string> {
    if ws == [] then [] else WrittenLines(ws[0]) + AllWritten(ws[1..])
  }

  /** The list the scanner credits to entry `i`: the next one's, when that comes first there, else its own, or none. */
  function Credited(ws: seq<Written>, i: nat): seq<string>
    requires i < |ws|
  {
    if i + 1 < |ws| && ws[i + 1].swapped then ws[i + 1].entry.caps
    else if ws[i].swapped then []
    else ws[i].entry.caps
  }

  function CreditedAdmins(ws: seq<Written>): set<string> {
    set i | 0 <= i < |ws| && "admin" in Credited(ws, i) :: ws[i].entry.fp
  }

  function TrueAdmins(ws: seq<Written>): set<string> {
    set i | 0 <= i < |ws| && "admin" in ws[i].entry.caps :: ws[i].entry.fp
  }

  lemma {:induction false} FoldSwapped(s: Scan, e: Entry)
    requires WellFormed(e)
    ensures Fold(s, SwappedLines(e)) == Scan(Some(e.fp), [], Flush(s.(caps := e.caps)))
  {
    NameLineIsOther(e.name);
    FpLineIsRead(e.fp);
    CapsLineIsRead(e.caps);
    var name, fp, caps := "  " + e.name + ":", FpLine(e.fp), CapsLine(e.caps);
    var tail := if e.role.Some? then ["    role_source: " + e.role.value] else [];
    var s1 := s.(caps := e.caps);
    assert SwappedLines(e) == [name] + ([caps] + ([fp] + tail));
    FoldCons(s, name, [caps] + ([fp] + tail));
    FoldCons(s, caps, [fp] + tail);
    FoldCons(s1, fp, tail);
    if e.role.Some? {
      RoleLineIsOther(e.role.value);
      assert tail == [tail[0]] + [];
      FoldCons(Scan(Some(e.fp), [], Flush(s1)), tail[0], []);
    }
  }

  /** What a following entry does to the capabilities collected so far. */
  function Meeting(s: Scan, ws: seq<Written>): Scan {
    if ws != [] && ws[0].swapped then s.(caps := ws[0].entry.caps) else s
  }

  lemma CreditedCons(ws: seq<Written>)
    requires ws != []
    ensures CreditedAdmins(ws)
         == (if "admin" in Credited(ws, 0) then {ws[0].entry.fp} else {}) + CreditedAdmins(ws[1..])
  {
    var rest := ws[1..];
    assert forall i :: 0 <= i < |rest| ==> rest[i] == ws[i + 1] && Credited(rest, i) == Credited(ws, i + 1);
    forall fp ensures fp in CreditedAdmins(ws)
                 <==> ("admin" in Credited(ws, 0) && fp == ws[0].entry.fp) || fp in CreditedAdmins(rest)
    {
      if fp in CreditedAdmins(ws) {
        var i :| 0 <= i < |ws| && "admin" in Credited(ws, i) && ws[i].entry.fp == fp;
        assert i > 0 ==> "admin" in Credited(rest, i - 1) && rest[i - 1].entry.fp == fp;
      }
      if fp in CreditedAdmins(rest) {
        var i :| 0 <= i < |rest| && "admin" in Credited(rest, i) && rest[i].entry.fp == fp;
        assert "admin" in Credited(ws, i + 1);
      }
    }
  }

  lemma {:induction false} FoldWrittenOne(s: Scan, w: Written)
    requires WellFormed(w.entry)
    ensures Fold(s, WrittenLines(w))
         == Scan(Some(w.entry.fp), if w.swapped then [] else w.entry.caps, Flush(Meeting(s, [w])))
  {
    if w.swapped {
      FoldSwapped(s, w.entry);
    } else {
      FoldEntry(s, w.entry);
    }
  }

  lemma {:induction false} FoldWritten(s: Scan, ws: seq<Written>)
    requires forall i :: 0 <= i < |ws| ==> WellFormed(ws[i].entry)
    ensures Flush(Fold(s, AllWritten(ws))) == Flush(Meeting(s, ws)) + CreditedAdmins(ws)
    decreases |ws|
  {
    if ws != [] {
      var w, rest := ws[0], ws[1..];
      var s1 := Fold(s, WrittenLines(w));
      FoldWrittenOne(s, w);
      FoldConcat(s, WrittenLines(w), AllWritten(rest));
      FoldWritten(s1, rest);
      CreditedCons(ws);
      assert Meeting(s1, rest).caps == Credited(ws, 0);
    }
  }

  predicate DistinctFingerprints(ws: seq<Written>) {
    forall i, j :: 0 <= i < j < |ws| ==> ws[i].entry.fp != ws[j].entry.fp
  }

  predicate CreditAgrees(ws: seq<Written>) {
    forall i :: 0 <= i < |ws| ==> ("admin" in Credited(ws, i) <==> "admin" in ws[i].entry.caps)
  }

  lemma SameSetsAgree(ws: seq<Written>)
    requires DistinctFingerprints(ws)
    ensures CreditedAdmins(ws) == TrueAdmins(ws) <==> CreditAgrees(ws)
  {
    if CreditedAdmins(ws) == TrueAdmins(ws) {
      forall i | 0 <= i < |ws| ensures "admin" in Credited(ws, i) <==> "admin" in ws[i].entry.caps {
        if "admin" in Credited(ws, i) {
          assert ws[i].entry.fp in TrueAdmins(ws);
        }
        if "admin" in ws[i].entry.caps {
          assert ws[i].entry.fp in CreditedAdmins(ws);
        }
      }
    }
  }

  lemma {:induction false} WrittenLinesAreLines(ws: seq<Written>)
    requires forall i :: 0 <= i < |ws| ==> WellFormed(ws[i].entry)
    ensures forall k :: 0 <= k < |AllWritten(ws)| ==> '\n' !in AllWritten(ws)[k]
  {
    if ws != [] {
      var rest := ws[1..];
      assert forall i :: 0 <= i < |rest| ==> rest[i] == ws[i + 1];
      WrittenLinesAreLines(rest);
      var e := ws[0].entry;
      EntryLinesAreLines([e]);
      assert AllLines([e]) == EntryLines(e) by {
        assert [e][1..] == [] && EntryLines(e) + [] == EntryLines(e);
      }
      assert SwappedLines(e)[0] == EntryLines(e)[0];
      assert SwappedLines(e)[1] == EntryLines(e)[2] && SwappedLines(e)[2] == EntryLines(e)[1];
      assert |SwappedLines(e)| > 3 ==> SwappedLines(e)[3] == EntryLines(e)[3];
    }
  }

  /**
   * On a manifest whose entries are written in either order, the scan finds the true admins exactly
   * when each entry is an admin by the list it is credited with and by its own alike.
   */
  lemma {:induction false} ScanOfWritten(preamble: seq<string>, ws: seq<Written>)
    requires Preamble(preamble) && DistinctFingerprints(ws)
    requires forall i :: 0 <= i < |ws| ==> WellFormed(ws[i].entry)
    ensures AdminsIn(Join(preamble + AllWritten(ws), "\n") + "\n") == TrueAdmins(ws) <==> CreditAgrees(ws)
  {
    WrittenLinesAreLines(ws);
    ScanOfLines(preamble, AllWritten(ws));
    FoldWritten(START, ws);
    SameSetsAgree(ws);
  }

  /**
   * After an entry that is no admin, an admin entry written the other way round makes the earlier
   * key an admin and is itself not found.
   */
  lemma SwappedEntryIsMisread(first: Entry, second: Entry)
    requires WellFormed(first) && WellFormed(second)
    requires "admin" !in first.caps && "admin" in second.caps && first.fp != second.fp
    ensures Flush(Fold(START, EntryLines(first) + SwappedLines(second))) == {first.fp}
  {
    FoldConcat(START, EntryLines(first), SwappedLines(second));
    FoldEntry(START, first);
    FoldSwapped(Scan(Some(first.fp), first.caps, {}), second);
  }

  // ----- Distinct names ----------------------------------------------------------------------------

  function Occurrences(names: seq<string>, name: string): nat {
    if names == [] then 0
    else Occurrences(names[..|names| - 1], name) + (if names[|names| - 1] == name then 1 else 0)
  }

  /** Name `i` after `disambiguateNames`. */
  function Renamed(names: seq<string>, i: nat): string
    requires i < |names|
  {
    Suffixed(names[i], Occurrences(names[..i], names[i]))
  }

  /** A name that has been seen `count` times before. */
  function Suffixed(name: string, count: nat): string {
    if count == 0 then name else name + "_" + Decimal(count + 1)
  }

  /** How often each name has been seen. */
  ghost predicate Counts(seen: map<string, nat>, names: seq<string>) {
    forall name :: (if name in seen then seen[name] else 0) == Occurrences(names, name)
  }

  lemma CountsSnoc(seen: map<string, nat>, names: seq<string>, i: nat)
    requires i < |names| && Counts(seen, names[..i])
    ensures Counts(seen[names[i] := Occurrences(names[..i], names[i]) + 1], names[..i + 1])
  {
    assert names[..i + 1][..i] == names[..i] && names[..i + 1][i] == names[i];
  }

  method DisambiguateNames(names: seq<string>) returns (out: seq<string>)
    ensures |out| == |names| && forall i :: 0 <= i < |names| ==> out[i] == Renamed(names, i)
  {
    var seen: map<string, nat> := map[];
    out := [];
    var i := 0;
    while i < |names|
      invariant i <= |names| && |out| == i
      invariant forall j :: 0 <= j < i ==> out[j] == Renamed(names, j)
      invariant Counts(seen, names[..i])
    {
      var count := if names[i] in seen then seen[names[i]] else 0;
      CountsSnoc(seen, names, i);
      seen := seen[names[i] := count + 1];
      out := out + [Suffixed(names[i], count)];
      i := i + 1;
    }
  }

  lemma {:induction false} OccursBefore(names: seq<string>, name: string)
    ensures Occurrences(names, name) > 0 <==> name in names
  {
    if names != [] {
      OccursBefore(names[..|names| - 1], name);
      assert names == names[..|names| - 1] + [names[|names| - 1]];
    }
  }

  lemma {:induction false} OccurrencesGrow(names: seq<string>, name: string, i: nat, j: nat)
    requires i < j <= |names| && names[i] == name
    ensures Occurrences(names[..i], name) < Occurrences(names[..j], name)
    decreases j
  {
    assert names[..j][..j - 1] == names[..j - 1];
    if i < j - 1 {
      OccurrencesGrow(names, name, i, j - 1);
    }
  }

  /** The first occurrence of a name keeps it. */
  lemma {:induction false} FirstKeepsName(names: seq<string>, name: string) returns (f: nat)
    requires name in names
    ensures f < |names| && names[f] == name && Renamed(names, f) == name
    ensures forall j :: 0 <= j < f ==> names[j] != name
  {
    f := 0;
    while names[f] != name
      invariant f < |names| && name in names[f..]
      invariant forall j :: 0 <= j < f ==> names[j] != name
      decreases |names| - f
    {
      assert names[f..] == [names[f]] + names[f + 1..];
      f := f + 1;
    }
    OccursBefore(names[..f], name);
  }

  /** The last underscore of a suffixed name is the one before the number. */
  lemma {:induction false} LastUnderscore(a: string, m: nat, k: nat)
    requires k < |a + "_" + Decimal(m)| && (a + "_" + Decimal(m))[k] == '_'
    ensures k <= |a|
  {
    var s := a + "_" + Decimal(m);
    assert forall j :: |a| < j < |s| ==> s[j] == Decimal(m)[j - |a| - 1];
  }

  /** Suffixed names are equal only for the same name and count. */
  lemma {:induction false} SuffixesDiffer(a: string, m: nat, b: string, n: nat)
    requires a + "_" + Decimal(m) == b + "_" + Decimal(n)
    ensures a == b && m == n
  {
    var s := a + "_" + Decimal(m);
    assert s[|a|] == '_' && s[|b|] == '_';
    LastUnderscore(a, m, |b|);
    LastUnderscore(b, n, |a|);
    assert a == s[..|a|] == s[..|b|] == b;
    assert Decimal(m) == s[|a| + 1..] == s[|b| + 1..] == Decimal(n);
    NumberOfDecimal(m);
    NumberOfDecimal(n);
  }

  predicate DistinctRenamed(names: seq<string>) {
    forall i, j :: 0 <= i < j < |names| ==> Renamed(names, i) != Renamed(names, j)
  }

  /** No repeated name, with the suffix for its place, is already among the names. */
  predicate NoClash(names: seq<string>) {
    forall i :: 0 <= i < |names| ==>
      var earlier := Occurrences(names[..i], names[i]);
      earlier > 0 ==> names[i] + "_" + Decimal(earlier + 1) !in names
  }

  lemma RenamedWhenRepeated(names: seq<string>, i: nat)
    requires i < |names|
    ensures Renamed(names, i) != names[i] <==> Occurrences(names[..i], names[i]) > 0
  {
    var earlier := Occurrences(names[..i], names[i]);
    assert |names[i] + "_" + Decimal(earlier + 1)| > |names[i]|;
  }

  /** The names come out distinct exactly when no suffixed name is itself one of the names. */
  lemma DisambiguationIff(names: seq<string>)
    ensures DistinctRenamed(names) <==> NoClash(names)
  {
    if !NoClash(names) {
      var i :| 0 <= i < |names| && Occurrences(names[..i], names[i]) > 0
               && names[i] + "_" + Decimal(Occurrences(names[..i], names[i]) + 1) in names;
      RenamedWhenRepeated(names, i);
      var f := FirstKeepsName(names, Renamed(names, i));
      assert f != i;
    } else {
      forall i, j | 0 <= i < j < |names| ensures Renamed(names, i) != Renamed(names, j) {
        RenamedDiffer(names, i, j);
      }
    }
  }

  lemma RenamedDiffer(names: seq<string>, i: nat, j: nat)
    requires NoClash(names) && i < j < |names|
    ensures Renamed(names, i) != Renamed(names, j)
  {
    var ci, cj := Occurrences(names[..i], names[i]), Occurrences(names[..j], names[j]);
    if names[i] == names[j] {
      OccurrencesGrow(names, names[i], i, j);
    }
    if ci > 0 && cj > 0 {
      if Renamed(names, i) == Renamed(names, j) {
        SuffixesDiffer(names[i], ci + 1, names[j], cj + 1);
      }
    }
  }
}
