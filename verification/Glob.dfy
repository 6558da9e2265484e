/** Path globs of `path_rules`: the two compilers to a regular expression (the producer's copy in
    adminSign.ts and trustAnchorCollection.ts, the verifier's in v4Trust.ts), the fragment of
    JavaScript regular expressions they emit, and the meaning of a glob. */
module Glob {
  import opened Results
  import opened Strings

  const NUL := '\0'
  const DOUBLE := "DOUBLESTAR"
  const SINGLE := "SINGLESTAR"
  const QMARK := "QMARK"

  /** One element of a glob, and of the anchored regular expression it stands for. */
  datatype Atom =
    | Chr(c: char)  // that character
    | AnyRun        // `**`, `.*`
    | SegRun        // `*`, `[^/]*`
    | SegOne        // `?`, `[^/]`

  // ----- What a glob means ---------------------------------------------------------------------

  /** One pass, left to right; `**` pairs leftmost, so `***` is `**` then `*`. */
  function Tokenize(p: string): seq<Atom> {
    if p == [] then []
    else if "**" <= p then [AnyRun] + Tokenize(p[2..])
    else if p[0] == '*' then [SegRun] + Tokenize(p[1..])
    else if p[0] == '?' then [SegOne] + Tokenize(p[1..])
    else [Chr(p[0])] + Tokenize(p[1..])
  }

  predicate LineTerminator(c: char) {
    c == '\n' || c == '\r' || c == '\U{2028}' || c == '\U{2029}'
  }

  /** Full match of a path. `.` refuses line terminators, `[^/]` does not. */
  predicate Match(atoms: seq<Atom>, path: string)
    decreases |atoms|, |path|
  {
    if atoms == [] then path == []
    else match atoms[0]
      case Chr(c) => path != [] && path[0] == c && Match(atoms[1..], path[1..])
      case SegOne => path != [] && path[0] != '/' && Match(atoms[1..], path[1..])
      case SegRun => Match(atoms[1..], path) || (path != [] && path[0] != '/' && Match(atoms, path[1..]))
      case AnyRun =>
        Match(atoms[1..], path) || (path != [] && !LineTerminator(path[0]) && Match(atoms, path[1..]))
  }

  // ----- The compilers -------------------------------------------------------------------------

  predicate Special(c: char) {
    c in ".+^${}()|[]\\"
  }

  function EscapeChar(c: char): string {
    if Special(c) then ['\\', c] else [c]
  }

  /** `pattern.replace(/[.+^${}()|[\]\\]/g, "\\$&")`. */
  function Escape(p: string): string {
    if p == [] then "" else EscapeChar(p[0]) + Escape(p[1..])
  }

  function Sentinel(name: string): string {
    [NUL] + name + [NUL]
  }

  /** The producer's compiler: three sentinels, expanded one after another. */
  function ProducerRegex(p: string): string {
    var s1 := ReplaceAll(Escape(p), "**", Sentinel(DOUBLE));
    var s2 := ReplaceAll(s1, "*", Sentinel(SINGLE));
    var s3 := ReplaceAll(s2, "?", Sentinel(QMARK));
    var s4 := ReplaceAll(s3, Sentinel(DOUBLE), ".*");
    var s5 := ReplaceAll(s4, Sentinel(SINGLE), "[^/]*");
    ReplaceAll(s5, Sentinel(QMARK), "[^/]")
  }

  /** The verifier's compiler: one sentinel (`split(DOUBLE).join(".*")` is leftmost replacement). */
  function VerifierRegex(p: string): string {
    var s1 := ReplaceAll(Escape(p), "**", Sentinel(DOUBLE));
    var s2 := ReplaceAll(s1, "*", "[^/]*");
    var s3 := ReplaceAll(s2, "?", "[^/]");
    ReplaceAll(s3, Sentinel(DOUBLE), ".*")
  }

  // ----- The regular expressions ---------------------------------------------------------------

  /** JavaScript's reading of `^re$` on the fragment the compilers emit; None outside it. */
  function ParseRegex(re: string): Option<seq<Atom>> {
    if re == "" then Some([])
    else if re[0] == '\\' then
      if |re| == 1 then None else Cons(Chr(re[1]), ParseRegex(re[2..]))
    else if "[^/]*" <= re then Cons(SegRun, ParseRegex(re[5..]))
    else if "[^/]" <= re then Cons(SegOne, ParseRegex(re[4..]))
    else if ".*" <= re then Cons(AnyRun, ParseRegex(re[2..]))
    else if Special(re[0]) || re[0] == '*' || re[0] == '?' then None
    else Cons(Chr(re[0]), ParseRegex(re[1..]))
  }

  function Cons(a: Atom, rest: Option<seq<Atom>>): Option<seq<Atom>> {
    if rest.None? then None else Some([a] + rest.value)
  }

  predicate RegexMatches(re: string, path: string) {
    var atoms := ParseRegex(re);
    atoms.Some? && Match(atoms.value, path)
  }

  /** The text of an element list. */
  function AtomText(a: Atom): string {
    match a
    case Chr(c) => EscapeChar(c)
    case AnyRun => ".*"
    case SegRun => "[^/]*"
    case SegOne => "[^/]"
  }

  function Text(atoms: seq<Atom>): string {
    if atoms == [] then "" else AtomText(atoms[0]) + Text(atoms[1..])
  }

  /** Elements whose text reads back: no bare quantifier among the characters. */
  predicate Plain(atoms: seq<Atom>) {
    forall i :: 0 <= i < |atoms| ==> atoms[i] != Chr('*') && atoms[i] != Chr('?')
  }

  lemma {:induction false} TextStartsClean(atoms: seq<Atom>)
    requires Plain(atoms)
    ensures Text(atoms) != "" ==> Text(atoms)[0] != '*'
  {
    if atoms != [] {
      assert AtomText(atoms[0]) != "";
    }
  }

  lemma {:induction false} ParseText(atoms: seq<Atom>)
    requires Plain(atoms)
    ensures ParseRegex(Text(atoms)) == Some(atoms)
  {
    if atoms != [] {
      var a, rest := atoms[0], Text(atoms[1..]);
      ParseText(atoms[1..]);
      TextStartsClean(atoms[1..]);
      var re := Text(atoms);
      assert re == AtomText(a) + rest;
      assert re[|AtomText(a)|..] == rest;
      match a {
        case Chr(c) =>
        case AnyRun =>
          assert re[0] == '.' && re[..2] == ".*";
        case SegRun =>
          assert re[..5] == "[^/]*";
        case SegOne =>
          assert re[..4] == "[^/]";
          if |re| >= 5 { assert re[4] == rest[0]; }
      }
      assert atoms == [a] + atoms[1..];
    }
  }

  lemma {:induction false} TextDistributes(a: seq<Atom>, b: seq<Atom>)
    ensures Text(a + b) == Text(a) + Text(b)
  {
    if a == [] {
      assert a + b == b;
    } else {
      TextDistributes(a[1..], b);
      Assoc([a[0]], a[1..], b);
      assert [a[0]] + a[1..] == a;
      TextCons(a[0], a[1..] + b);
      Assoc(AtomText(a[0]), Text(a[1..]), Text(b));
    }
  }

  lemma {:induction false} TextCons(first: Atom, rest: seq<Atom>)
    ensures Text([first] + rest) == AtomText(first) + Text(rest)
  {
    assert ([first] + rest)[1..] == rest;
  }

  // ----- Both compilers up to the sentinels ----------------------------------------------------

  /** The elements' text with each wildcard written as given. */
  function Flat(atoms: seq<Atom>, any: string, run: string, one: string): string {
    if atoms == [] then ""
    else (match atoms[0]
          case Chr(c) => EscapeChar(c)
          case AnyRun => any
          case SegRun => run
          case SegOne => one) + Flat(atoms[1..], any, run, one)
  }

  predicate NulFree(p: string) {
    NUL !in p
  }

  /** Elements of a NUL-free pattern: plain, and no character is NUL. */
  predicate Clean(atoms: seq<Atom>) {
    Plain(atoms) && forall i :: 0 <= i < |atoms| ==> atoms[i] != Chr(NUL)
  }

  lemma {:induction false} TokensAreClean(p: string)
    ensures Plain(Tokenize(p))
    ensures NulFree(p) ==> Clean(Tokenize(p))
  {
    if p != [] {
      if "**" <= p {
        TokensAreClean(p[2..]);
      } else {
        TokensAreClean(p[1..]);
      }
    }
  }

  lemma {:induction false} FlatIsText(atoms: seq<Atom>)
    ensures Flat(atoms, ".*", "[^/]*", "[^/]") == Text(atoms)
  {
    if atoms != [] {
      FlatIsText(atoms[1..]);
    }
  }

  /** Escaping never changes which `*` are paired. */
  /** The first stage on a pattern that starts with `**`. */
  lemma {:induction false} PairHit(p: string, rep: string)
    requires "**" <= p
    ensures ReplaceAll(Escape(p), "**", rep) == rep + ReplaceAll(Escape(p[2..]), "**", rep)
  {
    EscapeStar(p);
    EscapeStar(p[1..]);
    assert p[1..][1..] == p[2..];
    assert Escape(p) == "**" + Escape(p[2..]);
    ReplaceHit(Escape(p[2..]), "**", rep);
  }

  /** The first stage on a star that is not doubled. */
  lemma {:induction false} PairMiss(p: string, rep: string)
    requires p != "" && p[0] == '*' && !("**" <= p)
    ensures ReplaceAll(Escape(p), "**", rep) == "*" + ReplaceAll(Escape(p[1..]), "**", rep)
  {
    var u, t := Escape(p), Escape(p[1..]);
    EscapeStar(p);
    EscapeHead(p[1..]);
    assert |p| >= 2 ==> p[1] != '*' && t[0] != '*';
    assert !("**" <= u) && u[1..] == t;
    ReplaceMiss(u, "**", rep);
  }

  lemma {:induction false} PairStage(p: string)
    ensures ReplaceAll(Escape(p), "**", Sentinel(DOUBLE)) == Flat(Tokenize(p), Sentinel(DOUBLE), "*", "?")
  {
    if p != [] {
      if "**" <= p {
        PairHit(p, Sentinel(DOUBLE));
        PairStage(p[2..]);
      } else if p[0] == '*' {
        PairMiss(p, Sentinel(DOUBLE));
        PairStage(p[1..]);
      } else {
        ReplaceSkips(EscapeChar(p[0]), Escape(p[1..]), "**", Sentinel(DOUBLE));
        PairStage(p[1..]);
      }
    }
  }

  lemma {:induction false} EscapeStar(p: string)
    requires p != "" && p[0] == '*'
    ensures Escape(p) == "*" + Escape(p[1..])
  {
  }

  lemma {:induction false} EscapeHead(p: string)
    ensures Escape(p) == "" <==> p == ""
    ensures p != "" ==> Escape(p)[0] == EscapeChar(p[0])[0]
  {
  }

  /** Expanding the single stars, then the question marks. */
  lemma {:induction false} StarStage(atoms: seq<Atom>, any: string, one: string, rep: string)
    requires Plain(atoms) && '*' !in any && '*' !in one
    ensures ReplaceAll(Flat(atoms, any, "*", one), "*", rep) == Flat(atoms, any, rep, one)
  {
    if atoms != [] {
      StarStage(atoms[1..], any, one, rep);
      var head := Flat(atoms, any, "*", one);
      var a := match atoms[0] case Chr(c) => EscapeChar(c) case AnyRun => any case SegRun => "*" case SegOne => one;
      ReplaceCharDistributes(a, Flat(atoms[1..], any, "*", one), '*', rep);
      assert "*"[1..] == "";
      if !atoms[0].SegRun? {
        ReplaceAbsentChar(a, '*', rep);
      } else {
        assert ReplaceAll("*", "*", rep) == rep + ReplaceAll("", "*", rep) == rep + "" == rep;
      }
    }
  }

  lemma {:induction false} QuestionStage(atoms: seq<Atom>, any: string, run: string, rep: string)
    requires Plain(atoms) && '?' !in any && '?' !in run
    ensures ReplaceAll(Flat(atoms, any, run, "?"), "?", rep) == Flat(atoms, any, run, rep)
  {
    if atoms != [] {
      QuestionStage(atoms[1..], any, run, rep);
      var a := match atoms[0] case Chr(c) => EscapeChar(c) case AnyRun => any case SegRun => run case SegOne => "?";
      ReplaceCharDistributes(a, Flat(atoms[1..], any, run, "?"), '?', rep);
      assert "?"[1..] == "";
      if !atoms[0].SegOne? {
        ReplaceAbsentChar(a, '?', rep);
      } else {
        assert ReplaceAll("?", "?", rep) == rep + ReplaceAll("", "?", rep) == rep + "" == rep;
      }
    }
  }

  /** With one kind of sentinel every opening NUL is met first, so each is expanded. */
  lemma {:induction false} OnlySentinel(atoms: seq<Atom>, run: string, one: string)
    requires Clean(atoms) && NUL !in run && NUL !in one
    ensures ReplaceAll(Flat(atoms, Sentinel(DOUBLE), run, one), Sentinel(DOUBLE), ".*") == Flat(atoms, ".*", run, one)
  {
    if atoms != [] {
      OnlySentinel(atoms[1..], run, one);
      var rest := Flat(atoms[1..], Sentinel(DOUBLE), run, one);
      var u := Flat(atoms, Sentinel(DOUBLE), run, one);
      var n := |Sentinel(DOUBLE)|;
      match atoms[0] {
        case AnyRun => assert u[..n] == Sentinel(DOUBLE) && u[n..] == rest;
        case Chr(c) => ReplaceSkips(EscapeChar(c), rest, Sentinel(DOUBLE), ".*");
        case SegRun => ReplaceSkips(run, rest, Sentinel(DOUBLE), ".*");
        case SegOne => ReplaceSkips(one, rest, Sentinel(DOUBLE), ".*");
      }
    }
  }

  /** The verifier's compiler is the one-pass reading, for every NUL-free pattern. */
  lemma {:induction false} VerifierCompilesTokens(p: string)
    requires NulFree(p)
    ensures VerifierRegex(p) == Text(Tokenize(p))
    ensures ParseRegex(VerifierRegex(p)) == Some(Tokenize(p))
  {
    var ts := Tokenize(p);
    TokensAreClean(p);
    PairStage(p);
    StarStage(ts, Sentinel(DOUBLE), "?", "[^/]*");
    QuestionStage(ts, Sentinel(DOUBLE), "[^/]*", "[^/]");
    OnlySentinel(ts, "[^/]*", "[^/]");
    FlatIsText(ts);
    ParseText(ts);
  }

  // ----- Three sentinels: NUL-delimited segments -----------------------------------------------

  function Name(w: Atom): string {
    match w
    case AnyRun => DOUBLE
    case SegRun => SINGLE
    case SegOne => QMARK
    case Chr(_) => ""
  }

  /** A wildcard and the escaped characters that follow it up to the next wildcard. */
  datatype Part = Part(wild: Atom, lit: string)

  const WILDS := {AnyRun, SegRun, SegOne}

  predicate WildsIn(parts: seq<Part>, wilds: set<Atom>) {
    forall i :: 0 <= i < |parts| ==> parts[i].wild in wilds
  }

  /** The escaped characters before the first wildcard. */
  function Head(atoms: seq<Atom>): string {
    if atoms == [] || !atoms[0].Chr? then "" else EscapeChar(atoms[0].c) + Head(atoms[1..])
  }

  function Parts(atoms: seq<Atom>): (r: seq<Part>)
    ensures WildsIn(r, WILDS)
  {
    if atoms == [] then []
    else if atoms[0].Chr? then Parts(atoms[1..])
    else [Part(atoms[0], Head(atoms[1..]))] + Parts(atoms[1..])
  }

  function Segments(head: string, parts: seq<Part>): (r: seq<string>)
    ensures r != []
    decreases |parts|
  {
    if parts == [] then [head] else [head, Name(parts[0].wild)] + Segments(parts[0].lit, parts[1..])
  }

  /** One sentinel expansion seen on the NUL-delimited segments: a segment equal to the name, with a
      NUL on each side, is replaced and glued to its neighbours; the scan resumes after it. */
  function Merge(segs: seq<string>, name: string, rep: string): (r: seq<string>)
    requires segs != []
    ensures r != []
    decreases |segs|
  {
    if |segs| < 3 then segs
    else if segs[1] == name then Merge([segs[0] + rep + segs[2]] + segs[3..], name, rep)
    else [segs[0]] + Merge(segs[1..], name, rep)
  }

  predicate AllNulFree(segs: seq<string>) {
    forall i :: 0 <= i < |segs| ==> NulFree(segs[i])
  }

  lemma {:induction false} JoinCons(head: string, rest: seq<string>)
    requires rest != []
    ensures Join([head] + rest, [NUL]) == head + ([NUL] + Join(rest, [NUL]))
  {
    assert ([head] + rest)[1..] == rest;
    Assoc(head, [NUL], Join(rest, [NUL]));
  }

  lemma {:induction false} JoinGlue(a: string, b: string, rest: seq<string>)
    ensures Join([a + b] + rest, [NUL]) == a + Join([b] + rest, [NUL])
  {
    if rest != [] {
      JoinCons(a + b, rest);
      JoinCons(b, rest);
      Assoc(a, b, [NUL] + Join(rest, [NUL]));
    }
  }

  /** Text replacement of a sentinel is `Merge` on the segments. */
  lemma {:induction false} ReplaceIsMerge(segs: seq<string>, name: string, rep: string)
    requires segs != [] && AllNulFree(segs) && NulFree(name) && NulFree(rep)
    ensures ReplaceAll(Join(segs, [NUL]), Sentinel(name), rep) == Join(Merge(segs, name, rep), [NUL])
    ensures AllNulFree(Merge(segs, name, rep))
    decreases |segs|
  {
    var pat := Sentinel(name);
    if |segs| == 1 {
      ReplaceSkips(segs[0], "", pat, rep);
      assert segs[0] + "" == segs[0];
    } else {
      var rest := segs[1..];
      assert segs == [segs[0]] + rest;
      JoinCons(segs[0], rest);
      var t := [NUL] + Join(rest, [NUL]);
      ReplaceSkips(segs[0], t, pat, rep);
      if |segs| >= 3 && segs[1] == name {
        var glued := [segs[0] + rep + segs[2]] + segs[3..];
        ReplaceIsMerge(glued, name, rep);
        MergeStep(segs[0], name, [segs[2]] + segs[3..], rep);
        assert rest == [name] + ([segs[2]] + segs[3..]);
      } else {
        NoSentinelHere(rest, name);
        ReplaceMiss(t, pat, rep);
        assert t[1..] == Join(rest, [NUL]);
        ReplaceIsMerge(rest, name, rep);
        JoinCons(segs[0], Merge(rest, name, rep));
        if |segs| == 2 {
          assert Merge(segs, name, rep) == [segs[0]] + rest;
        }
      }
    }
  }

  lemma SentinelThen(name: string, j: string)
    ensures [NUL] + (name + ([NUL] + j)) == Sentinel(name) + j
  {
    Assoc(name, [NUL], j);
    Assoc([NUL], name + [NUL], j);
    Assoc([NUL], name, [NUL]);
  }

  /** The replacing step: both readings go on from the glued segment. */
  lemma {:induction false} MergeStep(s0: string, name: string, after: seq<string>, rep: string)
    requires after != [] && NulFree(s0) && NulFree(rep)
    ensures var t := [NUL] + Join([name] + after, [NUL]);
            s0 + ReplaceAll(t, Sentinel(name), rep)
            == ReplaceAll(Join([s0 + rep + after[0]] + after[1..], [NUL]), Sentinel(name), rep)
  {
    var pat := Sentinel(name);
    var j := Join(after, [NUL]);
    JoinCons(name, after);
    SentinelThen(name, j);
    ReplaceHit(j, pat, rep);
    JoinGlue(s0 + rep, after[0], after[1..]);
    assert after == [after[0]] + after[1..];
    ReplaceSkips(s0 + rep, j, pat, rep);
    Assoc(s0, rep, ReplaceAll(j, pat, rep));
  }

  lemma SentinelNeedsClosing(j: string, name: string)
    requires NulFree(j)
    ensures !(Sentinel(name) <= [NUL] + j)
  {
    var t, pat := [NUL] + j, Sentinel(name);
    assert pat[|name| + 1] == NUL;
    if |t| >= |pat| {
      assert t[|name| + 1] == j[|name|];
    }
  }

  lemma SentinelNeedsName(s0: string, x: string, name: string)
    requires NulFree(s0) && NulFree(name) && s0 != name
    ensures !(Sentinel(name) <= [NUL] + (s0 + ([NUL] + x)))
  {
    var t, pat := [NUL] + (s0 + ([NUL] + x)), Sentinel(name);
    assert t[|s0| + 1] == NUL && pat[|name| + 1] == NUL;
    if |s0| < |name| {
      assert pat[|s0| + 1] == name[|s0|];
    } else if |name| < |s0| {
      assert t[|name| + 1] == s0[|name|];
    } else {
      var k :| 0 <= k < |name| && name[k] != s0[k];
      assert pat[k + 1] == name[k] && t[k + 1] == s0[k];
    }
  }

  lemma {:induction false} JoinUncons(segs: seq<string>)
    requires |segs| >= 2
    ensures Join(segs, [NUL]) == segs[0] + ([NUL] + Join(segs[1..], [NUL]))
  {
    Assoc(segs[0], [NUL], Join(segs[1..], [NUL]));
  }

  /** Past a NUL the sentinel is read only if the next segment is the name and is closed. */
  lemma {:induction false} NoSentinelHere(rest: seq<string>, name: string)
    requires rest != [] && AllNulFree(rest) && NulFree(name)
    requires |rest| == 1 || rest[0] != name
    ensures !(Sentinel(name) <= [NUL] + Join(rest, [NUL]))
  {
    if |rest| == 1 {
      SentinelNeedsClosing(rest[0], name);
    } else {
      JoinUncons(rest);
      SentinelNeedsName(rest[0], Join(rest[1..], [NUL]), name);
    }
  }

  // ----- When every sentinel is expanded, and when one survives --------------------------------

  /** Expanding one wildcard everywhere: its parts are glued to what precedes them. */
  function Absorb(head: string, parts: seq<Part>, w: Atom): (r: (string, seq<Part>))
    decreases |parts|
  {
    if parts == [] then (head, [])
    else if parts[0].wild == w then Absorb(head + AtomText(w) + parts[0].lit, parts[1..], w)
    else var (h, t) := Absorb(parts[0].lit, parts[1..], w); (head, [Part(parts[0].wild, h)] + t)
  }

  /** Some text strictly between two wildcards is exactly `w`'s sentinel name, and the wildcard on its
      left is not `w`: the NULs of the two neighbours then read as a sentinel of `w`. */
  predicate Hit(parts: seq<Part>, w: Atom) {
    exists i :: 0 <= i < |parts| - 1 && parts[i].lit == Name(w) && parts[i].wild != w
  }

  function Full(head: string, parts: seq<Part>): string
    decreases |parts|
  {
    head + (if parts == [] then "" else AtomText(parts[0].wild) + Full(parts[0].lit, parts[1..]))
  }

  lemma {:induction false} FullIsText(atoms: seq<Atom>)
    ensures Full(Head(atoms), Parts(atoms)) == Text(atoms)
  {
    if atoms != [] {
      FullIsText(atoms[1..]);
      var rest := atoms[1..];
      if atoms[0].Chr? {
        FullGlue(EscapeChar(atoms[0].c), Head(rest), Parts(rest));
      } else {
        assert Parts(atoms)[1..] == Parts(rest);
      }
    }
  }

  lemma {:induction false} AbsorbKeepsFull(head: string, parts: seq<Part>, w: Atom)
    ensures var (h, t) := Absorb(head, parts, w); Full(h, t) == Full(head, parts)
    decreases |parts|
  {
    if parts != [] {
      if parts[0].wild == w {
        AbsorbKeepsFull(head + AtomText(w) + parts[0].lit, parts[1..], w);
        FullGlue(head + AtomText(w), parts[0].lit, parts[1..]);
      } else {
        AbsorbKeepsFull(parts[0].lit, parts[1..], w);
        var (h, t) := Absorb(parts[0].lit, parts[1..], w);
        assert ([Part(parts[0].wild, h)] + t)[1..] == t;
      }
    }
  }

  lemma {:induction false} FullGlue(a: string, b: string, parts: seq<Part>)
    ensures Full(a + b, parts) == a + Full(b, parts)
  {
    var z := if parts == [] then "" else AtomText(parts[0].wild) + Full(parts[0].lit, parts[1..]);
    Assoc(a, b, z);
  }

  lemma {:induction false} AbsorbRemoves(head: string, parts: seq<Part>, w: Atom, wilds: set<Atom>)
    requires WildsIn(parts, wilds)
    ensures WildsIn(Absorb(head, parts, w).1, wilds - {w})
    decreases |parts|
  {
    if parts != [] {
      if parts[0].wild == w {
        AbsorbRemoves(head + AtomText(w) + parts[0].lit, parts[1..], w, wilds);
      } else {
        AbsorbRemoves(parts[0].lit, parts[1..], w, wilds);
        var (h, t) := Absorb(parts[0].lit, parts[1..], w);
        assert WildsIn([Part(parts[0].wild, h)] + t, wilds - {w});
      }
    }
  }

  lemma HitUnfold(parts: seq<Part>, w: Atom)
    requires parts != []
    ensures Hit(parts, w) <==> (|parts| > 1 && parts[0].lit == Name(w) && parts[0].wild != w) || Hit(parts[1..], w)
  {
    var rest := parts[1..];
    if Hit(parts, w) {
      var i :| 0 <= i < |parts| - 1 && parts[i].lit == Name(w) && parts[i].wild != w;
      assert i > 0 ==> rest[i - 1] == parts[i];
    }
    if Hit(rest, w) {
      var i :| 0 <= i < |rest| - 1 && rest[i].lit == Name(w) && rest[i].wild != w;
      assert parts[i + 1] == rest[i];
    }
  }

  /** Without a hit the expansion is exact. */
  lemma {:induction false} CleanMerge(head: string, parts: seq<Part>, w: Atom)
    requires !w.Chr? && !Hit(parts, w)
    requires WildsIn(parts, WILDS)
    ensures var (h, t) := Absorb(head, parts, w); Merge(Segments(head, parts), Name(w), AtomText(w)) == Segments(h, t)
    decreases |parts|
  {
    if parts != [] {
      var n, l, rest := Name(parts[0].wild), parts[0].lit, parts[1..];
      HitUnfold(parts, w);
      SegmentsHead(l, rest);
      if parts[0].wild == w {
        CleanMerge(head + AtomText(w) + l, rest, w);
        MergeHit(head, n, Segments(l, rest), AtomText(w));
        SegmentsHead(head + AtomText(w) + l, rest);
      } else {
        CleanMerge(l, rest, w);
        MergeMissTwice(head, n, Segments(l, rest), Name(w), AtomText(w));
      }
    }
  }

  lemma {:induction false} SegmentsHead(head: string, parts: seq<Part>)
    ensures var s := Segments(head, parts);
            s[0] == head && (|s| == 1 <==> parts == []) && (parts != [] ==> |s| >= 3)
            && forall other :: Segments(other, parts) == [other] + s[1..]
  {
  }

  lemma {:induction false} MergeHit(s0: string, name: string, after: seq<string>, rep: string)
    requires after != []
    ensures Merge([s0, name] + after, name, rep) == Merge([s0 + rep + after[0]] + after[1..], name, rep)
  {
    var segs := [s0, name] + after;
    assert segs[1] == name && segs[2] == after[0] && segs[3..] == after[1..];
  }

  lemma {:induction false} MergeMissTwice(s0: string, n: string, after: seq<string>, name: string, rep: string)
    requires after != [] && n != name && (|after| > 1 ==> after[0] != name)
    ensures Merge([s0, n] + after, name, rep) == [s0, n] + Merge(after, name, rep)
  {
    var segs := [s0, n] + after;
    assert segs[1] == n && segs[1..] == [n] + after;
    assert ([n] + after)[1..] == after;
    assert [s0] + ([n] + Merge(after, name, rep)) == [s0, n] + Merge(after, name, rep);
  }

  /** The second way two wildcards collide: exactly `SINGLESTAR` between `?` and `*` or `?`. */
  predicate HitSingle(parts: seq<Part>) {
    exists i :: 0 <= i < |parts| - 1 && parts[i].lit == SINGLE && parts[i].wild == SegOne && parts[i + 1].wild != AnyRun
  }

  lemma HitSingleUnfold(parts: seq<Part>)
    requires parts != []
    ensures HitSingle(parts)
            <==> (|parts| > 1 && parts[0].lit == SINGLE && parts[0].wild == SegOne && parts[1].wild != AnyRun)
                 || HitSingle(parts[1..])
  {
    var rest := parts[1..];
    if HitSingle(parts) {
      var i :| 0 <= i < |parts| - 1 && parts[i].lit == SINGLE && parts[i].wild == SegOne && parts[i + 1].wild != AnyRun;
      assert i > 0 ==> rest[i - 1] == parts[i] && rest[i] == parts[i + 1];
    }
    if HitSingle(rest) {
      var i :| 0 <= i < |rest| - 1 && rest[i].lit == SINGLE && rest[i].wild == SegOne && rest[i + 1].wild != AnyRun;
      assert parts[i + 1] == rest[i] && parts[i + 2] == rest[i + 1];
    }
  }

  /** Gluing marks the glued text with the expansion's dot. */
  lemma {:induction false} AbsorbHead(head: string, parts: seq<Part>)
    ensures var (h, t) := Absorb(head, parts, AnyRun);
            ('.' in head ==> '.' in h)
            && (if parts == [] || parts[0].wild != AnyRun then h == head && |t| <= |parts| && (parts == [] <==> t == []) else '.' in h)
    decreases |parts|
  {
    if parts != [] && parts[0].wild == AnyRun {
      var glued := head + AtomText(AnyRun) + parts[0].lit;
      assert glued[|head|] == '.';
      AbsorbHead(glued, parts[1..]);
    } else if parts != [] {
      AbsorbHead(parts[0].lit, parts[1..]);
      AbsorbLength(parts[0].lit, parts[1..], AnyRun);
    }
  }

  lemma {:induction false} AbsorbLength(head: string, parts: seq<Part>, w: Atom)
    ensures |Absorb(head, parts, w).1| <= |parts|
    decreases |parts|
  {
    if parts != [] {
      AbsorbLength(if parts[0].wild == w then head + AtomText(w) + parts[0].lit else parts[0].lit, parts[1..], w);
    }
  }

  lemma {:induction false} HitsAfterAbsorb(head: string, parts: seq<Part>)
    requires WildsIn(parts, WILDS)
    ensures Hit(Absorb(head, parts, AnyRun).1, SegRun) <==> HitSingle(parts)
    decreases |parts|
  {
    if parts != [] {
      var p, rest := parts[0], parts[1..];
      HitSingleUnfold(parts);
      if p.wild == AnyRun {
        HitsAfterAbsorb(head + AtomText(AnyRun) + p.lit, rest);
      } else {
        HitsAfterAbsorb(p.lit, rest);
        AbsorbHead(p.lit, rest);
        var (h, t) := Absorb(p.lit, rest, AnyRun);
        var all := [Part(p.wild, h)] + t;
        assert all[1..] == t;
        HitUnfold(all, SegRun);
      }
    }
  }

  /** A segment that holds expansion text can never again be read as a sentinel name. */
  predicate Tainted(s: string) {
    '.' in s || '[' in s
  }

  predicate TaintAt(segs: seq<string>, parity: int) {
    exists k :: 0 <= k < |segs| && k % 2 == parity && Tainted(segs[k])
  }

  lemma TaintAtIndex(segs: seq<string>, k: int)
    requires 0 <= k < |segs| && Tainted(segs[k])
    ensures TaintAt(segs, k % 2)
  {
  }

  /** Gluing moves segments by two places, so a tainted segment keeps the parity of its place. */
  lemma {:induction false} TaintPersists(segs: seq<string>, parity: int, name: string, rep: string)
    requires segs != [] && TaintAt(segs, parity) && !Tainted(name)
    ensures TaintAt(Merge(segs, name, rep), parity)
    decreases |segs|
  {
    if |segs| >= 3 {
      var k :| 0 <= k < |segs| && k % 2 == parity && Tainted(segs[k]);
      if segs[1] == name {
        var glued := [segs[0] + rep + segs[2]] + segs[3..];
        if k <= 2 {
          assert Tainted(glued[0]);
          TaintAtIndex(glued, 0);
        } else {
          assert glued[k - 2] == segs[k];
          TaintAtIndex(glued, k - 2);
        }
        TaintPersists(glued, parity, name, rep);
      } else {
        var rest := segs[1..];
        var m := Merge(rest, name, rep);
        if k == 0 {
          TaintAtIndex([segs[0]] + m, 0);
        } else {
          assert rest[k - 1] == segs[k];
          TaintAtIndex(rest, k - 1);
          TaintPersists(rest, 1 - parity, name, rep);
          TaintShift(segs[0], m, 1 - parity);
        }
      }
    }
  }

  lemma TaintShift(s: string, segs: seq<string>, parity: int)
    requires TaintAt(segs, parity) && (parity == 0 || parity == 1)
    ensures TaintAt([s] + segs, 1 - parity)
  {
    var k :| 0 <= k < |segs| && k % 2 == parity && Tainted(segs[k]);
    TaintAtIndex([s] + segs, k + 1);
  }

  /** A hit glues two wildcard names together with expansion text, at an odd place. */
  /** A wildcard is written as its name between NULs. */
  lemma {:induction false} SegmentsCons(head: string, parts: seq<Part>)
    requires parts != []
    ensures Segments(head, parts) == [head, Name(parts[0].wild)] + Segments(parts[0].lit, parts[1..])
  {
  }

  lemma {:induction false} HitGlues(head: string, parts: seq<Part>, w: Atom)
    requires |parts| > 1 && WildsIn(parts, WILDS) && !w.Chr?
    requires parts[0].wild != w && parts[0].lit == Name(w)
    ensures TaintAt(Merge(Segments(head, parts), Name(w), AtomText(w)), 1)
  {
    var l, rest := parts[0].lit, parts[1..];
    SegmentsCons(head, parts);
    SegmentsHead(l, rest);
    GluedNamesTaint(head, Name(parts[0].wild), Segments(l, rest), Name(w), AtomText(w));
  }

  lemma {:induction false} HitAbsorbed(head: string, parts: seq<Part>, w: Atom)
    requires parts != [] && parts[0].wild == w && !w.Chr?
    requires TaintAt(Merge(Segments(head + AtomText(w) + parts[0].lit, parts[1..]), Name(w), AtomText(w)), 1)
    ensures TaintAt(Merge(Segments(head, parts), Name(w), AtomText(w)), 1)
  {
    var l, rest, rep := parts[0].lit, parts[1..], AtomText(w);
    SegmentsCons(head, parts);
    SegmentsHead(l, rest);
    MergeHit(head, Name(w), Segments(l, rest), rep);
    SegmentsHead(head + rep + l, rest);
  }

  lemma {:induction false} HitPassed(head: string, parts: seq<Part>, w: Atom)
    requires parts != [] && WildsIn(parts, WILDS) && !w.Chr? && parts[0].wild != w
    requires parts[0].lit == Name(w) ==> |parts| == 1
    requires TaintAt(Merge(Segments(parts[0].lit, parts[1..]), Name(w), AtomText(w)), 1)
    ensures TaintAt(Merge(Segments(head, parts), Name(w), AtomText(w)), 1)
  {
    var l, rest, rep := parts[0].lit, parts[1..], AtomText(w);
    SegmentsCons(head, parts);
    SegmentsHead(l, rest);
    MergeMissTwice(head, Name(parts[0].wild), Segments(l, rest), Name(w), rep);
    TaintPastTwo(head, Name(parts[0].wild), Merge(Segments(l, rest), Name(w), rep));
  }

  lemma {:induction false} HitTaints(head: string, parts: seq<Part>, w: Atom)
    requires !w.Chr? && Hit(parts, w)
    requires WildsIn(parts, WILDS)
    ensures TaintAt(Merge(Segments(head, parts), Name(w), AtomText(w)), 1)
    decreases |parts|
  {
    var l, rest := parts[0].lit, parts[1..];
    HitUnfold(parts, w);
    if |parts| > 1 && parts[0].wild != w && l == Name(w) {
      HitGlues(head, parts, w);
    } else if parts[0].wild == w {
      HitTaints(head + AtomText(w) + l, rest, w);
      HitAbsorbed(head, parts, w);
    } else {
      HitTaints(l, rest, w);
      HitPassed(head, parts, w);
    }
  }

  lemma TaintPastTwo(a: string, b: string, segs: seq<string>)
    requires TaintAt(segs, 1)
    ensures TaintAt([a, b] + segs, 1)
  {
    var k :| 0 <= k < |segs| && k % 2 == 1 && Tainted(segs[k]);
    TaintAtIndex([a, b] + segs, k + 2);
  }

  lemma {:induction false} GlueStep(n: string, after: seq<string>, name: string, rep: string)
    requires |after| >= 2 && after[0] == name
    ensures Merge([n] + after, name, rep) == Merge([n + rep + after[1]] + after[2..], name, rep)
  {
    var inner := [n] + after;
    assert inner[1] == name && inner[2] == after[1] && inner[3..] == after[2..];
  }

  lemma {:induction false} MergeMissOnce(s0: string, n: string, after: seq<string>, name: string, rep: string)
    requires n != name
    ensures Merge([s0, n] + after, name, rep) == [s0] + Merge([n] + after, name, rep)
  {
    assert ([s0, n] + after)[1..] == [n] + after;
  }

  lemma {:induction false} GluedNamesTaint(head: string, n: string, after: seq<string>, name: string, rep: string)
    requires |after| >= 2 && after[0] == name
    requires n != name && !Tainted(name) && rep != "" && Tainted([rep[0]])
    ensures TaintAt(Merge([head, n] + after, name, rep), 1)
  {
    var glued := [n + rep + after[1]] + after[2..];
    GlueStep(n, after, name, rep);
    MergeMissOnce(head, n, after, name, rep);
    assert glued[0][|n|] == rep[0];
    TaintAtIndex(glued, 0);
    TaintPersists(glued, 0, name, rep);
    TaintShift(head, Merge(glued, name, rep), 0);
  }

  // ----- The producer's compiler ---------------------------------------------------------------

  lemma {:induction false} FlatIsJoin(atoms: seq<Atom>)
    ensures Flat(atoms, Sentinel(DOUBLE), Sentinel(SINGLE), Sentinel(QMARK))
            == Join(Segments(Head(atoms), Parts(atoms)), [NUL])
  {
    if atoms != [] {
      var rest := atoms[1..];
      FlatIsJoin(rest);
      var inner := Segments(Head(rest), Parts(rest));
      SegmentsHead(Head(rest), Parts(rest));
      if atoms[0].Chr? {
        assert inner == [inner[0]] + inner[1..];
        JoinGlue(EscapeChar(atoms[0].c), inner[0], inner[1..]);
      } else {
        assert Parts(atoms)[1..] == Parts(rest);
        JoinSentinel(Name(atoms[0]), inner);
      }
    }
  }

  lemma {:induction false} SegmentsNulFree(atoms: seq<Atom>)
    requires Clean(atoms)
    ensures AllNulFree(Segments(Head(atoms), Parts(atoms)))
  {
    if atoms != [] {
      var rest := atoms[1..];
      SegmentsNulFree(rest);
      var inner := Segments(Head(rest), Parts(rest));
      SegmentsHead(Head(rest), Parts(rest));
      if atoms[0].Chr? {
        assert NulFree(inner[0]);
        assert AllNulFree([EscapeChar(atoms[0].c) + inner[0]] + inner[1..]);
      } else {
        assert Parts(atoms)[1..] == Parts(rest);
        assert AllNulFree(["", Name(atoms[0])] + inner);
      }
    }
  }

  lemma {:induction false} JoinSentinel(n: string, inner: seq<string>)
    requires inner != []
    ensures Join(["", n] + inner, [NUL]) == Sentinel(n) + Join(inner, [NUL])
  {
    JoinUncons(["", n] + inner);
    assert (["", n] + inner)[1..] == [n] + inner;
    JoinCons(n, inner);
    SentinelThen(n, Join(inner, [NUL]));
  }

  /** Two wildcards of the pattern collide through the text between them. Letters are never escaped, so
      in pattern text: `*` or `?`, then exactly `DOUBLESTAR`, then any wildcard; or `?`, then exactly
      `SINGLESTAR`, then `*` or `?`. */
  predicate Collides(p: string) {
    var parts := Parts(Tokenize(p));
    Hit(parts, AnyRun) || HitSingle(parts)
  }

  /** The three expansions on segments. */
  function Expanded(segs: seq<string>): seq<string>
    requires segs != []
  {
    Merge(Merge(Merge(segs, DOUBLE, ".*"), SINGLE, "[^/]*"), QMARK, "[^/]")
  }

  lemma {:induction false} ExpandedClean(head: string, parts: seq<Part>)
    requires WildsIn(parts, WILDS)
    requires !Hit(parts, AnyRun) && !HitSingle(parts)
    ensures Expanded(Segments(head, parts)) == [Full(head, parts)]
  {
    var (h1, t1) := Absorb(head, parts, AnyRun);
    var (h2, t2) := Absorb(h1, t1, SegRun);
    var (h3, t3) := Absorb(h2, t2, SegOne);
    AbsorbKeepsFull(head, parts, AnyRun);
    AbsorbKeepsFull(h1, t1, SegRun);
    AbsorbKeepsFull(h2, t2, SegOne);
    AbsorbRemoves(head, parts, AnyRun, WILDS);
    AbsorbRemoves(h1, t1, SegRun, {SegRun, SegOne});
    AbsorbRemoves(h2, t2, SegOne, {SegOne});
    CleanMerge(head, parts, AnyRun);
    HitsAfterAbsorb(head, parts);
    CleanMerge(h1, t1, SegRun);
    CleanMerge(h2, t2, SegOne);
    assert Full(h3, []) == h3 + "" == h3;
  }

  lemma {:induction false} ExpandedCollides(head: string, parts: seq<Part>)
    requires WildsIn(parts, WILDS)
    requires Hit(parts, AnyRun) || HitSingle(parts)
    ensures |Expanded(Segments(head, parts))| > 1
  {
    if Hit(parts, AnyRun) {
      DoubleTaints(head, parts);
    } else {
      SingleTaints(head, parts);
    }
    TaintPersists(Merge(Merge(Segments(head, parts), DOUBLE, ".*"), SINGLE, "[^/]*"), 1, QMARK, "[^/]");
  }

  lemma {:induction false} DoubleTaints(head: string, parts: seq<Part>)
    requires WildsIn(parts, WILDS) && Hit(parts, AnyRun)
    ensures TaintAt(Merge(Merge(Segments(head, parts), DOUBLE, ".*"), SINGLE, "[^/]*"), 1)
  {
    HitTaints(head, parts, AnyRun);
    TaintPersists(Merge(Segments(head, parts), DOUBLE, ".*"), 1, SINGLE, "[^/]*");
  }

  lemma {:induction false} SingleTaints(head: string, parts: seq<Part>)
    requires WildsIn(parts, WILDS)
    requires !Hit(parts, AnyRun) && HitSingle(parts)
    ensures TaintAt(Merge(Merge(Segments(head, parts), DOUBLE, ".*"), SINGLE, "[^/]*"), 1)
  {
    var (h1, t1) := Absorb(head, parts, AnyRun);
    CleanMerge(head, parts, AnyRun);
    HitsAfterAbsorb(head, parts);
    AbsorbRemoves(head, parts, AnyRun, WILDS);
    HitTaints(h1, t1, SegRun);
  }

  lemma {:induction false} ProducerOnSegments(p: string)
    requires NulFree(p)
    ensures var ts := Tokenize(p);
            ProducerRegex(p) == Join(Expanded(Segments(Head(ts), Parts(ts))), [NUL])
  {
    var ts := Tokenize(p);
    TokensAreClean(p);
    PairStage(p);
    StarStage(ts, Sentinel(DOUBLE), "?", Sentinel(SINGLE));
    QuestionStage(ts, Sentinel(DOUBLE), Sentinel(SINGLE), Sentinel(QMARK));
    FlatIsJoin(ts);
    SegmentsNulFree(ts);
    var segs := Segments(Head(ts), Parts(ts));
    ReplaceIsMerge(segs, DOUBLE, ".*");
    ReplaceIsMerge(Merge(segs, DOUBLE, ".*"), SINGLE, "[^/]*");
    ReplaceIsMerge(Merge(Merge(segs, DOUBLE, ".*"), SINGLE, "[^/]*"), QMARK, "[^/]");
  }

  /** For every NUL-free pattern the producer emits the verifier's expression exactly when no two
      wildcards collide; when two do, a NUL of a sentinel is left in its expression. */
  lemma ProducerEqualsVerifier(p: string)
    requires NulFree(p)
    ensures ProducerRegex(p) == VerifierRegex(p) <==> !Collides(p)
    ensures Collides(p) <==> NUL in ProducerRegex(p)
  {
    var ts := Tokenize(p);
    var head, parts := Head(ts), Parts(ts);
    TokensAreClean(p);
    VerifierCompilesTokens(p);
    TextNulFree(ts);
    ProducerOnSegments(p);
    FullIsText(ts);
    if Collides(p) {
      ExpandedCollides(head, parts);
      JoinUncons(Expanded(Segments(head, parts)));
    } else {
      ExpandedClean(head, parts);
    }
  }

  lemma {:induction false} TextNulFree(atoms: seq<Atom>)
    requires Clean(atoms)
    ensures NUL !in Text(atoms)
  {
    if atoms != [] {
      TextNulFree(atoms[1..]);
    }
  }

  // ----- What the compiled rules accept --------------------------------------------------------

  /** Each side's `pathMatchesAny(path, [pattern])`. */
  predicate ProducerMatches(p: string, path: string) {
    RegexMatches(ProducerRegex(p), path)
  }

  predicate VerifierMatches(p: string, path: string) {
    RegexMatches(VerifierRegex(p), path)
  }

  lemma {:induction false} ParseKeepsNul(re: string)
    requires NUL in re && ParseRegex(re).Some?
    ensures Chr(NUL) in ParseRegex(re).value
  {
    if re[0] == '\\' {
      assert re == re[..2] + re[2..];
      if re[1] != NUL { ParseKeepsNul(re[2..]); }
    } else if "[^/]*" <= re {
      assert re == "[^/]*" + re[5..];
      ParseKeepsNul(re[5..]);
    } else if "[^/]" <= re {
      assert re == "[^/]" + re[4..];
      ParseKeepsNul(re[4..]);
    } else if ".*" <= re {
      assert re == ".*" + re[2..];
      ParseKeepsNul(re[2..]);
    } else if re[0] != NUL {
      ParseKeepsNul(re[1..]);
    }
  }

  lemma {:induction false} MatchNeedsChars(atoms: seq<Atom>, path: string, c: char)
    requires Match(atoms, path) && Chr(c) in atoms
    ensures c in path
    decreases |atoms|, |path|
  {
    match atoms[0] {
      case Chr(d) => if d != c { MatchNeedsChars(atoms[1..], path[1..], c); }
      case SegOne => MatchNeedsChars(atoms[1..], path[1..], c);
      case _ =>
        if Match(atoms[1..], path) {
          MatchNeedsChars(atoms[1..], path, c);
        } else {
          MatchNeedsChars(atoms, path[1..], c);
        }
    }
  }

  /** A path every glob accepts: its characters, nothing for a run, `x` for `?`. */
  function Sample(atoms: seq<Atom>): string {
    if atoms == [] then ""
    else (match atoms[0] case Chr(c) => [c] case SegOne => "x" case _ => "") + Sample(atoms[1..])
  }

  lemma {:induction false} SampleMatches(atoms: seq<Atom>)
    ensures Match(atoms, Sample(atoms))
    ensures Clean(atoms) ==> NulFree(Sample(atoms))
  {
    if atoms != [] {
      SampleMatches(atoms[1..]);
      var s := Sample(atoms[1..]);
      match atoms[0] {
        case Chr(c) => assert ([c] + s)[1..] == s;
        case SegOne => assert ("x" + s)[1..] == s;
        case _ => assert "" + s == s;
      }
    }
  }

  /** The verifier's rule fires on a path exactly when the glob, read in one pass, matches it. */
  lemma {:induction false} VerifierMatchesGlob(p: string, path: string)
    requires NulFree(p)
    ensures VerifierMatches(p, path) <==> Match(Tokenize(p), path)
  {
    VerifierCompilesTokens(p);
  }

  /** Git paths hold no NUL. On those, a colliding pattern's rule never fires for the producer. */
  lemma CollidingRuleNeverFires(p: string, path: string)
    requires NulFree(p) && NulFree(path) && Collides(p)
    ensures !ProducerMatches(p, path)
  {
    ProducerEqualsVerifier(p);
    if ProducerMatches(p, path) {
      ParseKeepsNul(ProducerRegex(p));
      MatchNeedsChars(ParseRegex(ProducerRegex(p)).value, path, NUL);
    }
  }

  /** The two copies gate the same paths exactly when no two wildcards of the pattern collide. */
  lemma SidesAgreeUnlessCollision(p: string)
    requires NulFree(p)
    ensures (forall path :: NulFree(path) ==> (ProducerMatches(p, path) <==> VerifierMatches(p, path))) <==> !Collides(p)
  {
    ProducerEqualsVerifier(p);
    if Collides(p) {
      var path := Sample(Tokenize(p));
      TokensAreClean(p);
      SampleMatches(Tokenize(p));
      VerifierMatchesGlob(p, path);
      CollidingRuleNeverFires(p, path);
    }
  }

  /** A text without wildcard characters, as elements. */
  function Literals(s: string): seq<Atom> {
    if s == "" then [] else [Chr(s[0])] + Literals(s[1..])
  }

  predicate WildcardFree(s: string) {
    '*' !in s && '?' !in s
  }

  lemma {:induction false} TokenizeChr(p: string)
    requires p != "" && p[0] != '*' && p[0] != '?'
    ensures Tokenize(p) == [Chr(p[0])] + Tokenize(p[1..])
  {
  }

  lemma {:induction false} LiteralTokens(s: string, p: string)
    requires WildcardFree(s)
    ensures Tokenize(s + p) == Literals(s) + Tokenize(p)
  {
    var sp := s + p;
    if s == [] {
      assert sp == p;
    } else {
      var t := s[1..];
      LiteralTokens(t, p);
      assert sp[0] == s[0] && sp[1..] == t + p;
      TokenizeChr(sp);
      Assoc([Chr(s[0])], Literals(t), Tokenize(p));
    }
  }

  lemma {:induction false} LiteralHead(s: string, atoms: seq<Atom>)
    requires atoms != [] && !atoms[0].Chr?
    ensures Head(Literals(s) + atoms) == Escape(s) && Parts(Literals(s) + atoms) == Parts(atoms)
  {
    var all := Literals(s) + atoms;
    if s != [] {
      LiteralHead(s[1..], atoms);
      assert all[1..] == Literals(s[1..]) + atoms;
    } else {
      assert all == atoms;
    }
  }

  lemma {:induction false} LiteralSample(s: string, atoms: seq<Atom>)
    ensures Sample(Literals(s) + atoms) == s + Sample(atoms)
  {
    var all := Literals(s) + atoms;
    if s != [] {
      LiteralSample(s[1..], atoms);
      assert all[1..] == Literals(s[1..]) + atoms;
      assert s == [s[0]] + s[1..];
    } else {
      assert all == atoms;
    }
  }

  /** After a literal prefix only the rest of the path matters. */
  lemma {:induction false} LiteralMatch(s: string, atoms: seq<Atom>, path: string)
    ensures Match(Literals(s) + atoms, path) <==> s <= path && Match(atoms, path[|s|..])
  {
    var all := Literals(s) + atoms;
    if s == [] {
      assert all == atoms && path[0..] == path;
    } else {
      assert all[0] == Chr(s[0]) && all[1..] == Literals(s[1..]) + atoms;
      if path != [] && path[0] == s[0] {
        var rest := path[1..];
        LiteralMatch(s[1..], atoms, rest);
        assert path == [s[0]] + rest && s == [s[0]] + s[1..];
        if |rest| >= |s[1..]| {
          assert rest[|s[1..]|..] == path[|s|..];
        }
      }
    }
  }

  /** A word between two single stars. */
  function Starred(word: string): string {
    "*" + (word + "*")
  }

  lemma {:induction false} StarredTokens(word: string)
    requires WildcardFree(word) && NulFree(word) && word != ""
    ensures NulFree(Starred(word)) && Tokenize(Starred(word)) == [SegRun] + (Literals(word) + [SegRun])
  {
    var p := Starred(word);
    LiteralTokens(word, "*");
    assert Tokenize("*") == [SegRun];
    assert p[1..] == word + "*" && p[1] == word[0];
  }

  lemma {:induction false} StarredWord(word: string)
    requires WildcardFree(word) && NulFree(word) && word != ""
    ensures NulFree(Starred(word)) && VerifierMatches(Starred(word), word)
    ensures Parts(Tokenize(Starred(word))) == [Part(SegRun, Escape(word)), Part(SegRun, "")]
  {
    var ts := Literals(word) + [SegRun];
    var all := [SegRun] + ts;
    StarredTokens(word);
    assert all[1..] == ts;
    LiteralHead(word, [SegRun]);
    SampleMatches(all);
    LiteralSample(word, [SegRun]);
    assert Sample(all) == word;
    VerifierMatchesGlob(Starred(word), word);
  }

  lemma {:induction false} EscapePlain(word: string)
    requires forall i :: 0 <= i < |word| ==> !Special(word[i])
    ensures Escape(word) == word
  {
    if word != "" {
      EscapePlain(word[1..]);
    }
  }

  /** A pattern on which the copies differ: `*DOUBLESTAR*` gates the path `DOUBLESTAR` for the verifier
      only. */
  lemma CollisionExample(word: string)
    requires word == DOUBLE
    ensures Collides(Starred(word))
    ensures VerifierMatches(Starred(word), word) && !ProducerMatches(Starred(word), word)
  {
    DoubleIsPlain(word);
    StarredWord(word);
    EscapePlain(word);
    StarredCollides(word, Parts(Tokenize(Starred(word))));
    CollidingRuleNeverFires(Starred(word), word);
  }

  lemma DoubleIsPlain(word: string)
    requires word == DOUBLE
    ensures WildcardFree(word) && NulFree(word) && word != "" && forall i :: 0 <= i < |word| ==> !Special(word[i])
  {
  }

  lemma StarredCollides(word: string, parts: seq<Part>)
    requires word == DOUBLE && parts == [Part(SegRun, word), Part(SegRun, "")]
    ensures Hit(parts, AnyRun)
  {
    assert parts[0].lit == Name(AnyRun);
  }

  /** With at most one wildcard nothing can collide, and the copies are one. */
  lemma {:induction false} OneWildcard(p: string)
    requires NulFree(p) && |Parts(Tokenize(p))| <= 1
    ensures !Collides(p) && ProducerRegex(p) == VerifierRegex(p)
  {
    ProducerEqualsVerifier(p);
  }

  lemma {:induction false} NoParts(s: string)
    ensures Parts(Literals(s)) == []
  {
    if s != "" {
      NoParts(s[1..]);
    }
  }

  /** A pattern without wildcards gates exactly the path it spells, on both sides. */
  lemma LiteralPattern(p: string, path: string)
    requires NulFree(p) && WildcardFree(p)
    ensures VerifierMatches(p, path) <==> path == p
    ensures ProducerMatches(p, path) <==> path == p
  {
    VerifierMatchesGlob(p, path);
    LiteralTokens(p, "");
    assert p + "" == p && Literals(p) + [] == Literals(p);
    NoParts(p);
    OneWildcard(p);
    LiteralMatch(p, [], path);
    assert p <= path && path[|p|..] == [] ==> path == p;
  }

  lemma {:induction false} PrefixTokens(prefix: string)
    requires WildcardFree(prefix)
    ensures Tokenize(prefix + "**") == Literals(prefix) + [AnyRun]
    ensures |Parts(Tokenize(prefix + "**"))| == 1
  {
    LiteralTokens(prefix, "**");
    assert Tokenize("**") == [AnyRun];
    LiteralHead(prefix, [AnyRun]);
    assert [AnyRun][1..] == [];
  }

  // A prefix followed by `**` gates exactly the paths with that prefix and no line terminator after
  // it, on both sides.
  lemma PrefixPattern(prefix: string, path: string)
    requires NulFree(prefix) && WildcardFree(prefix)
    ensures VerifierMatches(prefix + "**", path)
            <==> prefix <= path && forall i :: |prefix| <= i < |path| ==> !LineTerminator(path[i])
    ensures ProducerMatches(prefix + "**", path) <==> VerifierMatches(prefix + "**", path)
  {
    VerifierMatchesGlob(prefix + "**", path);
    PrefixTokens(prefix);
    OneWildcard(prefix + "**");
    LiteralMatch(prefix, [AnyRun], path);
    if prefix <= path {
      var rest := path[|prefix|..];
      AnyRunMatch(rest);
      assert forall i :: 0 <= i < |rest| ==> rest[i] == path[i + |prefix|];
      assert forall i :: |prefix| <= i < |path| ==> path[i] == rest[i - |prefix|];
    }
  }

  lemma {:induction false} AnyRunMatch(path: string)
    ensures Match([AnyRun], path) <==> forall i :: 0 <= i < |path| ==> !LineTerminator(path[i])
  {
    assert [AnyRun][1..] == [];
    if path != [] {
      AnyRunMatch(path[1..]);
      assert forall i :: 1 <= i < |path| ==> path[i] == path[1..][i - 1];
      assert forall i :: 0 <= i < |path| - 1 ==> path[1..][i] == path[i + 1];
    }
  }

  function Slashes(s: string): nat {
    if s == [] then 0 else (if s[0] == '/' then 1 else 0) + Slashes(s[1..])
  }

  function SlashAtoms(atoms: seq<Atom>): nat {
    if atoms == [] then 0 else (if atoms[0] == Chr('/') then 1 else 0) + SlashAtoms(atoms[1..])
  }

  /** Without `**` a glob gates only paths of its own depth. */
  lemma {:induction false} SegmentsKeepDepth(atoms: seq<Atom>, path: string)
    requires AnyRun !in atoms && Match(atoms, path)
    ensures Slashes(path) == SlashAtoms(atoms)
    decreases |atoms|, |path|
  {
    if atoms != [] {
      match atoms[0] {
        case SegRun =>
          if Match(atoms[1..], path) {
            SegmentsKeepDepth(atoms[1..], path);
          } else {
            SegmentsKeepDepth(atoms, path[1..]);
          }
        case AnyRun => assert false;
        case Chr(_) => SegmentsKeepDepth(atoms[1..], path[1..]);
        case SegOne => SegmentsKeepDepth(atoms[1..], path[1..]);
      }
    }
  }

  lemma {:induction false} TokensKeepSlashes(p: string)
    ensures SlashAtoms(Tokenize(p)) == Slashes(p)
  {
    if p != [] {
      if "**" <= p {
        TokensKeepSlashes(p[2..]);
        assert p[1..][1..] == p[2..] && p[1] == '*';
      } else {
        TokensKeepSlashes(p[1..]);
      }
    }
  }

  /** A pattern without `**` gates, on both sides, only paths of its own depth. */
  lemma {:induction false} DepthPreserved(p: string, path: string)
    requires NulFree(p) && AnyRun !in Tokenize(p)
    ensures VerifierMatches(p, path) ==> Slashes(path) == Slashes(p)
    ensures ProducerMatches(p, path) && NulFree(path) ==> Slashes(path) == Slashes(p)
  {
    if NulFree(path) {
      MatchedByBoth(p, path);
    }
    if VerifierMatches(p, path) {
      VerifierMatchesGlob(p, path);
      SegmentsKeepDepth(Tokenize(p), path);
      TokensKeepSlashes(p);
    }
  }

  /** What the producer matches the verifier matches: a collision only takes matches away. */
  lemma MatchedByBoth(p: string, path: string)
    requires NulFree(p) && NulFree(path)
    ensures ProducerMatches(p, path) ==> VerifierMatches(p, path)
  {
    ProducerEqualsVerifier(p);
    if Collides(p) {
      CollidingRuleNeverFires(p, path);
    }
  }

  // ----- The producer's expression is always inside the fragment -------------------------------

  ghost predicate Readable(s: string) {
    exists atoms :: Plain(atoms) && Text(atoms) == s
  }

  lemma ReadableConcat(a: string, b: string)
    requires Readable(a) && Readable(b)
    ensures Readable(a + b)
  {
    var x :| Plain(x) && Text(x) == a;
    var y :| Plain(y) && Text(y) == b;
    TextDistributes(x, y);
    assert Plain(x + y);
  }

  lemma {:induction false} ReadableEscape(s: string)
    requires WildcardFree(s)
    ensures Plain(Literals(s)) && Text(Literals(s)) == Escape(s)
  {
    if s != "" {
      ReadableEscape(s[1..]);
    }
  }

  lemma ReadableOne(a: Atom)
    requires a != Chr('*') && a != Chr('?')
    ensures Readable(AtomText(a))
  {
    assert Plain([a]);
    assert Text([a]) == AtomText(a) + "" == AtomText(a);
  }

  lemma ReadableWord(word: string)
    requires forall i :: 0 <= i < |word| ==> !Special(word[i]) && word[i] != '*' && word[i] != '?'
    ensures Readable(word)
  {
    ReadableEscape(word);
    EscapePlain(word);
  }

  lemma ReadableName(w: Atom)
    ensures Readable(Name(w))
  {
    var word := Name(w);
    assert forall i :: 0 <= i < |word| ==> !Special(word[i]) && word[i] != '*' && word[i] != '?';
    ReadableWord(word);
  }

  ghost predicate AllReadable(segs: seq<string>) {
    forall i :: 0 <= i < |segs| ==> Readable(segs[i])
  }

  lemma {:induction false} MergeReadable(segs: seq<string>, name: string, rep: string)
    requires segs != [] && AllReadable(segs) && Readable(rep)
    ensures AllReadable(Merge(segs, name, rep))
    decreases |segs|
  {
    if |segs| >= 3 {
      if segs[1] == name {
        ReadableConcat(segs[0], rep);
        ReadableConcat(segs[0] + rep, segs[2]);
        MergeReadable([segs[0] + rep + segs[2]] + segs[3..], name, rep);
      } else {
        MergeReadable(segs[1..], name, rep);
      }
    }
  }

  lemma {:induction false} JoinReadable(segs: seq<string>)
    requires segs != [] && AllReadable(segs)
    ensures Readable(Join(segs, [NUL]))
  {
    if |segs| > 1 {
      JoinReadable(segs[1..]);
      JoinUncons(segs);
      ReadableOne(Chr(NUL));
      ReadableConcat([NUL], Join(segs[1..], [NUL]));
      ReadableConcat(segs[0], [NUL] + Join(segs[1..], [NUL]));
    }
  }

  lemma ReadableGrow(a: string, segs: seq<string>)
    requires Readable(a) && AllReadable(segs) && segs != []
    ensures AllReadable([a + segs[0]] + segs[1..])
  {
    assert Readable(segs[0]);
    ReadableConcat(a, segs[0]);
  }

  lemma ReadableTwo(name: string, segs: seq<string>)
    requires Readable(name) && AllReadable(segs)
    ensures AllReadable(["", name] + segs)
  {
    assert Plain([]) && Text([]) == "";
  }

  lemma {:induction false} SegmentsGrow(a: string, head: string, parts: seq<Part>)
    ensures Segments(a + head, parts) == [a + Segments(head, parts)[0]] + Segments(head, parts)[1..]
  {
  }

  lemma {:induction false} SegmentsReadable(atoms: seq<Atom>)
    requires Plain(atoms)
    ensures AllReadable(Segments(Head(atoms), Parts(atoms)))
  {
    if atoms == [] {
      assert Plain([]) && Text([]) == "";
    } else {
      var rest := atoms[1..];
      SegmentsReadable(rest);
      SegmentsHead(Head(rest), Parts(rest));
      if atoms[0].Chr? {
        ReadableOne(atoms[0]);
        ReadableGrow(EscapeChar(atoms[0].c), Segments(Head(rest), Parts(rest)));
        SegmentsGrow(EscapeChar(atoms[0].c), Head(rest), Parts(rest));
      } else {
        ReadableName(atoms[0]);
        ReadableTwo(Name(atoms[0]), Segments(Head(rest), Parts(rest)));
      }
    }
  }

  /** A collision does not make the expression invalid: the producer silently gets another one. */
  lemma ProducerRegexIsValid(p: string)
    requires NulFree(p)
    ensures ParseRegex(ProducerRegex(p)).Some?
  {
    var ts := Tokenize(p);
    TokensAreClean(p);
    ProducerOnSegments(p);
    SegmentsReadable(ts);
    ReadableOne(AnyRun);
    ReadableOne(SegRun);
    ReadableOne(SegOne);
    var segs := Segments(Head(ts), Parts(ts));
    MergeReadable(segs, DOUBLE, ".*");
    MergeReadable(Merge(segs, DOUBLE, ".*"), SINGLE, "[^/]*");
    MergeReadable(Merge(Merge(segs, DOUBLE, ".*"), SINGLE, "[^/]*"), QMARK, "[^/]");
    JoinReadable(Expanded(segs));
    var atoms :| Plain(atoms) && Text(atoms) == ProducerRegex(p);
    ParseText(atoms);
  }
}
