/**
 * Source specs and persona URLs of `stamp reviewers fetch` (src/commands/reviewers.ts), and what
 * RFC 3986 makes of the URLs.
 */
module SourceSpec {
  import opened Results
  import opened Strings

  // ----- source@ref ----------------------------------------------------------------------------

  /** `FETCH_REF_RE`. */
  predicate RefShape(ref: string) {
    && ref != "" && Alnum(ref[0])
    && forall i :: 0 <= i < |ref| ==> Alnum(ref[i]) || ref[i] in "._/-"
  }

  /** `validateFetchRef`: the shape, and no `..` or empty segment. */
  predicate ValidRef(ref: string) {
    && RefShape(ref)
    && forall i :: 0 <= i < |Split(ref, '/')| ==> Split(ref, '/')[i] != ".." && Split(ref, '/')[i] != ""
  }

  /** `from.lastIndexOf("@")`, or the length when there is none. */
  function LastAt(from: string): (n: nat)
    ensures n <= |from| && (n < |from| ==> from[n] == '@')
    ensures forall i :: n < i < |from| ==> from[i] != '@'
    ensures n == |from| ==> '@' !in from
  {
    if from == "" then 0
    else if from[|from| - 1] == '@' then |from| - 1
    else
      var n := LastAt(from[..|from| - 1]);
      if n == |from| - 1 then |from| else n
  }

  /** `parseSourceSpec`. */
  function ParseSourceSpec(from: string): Option<(string, string)> {
    var at := LastAt(from);
    if at == |from| || at < 1 || at == |from| - 1 then None
    else if ValidRef(from[at + 1..]) then Some((from[..at], from[at + 1..]))
    else None
  }

  function PrintSourceSpec(source: string, ref: string): string { source + "@" + ref }

  /** Parsing gives back exactly the non-empty source and valid ref that were printed, and nothing else parses. */
  lemma SourceSpecRoundTrip(from: string, source: string, ref: string)
    ensures ParseSourceSpec(from) == Some((source, ref))
       <==> source != "" && ValidRef(ref) && from == PrintSourceSpec(source, ref)
  {
    var at := LastAt(from);
    if from == PrintSourceSpec(source, ref) && ValidRef(ref) {
      assert from[|source|] == '@';
      assert forall i :: |source| < i < |from| ==> from[i] == ref[i - |source| - 1];
      assert at == |source|;
      assert from[..at] == source && from[at + 1..] == ref;
    }
    if ParseSourceSpec(from) == Some((source, ref)) {
      assert from == from[..at] + [from[at]] + from[at + 1..];
    }
  }

  // ----- URLs ----------------------------------------------------------------------------------

  predicate WordDotDash(c: char) { Alnum(c) || c in "_.-" }

  predicate Slug(s: string) {
    s != "" && Alnum(s[0]) && forall i :: 0 <= i < |s| ==> WordDotDash(s[i])
  }

  /** `<owner>/<repo>`. */
  predicate Shorthand(source: string) {
    var parts := Split(source, '/');
    |parts| == 2 && Slug(parts[0]) && Slug(parts[1])
  }

  const RAW_HOST := "https://raw.githubusercontent.com"

  function WithoutSlash(s: string): string {
    if s != "" && s[|s| - 1] == '/' then s[..|s| - 1] else s
  }

  /** `buildRawUrl`; other sources are refused. */
  function BuildRawUrl(source: string, ref: string, path: string): Option<string> {
    if Shorthand(source) then Some(RAW_HOST + RawPath(source, ref, path))
    else if "https://" <= source then Some(WithoutSlash(source) + "/" + ref + "/" + path)
    else None
  }

  function RawPath(source: string, ref: string, path: string): string {
    "/" + source + "/" + ref + "/" + path
  }

  /**
   * Where a file is asked for: under the repository on the raw host, or under the `https` source,
   * with or without one slash at its end; any other source is refused.
   */
  lemma RawUrls(source: string, ref: string, path: string)
    ensures Shorthand(source) ==>
              BuildRawUrl(source, ref, path)
              == Some("https://raw.githubusercontent.com/" + source + "/" + ref + "/" + path)
    ensures !Shorthand(source) && "https://" <= source && source[|source| - 1] != '/' ==>
              BuildRawUrl(source, ref, path) == Some(source + "/" + ref + "/" + path)
    ensures !Shorthand(source) && "https://" <= source && source[|source| - 1] == '/' ==>
              BuildRawUrl(source, ref, path) == Some(source + ref + "/" + path)
    ensures !Shorthand(source) && !("https://" <= source) ==> BuildRawUrl(source, ref, path) == None
  {
    assert RAW_HOST + ("/" + source + "/" + ref + "/" + path)
        == "https://raw.githubusercontent.com/" + source + "/" + ref + "/" + path;
    if "https://" <= source && source[|source| - 1] == '/' {
      assert source[..|source| - 1] + "/" == source;
    }
  }

  // ----- RFC 3986, section 5.2.4 -----------------------------------------------------------------

  /** The output without its last segment and the slash before it. */
  function DropLast(output: string): string {
    if output == "" then ""
    else if output[|output| - 1] == '/' then output[..|output| - 1]
    else DropLast(output[..|output| - 1])
  }

  /** `remove_dot_segments`: steps A to E on the input buffer, appending to the output buffer. */
  function RemoveDotSegments(input: string, output: string): string
    decreases |input|
  {
    if input == "" then output
    else if "../" <= input then RemoveDotSegments(input[3..], output)
    else if "./" <= input then RemoveDotSegments(input[2..], output)
    else if "/./" <= input then RemoveDotSegments(input[2..], output)
    else if input == "/." then RemoveDotSegments("/", output)
    else if "/../" <= input then RemoveDotSegments(input[3..], DropLast(output))
    else if input == "/.." then RemoveDotSegments("/", DropLast(output))
    else if input == "." || input == ".." then output
    else
      var n := 1 + IndexOf(input[1..], '/');
      RemoveDotSegments(input[n..], output + input[..n])
  }

  /** The segments, each after a slash. */
  function Slashed(segments: seq<string>): string {
    if segments == [] then "" else "/" + segments[0] + Slashed(segments[1..])
  }

  function Undotted(segments: seq<string>): seq<string> {
    if segments == [] then []
    else (if segments[0] == "." then [] else [segments[0]]) + Undotted(segments[1..])
  }

  predicate Segment(s: string) { s != "" && s != ".." && '/' !in s }

  predicate Segments(segments: seq<string>) {
    forall i :: 0 <= i < |segments| ==> Segment(segments[i])
  }

  lemma {:induction false} SlashedIsJoined(segments: seq<string>)
    requires segments != []
    ensures Slashed(segments) == "/" + Join(segments, "/")
  {
    if |segments| > 1 {
      SlashedIsJoined(segments[1..]);
      var rest := Join(segments[1..], "/");
      assert "/" + segments[0] + ("/" + rest) == "/" + (segments[0] + "/" + rest);
    } else {
      assert Slashed(segments[1..]) == "";
      assert "/" + segments[0] + "" == "/" + segments[0];
    }
  }

  lemma {:induction false} SlashedConcat(a: seq<string>, b: seq<string>)
    ensures Slashed(a + b) == Slashed(a) + Slashed(b)
  {
    if a == [] {
      assert a + b == b;
    } else {
      assert (a + b)[0] == a[0] && (a + b)[1..] == a[1..] + b;
      SlashedConcat(a[1..], b);
      Assoc("/" + a[0], Slashed(a[1..]), Slashed(b));
    }
  }

  /** None of the steps A to D applies. */
  predicate Ordinary(input: string) {
    && !("../" <= input) && !("./" <= input) && !("/./" <= input) && input != "/."
    && !("/../" <= input) && input != "/.." && input != "." && input != ".."
  }

  lemma {:induction false} StepE(input: string, output: string)
    requires input != "" && Ordinary(input)
    ensures var n := 1 + IndexOf(input[1..], '/');
            RemoveDotSegments(input, output) == RemoveDotSegments(input[n..], output + input[..n])
  {
  }

  lemma OrdinarySegment(s: string, tail: string)
    requires Segment(s) && s != "." && (tail == "" || tail[0] == '/')
    ensures Ordinary("/" + s + tail)
  {
    var input := "/" + s + tail;
    assert input[0] == '/' && input[1] == s[0];
    if |s| == 1 {
      assert s == [s[0]];
    } else {
      assert input[2] == s[1] && s[1] != '/';
      if |s| == 2 {
        assert s == [s[0], s[1]];
      } else {
        assert input[3] == s[2] && s[2] != '/';
      }
    }
  }

  lemma SegmentCut(s: string, tail: string)
    requires '/' !in s && (tail == "" || tail[0] == '/')
    ensures var input, n := "/" + s + tail, 1 + |s|;
            && IndexOf(input[1..], '/') == |s| && input[..n] == "/" + s && input[n..] == tail
  {
    var input := "/" + s + tail;
    assert input[1..] == s + tail;
    IndexAfter(s, tail, '/');
  }

  lemma {:induction false} SlashedStart(segments: seq<string>)
    ensures Slashed(segments) == "" || Slashed(segments)[0] == '/'
  {
  }

  /** Step E moves one ordinary segment. */
  lemma {:induction false} MovesSegment(s: string, rest: seq<string>, output: string)
    requires Segment(s) && s != "."
    ensures RemoveDotSegments("/" + s + Slashed(rest), output) == RemoveDotSegments(Slashed(rest), output + ("/" + s))
  {
    SlashedStart(rest);
    OrdinarySegment(s, Slashed(rest));
    SegmentCut(s, Slashed(rest));
    StepE("/" + s + Slashed(rest), output);
  }

  /** Step B drops one `.` segment. */
  lemma {:induction false} DropsDot(tail: string, output: string)
    requires tail != "" && tail[0] == '/'
    ensures RemoveDotSegments("/" + "." + tail, output) == RemoveDotSegments(tail, output)
  {
    var input := "/" + "." + tail;
    assert input[0] == '/' && input[1] == '.' && input[2] == '/';
    assert input[..3] == "/./";
    assert input[2..] == tail;
  }

  /** On ordinary segments and dots, the algorithm removes the dots and nothing else. */
  lemma {:induction false} RemovesOnlyDots(segments: seq<string>, output: string)
    requires Segments(segments) && (segments != [] ==> segments[|segments| - 1] != ".")
    ensures RemoveDotSegments(Slashed(segments), output) == output + Slashed(Undotted(segments))
    decreases |segments|
  {
    if segments == [] {
      assert output + "" == output;
    } else {
      var s, rest := segments[0], segments[1..];
      if s == "." {
        DropsDot(Slashed(rest), output);
        RemovesOnlyDots(rest, output);
        assert Undotted(segments) == Undotted(rest);
      } else {
        MovesSegment(s, rest, output);
        RemovesOnlyDots(rest, output + ("/" + s));
        Assoc(output, "/" + s, Slashed(Undotted(rest)));
        assert Undotted(segments) == [s] + Undotted(rest);
        assert Slashed([s] + Undotted(rest)) == "/" + s + Slashed(Undotted(rest));
      }
    }
  }

  // What the algorithm computes on any segments: a walk with a stack of those kept.

  predicate SlashFree(segments: seq<string>) {
    forall i :: 0 <= i < |segments| ==> '/' !in segments[i]
  }

  function Popped(done: seq<string>): seq<string> {
    if done == [] then [] else done[..|done| - 1]
  }

  /** `.` stays where it is, `..` goes up one, and either leaves a slash behind at the end. */
  function Walked(done: seq<string>, segments: seq<string>): seq<string>
    decreases |segments|
  {
    if segments == [] then done
    else
      var s, rest := segments[0], segments[1..];
      if s == "." || s == ".." then
        var at := if s == "." then done else Popped(done);
        if rest == [] then at + [""] else Walked(at, rest)
      else Walked(done + [s], rest)
  }

  lemma {:induction false} DropLastOf(output: string, last: string)
    requires '/' !in last
    ensures DropLast(output + ("/" + last)) == output
  {
    var all := output + ("/" + last);
    if last == "" {
      assert all[..|all| - 1] == output;
    } else {
      assert all[..|all| - 1] == output + ("/" + last[..|last| - 1]);
      DropLastOf(output, last[..|last| - 1]);
    }
  }

  lemma DropsPopped(done: seq<string>)
    requires SlashFree(done)
    ensures DropLast(Slashed(done)) == Slashed(Popped(done))
  {
    if done != [] {
      var n := |done| - 1;
      SlashedConcat(done[..n], [done[n]]);
      assert done[..n] + [done[n]] == done;
      SlashedOne(done[n]);
      DropLastOf(Slashed(done[..n]), done[n]);
    }
  }

  lemma SlashedOne(s: string)
    ensures Slashed([s]) == "/" + s
  {
    assert [s][1..] == [];
  }

  lemma SlashedSnoc(done: seq<string>, s: string)
    ensures Slashed(done + [s]) == Slashed(done) + ("/" + s)
  {
    SlashedConcat(done, [s]);
    SlashedOne(s);
  }

  /** Step C goes up. */
  lemma GoesUp(tail: string, output: string)
    requires tail != "" && tail[0] == '/'
    ensures RemoveDotSegments("/" + ".." + tail, output) == RemoveDotSegments(tail, DropLast(output))
  {
    var input := "/" + ".." + tail;
    assert input[0] == '/' && input[1] == '.' && input[2] == '.' && input[3] == '/';
    assert input[..4] == "/../";
    assert input[3..] == tail;
  }

  lemma FinalSlash(output: string)
    ensures RemoveDotSegments("/", output) == output + "/"
  {
    var input := "/";
    assert input[1..] == "" && IndexOf("", '/') == 0;
    assert input[..1] == "/";
  }

  lemma EndsInDots(output: string)
    ensures RemoveDotSegments("/.", output) == output + "/"
    ensures RemoveDotSegments("/..", output) == DropLast(output) + "/"
  {
    FinalSlash(output);
    FinalSlash(DropLast(output));
    assert "/."[1] == '.' && |"/."| == 2;
    assert "/.."[2] == '.' && |"/.."| == 3;
  }

  /** Step E moves an empty segment. */
  lemma MovesEmpty(tail: string, output: string)
    requires tail == "" || tail[0] == '/'
    ensures RemoveDotSegments("/" + "" + tail, output) == RemoveDotSegments(tail, output + "/")
  {
    var input := "/" + "" + tail;
    assert input[1..] == tail && input[..1] == "/";
    assert IndexOf(tail, '/') == 0;
  }

  lemma MovesPlain(s: string, rest: seq<string>, output: string)
    requires '/' !in s && s != "." && s != ".."
    ensures RemoveDotSegments("/" + s + Slashed(rest), output) == RemoveDotSegments(Slashed(rest), output + ("/" + s))
  {
    SlashedStart(rest);
    if s == "" {
      MovesEmpty(Slashed(rest), output);
      assert "/" + "" == "/";
    } else {
      MovesSegment(s, rest, output);
    }
  }

  /** A segment of one or two dots: the walk goes on, or ends with a slash. */
  lemma StepsOverDots(s: string, rest: seq<string>, done: seq<string>, at: seq<string>)
    requires SlashFree(done) && (s == "." || s == "..") && at == if s == "." then done else Popped(done)
    ensures RemoveDotSegments("/" + s + Slashed(rest), Slashed(done))
         == if rest == [] then Slashed(at + [""]) else RemoveDotSegments(Slashed(rest), Slashed(at))
  {
    DropsPopped(done);
    SlashedSnoc(at, "");
    if rest == [] {
      EndsInDots(Slashed(done));
      assert "/" + s + "" == "/" + s;
      assert "/" + "." == "/." && "/" + ".." == "/.." && "/" + "" == "/";
    } else {
      SlashedStart(rest);
      if s == "." {
        DropsDot(Slashed(rest), Slashed(done));
      } else {
        GoesUp(Slashed(rest), Slashed(done));
      }
    }
  }

  /** On every path the algorithm of section 5.2.4 is the walk over its segments. */
  lemma {:induction false} RemovesDotSegments(segments: seq<string>, done: seq<string>)
    requires SlashFree(segments) && SlashFree(done)
    ensures RemoveDotSegments(Slashed(segments), Slashed(done)) == Slashed(Walked(done, segments))
    decreases |segments|
  {
    if segments != [] {
      var s, rest := segments[0], segments[1..];
      if s == "." || s == ".." {
        StepsOverDots(s, rest, done, if s == "." then done else Popped(done));
        if rest != [] {
          RemovesDotSegments(rest, if s == "." then done else Popped(done));
        }
      } else {
        MovesPlain(s, rest, Slashed(done));
        SlashedSnoc(done, s);
        RemovesDotSegments(rest, done + [s]);
      }
    }
  }

  lemma {:induction false} UndottedConcat(a: seq<string>, b: seq<string>)
    ensures Undotted(a + b) == Undotted(a) + Undotted(b)
  {
    if a == [] {
      assert a + b == b;
    } else {
      assert (a + b)[0] == a[0] && (a + b)[1..] == a[1..] + b;
      UndottedConcat(a[1..], b);
      Assoc(if a[0] == "." then [] else [a[0]], Undotted(a[1..]), Undotted(b));
    }
  }

  /** `VALID_REVIEWER_NAME`. */
  predicate ReviewerName(name: string) {
    && 1 <= |name| <= 64 && Alnum(name[0])
    && forall i :: 0 <= i < |name| ==> Alnum(name[i]) || name[i] in "_-"
  }

  /** The files the command asks for: the signed manifest, its signature, a prompt, its configuration. */
  predicate PersonaPath(parts: seq<string>) {
    && 2 <= |parts| <= 3 && parts[0] == "personas"
    && (|parts| == 2 ==> parts[1] == "manifest.json" || parts[1] == "manifest.json.sig")
    && (|parts| == 3 ==> ReviewerName(parts[1]) && (parts[2] == "prompt.md" || parts[2] == "config.yaml"))
  }

  predicate Plain(segments: seq<string>) {
    Segments(segments) && forall i :: 0 <= i < |segments| ==> segments[i] != "."
  }

  lemma {:induction false} UndottedPlain(segments: seq<string>)
    requires Plain(segments)
    ensures Undotted(segments) == segments
  {
    if segments != [] {
      assert forall i :: 0 <= i < |segments| - 1 ==> segments[1..][i] == segments[i + 1];
      UndottedPlain(segments[1..]);
    }
  }

  lemma {:induction false} SlashedSplit(s: string)
    ensures Slashed(Split(s, '/')) == "/" + s
  {
    SlashedIsJoined(Split(s, '/'));
    JoinSplit(s, '/');
  }

  lemma SlugIsPlain(s: string)
    requires Slug(s)
    ensures Segment(s) && s != "."
  {
    assert s[0] != '.' && s[0] != '/';
  }

  lemma {:induction false} SourceIsPlain(source: string)
    requires Shorthand(source)
    ensures Plain(Split(source, '/'))
  {
    var parts := Split(source, '/');
    SlugIsPlain(parts[0]);
    SlugIsPlain(parts[1]);
  }

  lemma PersonaIsPlain(parts: seq<string>)
    requires PersonaPath(parts)
    ensures Plain(parts)
  {
    forall i | 0 <= i < |parts| ensures Segment(parts[i]) && parts[i] != "." {
      assert '/' !in "personas" && '/' !in "manifest.json" && '/' !in "manifest.json.sig";
      assert '/' !in "prompt.md" && '/' !in "config.yaml";
      if i == 1 && |parts| == 3 {
        assert parts[1][0] != '.' && '/' !in parts[1];
      }
    }
  }

  lemma {:induction false} RefSegments(ref: string)
    requires ValidRef(ref)
    ensures Segments(Split(ref, '/'))
  {
    SplitFree(ref, '/');
  }

  lemma SegmentsConcat(a: seq<string>, b: seq<string>)
    requires Segments(a) && Segments(b)
    ensures Segments(a + b)
  {
  }

  /** The path as three pieces, each with the slash before it. */
  lemma RawPathPieces(source: string, ref: string, path: string)
    ensures RawPath(source, ref, path) == ("/" + source) + (("/" + ref) + ("/" + path))
  {
    var front := "/" + source;
    calc {
      RawPath(source, ref, path);
      front + "/" + ref + "/" + path;
      { Assoc(front, "/", ref); }
      front + ("/" + ref) + "/" + path;
      { Assoc(front + ("/" + ref), "/", path); }
      front + ("/" + ref) + ("/" + path);
      { Assoc(front, "/" + ref, "/" + path); }
      front + (("/" + ref) + ("/" + path));
    }
  }

  lemma {:induction false} RawPathSlashed(source: string, ref: string, parts: seq<string>)
    requires parts != []
    ensures RawPath(source, ref, Join(parts, "/")) == Slashed(Split(source, '/') + (Split(ref, '/') + parts))
  {
    RawPathPieces(source, ref, Join(parts, "/"));
    SlashedSplit(source);
    SlashedSplit(ref);
    SlashedIsJoined(parts);
    SlashedConcat(Split(ref, '/'), parts);
    SlashedConcat(Split(source, '/'), Split(ref, '/') + parts);
  }

  /**
   * For an `<owner>/<repo>` source and any ref the command accepts, normalizing the URL's path
   * drops `.` segments of the ref and nothing else: it still starts with `/<owner>/<repo>/` and
   * still names the same persona file.
   */
  lemma {:induction false} PersonaUrlStaysInPlace(source: string, ref: string, parts: seq<string>)
    requires Shorthand(source) && ValidRef(ref) && PersonaPath(parts)
    ensures RemoveDotSegments(RawPath(source, ref, Join(parts, "/")), "")
         == "/" + source + (Slashed(Undotted(Split(ref, '/'))) + ("/" + Join(parts, "/")))
  {
    var src, rs := Split(source, '/'), Split(ref, '/');
    RawPathSlashed(source, ref, parts);
    SourceIsPlain(source);
    RefSegments(ref);
    PersonaIsPlain(parts);
    SegmentsConcat(rs, parts);
    SegmentsConcat(src, rs + parts);
    RemovesOnlyDots(src + (rs + parts), "");
    UndottedConcat(rs, parts);
    UndottedConcat(src, rs + parts);
    UndottedPlain(src);
    UndottedPlain(parts);
    SlashedConcat(Undotted(rs), parts);
    SlashedConcat(src, Undotted(rs) + parts);
    SlashedSplit(source);
    SlashedIsJoined(parts);
    var kept := Slashed(src + (Undotted(rs) + parts));
    assert "" + kept == kept;
  }
}
