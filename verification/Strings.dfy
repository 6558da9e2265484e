/** String operations shared by the models: leftmost replacement, joining, membership. */
module Strings {

  /** `s.replace(/pat/g, rep)` for a fixed text `pat`: leftmost matches, left to right, no overlap. */
  function ReplaceAll(s: string, pat: string, rep: string): string
    requires pat != []
  {
    if |s| < |pat| then s
    else if s[..|pat|] == pat then rep + ReplaceAll(s[|pat|..], pat, rep)
    else [s[0]] + ReplaceAll(s[1..], pat, rep)
  }

  /** `parts.join(sep)`. */
  function Join(parts: seq<string>, sep: string): string {
    if parts == [] then ""
    else if |parts| == 1 then parts[0]
    else parts[0] + sep + Join(parts[1..], sep)
  }

  lemma Assoc<T>(a: seq<T>, b: seq<T>, c: seq<T>)
    ensures (a + b) + c == a + (b + c)
  {
  }

  lemma {:induction false} ReplaceHit(t: string, pat: string, rep: string)
    requires pat != []
    ensures ReplaceAll(pat + t, pat, rep) == rep + ReplaceAll(t, pat, rep)
  {
    assert (pat + t)[..|pat|] == pat && (pat + t)[|pat|..] == t;
  }

  lemma {:induction false} ReplaceMiss(u: string, pat: string, rep: string)
    requires pat != [] && u != [] && !(pat <= u)
    ensures ReplaceAll(u, pat, rep) == [u[0]] + ReplaceAll(u[1..], pat, rep)
  {
    if |u| < |pat| {
      assert ReplaceAll(u[1..], pat, rep) == u[1..];
    }
  }

  /** A text none of whose characters can open a match is copied through. */
  lemma {:induction false} ReplaceSkips(a: string, t: string, pat: string, rep: string)
    requires pat != [] && pat[0] !in a
    ensures ReplaceAll(a + t, pat, rep) == a + ReplaceAll(t, pat, rep)
  {
    if a == [] {
      assert a + t == t;
    } else {
      assert (a + t)[0] == a[0];
      ReplaceMiss(a + t, pat, rep);
      assert (a + t)[1..] == a[1..] + t;
      ReplaceSkips(a[1..], t, pat, rep);
      var r := ReplaceAll(t, pat, rep);
      Assoc([a[0]], a[1..], r);
      assert [a[0]] + a[1..] == a;
    }
  }

  /** Replacing one character works piece by piece. */
  lemma {:induction false} ReplaceCharDistributes(a: string, b: string, c: char, rep: string)
    ensures ReplaceAll(a + b, [c], rep) == ReplaceAll(a, [c], rep) + ReplaceAll(b, [c], rep)
  {
    if a == [] {
      assert a + b == b;
    } else {
      var ab, t := a + b, a[1..];
      ReplaceCharDistributes(t, b, c, rep);
      assert ab[0] == a[0] && ab[1..] == t + b;
      var x, y := ReplaceAll(t, [c], rep), ReplaceAll(b, [c], rep);
      if a[0] == c {
        assert a == [c] + t && ab == [c] + (t + b);
        ReplaceHit(t, [c], rep);
        ReplaceHit(t + b, [c], rep);
        Assoc(rep, x, y);
      } else {
        ReplaceMiss(a, [c], rep);
        ReplaceMiss(ab, [c], rep);
        Assoc([a[0]], x, y);
      }
    }
  }

  lemma {:induction false} ReplaceAbsentChar(a: string, c: char, rep: string)
    requires c !in a
    ensures ReplaceAll(a, [c], rep) == a
  {
    ReplaceSkips(a, "", [c], rep);
    assert a + "" == a;
  }

  // ----- Splitting -----------------------------------------------------------------------------

  function IndexOf(s: string, c: char): (n: nat)
    ensures n <= |s| && (n < |s| ==> s[n] == c)
  {
    if s == "" || s[0] == c then 0 else 1 + IndexOf(s[1..], c)
  }

  lemma {:induction false} IndexOfIsFirst(s: string, c: char)
    ensures c !in s[..IndexOf(s, c)]
  {
    if s != "" && s[0] != c {
      IndexOfIsFirst(s[1..], c);
      assert s[..IndexOf(s, c)] == [s[0]] + s[1..][..IndexOf(s[1..], c)];
    }
  }

  /** The first place is where a text without the character stops. */
  lemma {:induction false} IndexAfter(a: string, rest: string, c: char)
    requires c !in a && (rest == "" || rest[0] == c)
    ensures IndexOf(a + rest, c) == |a|
  {
    if a == "" {
      assert a + rest == rest;
    } else {
      assert (a + rest)[0] == a[0] && (a + rest)[1..] == a[1..] + rest;
      IndexAfter(a[1..], rest, c);
    }
  }

  /** `s.split(c)`. */
  function Split(s: string, c: char): (parts: seq<string>)
    ensures parts != []
    decreases |s|
  {
    var n := IndexOf(s, c);
    if n == |s| then [s] else [s[..n]] + Split(s[n + 1..], c)
  }

  lemma {:induction false} JoinCons(a: string, parts: seq<string>, sep: string)
    requires parts != []
    ensures Join([a] + parts, sep) == a + sep + Join(parts, sep)
  {
    assert ([a] + parts)[1..] == parts;
  }

  lemma CutAt(s: string, n: nat)
    requires n < |s|
    ensures s == s[..n] + [s[n]] + s[n + 1..]
  {
  }

  lemma {:induction false} JoinSplit(s: string, c: char)
    ensures Join(Split(s, c), [c]) == s
    decreases |s|
  {
    var n := IndexOf(s, c);
    if n < |s| {
      var first, rest := s[..n], s[n + 1..];
      CutAt(s, n);
      JoinSplit(rest, c);
      JoinCons(first, Split(rest, c), [c]);
    }
  }

  lemma {:induction false} SplitAt(a: string, rest: string, c: char)
    requires c !in a
    ensures Split(a + [c] + rest, c) == [a] + Split(rest, c)
  {
    var s := a + [c] + rest;
    assert s == a + ([c] + rest);
    IndexAfter(a, [c] + rest, c);
    assert s[..|a|] == a && s[|a| + 1..] == rest;
  }

  lemma {:induction false} SplitWhole(a: string, c: char)
    requires c !in a
    ensures Split(a, c) == [a]
  {
    IndexAfter(a, "", c);
    assert a + "" == a;
  }

  /** No part of a split holds the separator. */
  lemma {:induction false} SplitFree(s: string, c: char)
    ensures forall i :: 0 <= i < |Split(s, c)| ==> c !in Split(s, c)[i]
    decreases |s|
  {
    var n := IndexOf(s, c);
    IndexOfIsFirst(s, c);
    if n == |s| {
      assert s[..n] == s;
    } else {
      SplitFree(s[n + 1..], c);
    }
  }

  lemma {:induction false} SplitJoin(parts: seq<string>, c: char)
    requires parts != [] && forall i :: 0 <= i < |parts| ==> c !in parts[i]
    ensures Split(Join(parts, [c]), c) == parts
  {
    if |parts| == 1 {
      SplitWhole(parts[0], c);
      assert parts == [parts[0]];
    } else {
      var rest := parts[1..];
      assert forall i :: 0 <= i < |rest| ==> rest[i] == parts[i + 1];
      SplitJoin(rest, c);
      SplitAt(parts[0], Join(parts[1..], [c]), c);
    }
  }

  lemma {:induction false} SplitConcat(t: string, u: string, c: char)
    ensures Split(t + [c] + u, c) == Split(t, c) + Split(u, c)
    decreases |t|
  {
    var n := IndexOf(t, c);
    IndexOfIsFirst(t, c);
    if n == |t| {
      assert t[..n] == t;
      SplitAt(t, u, c);
    } else {
      var first, rest := t[..n], t[n + 1..];
      assert t == first + [c] + rest;
      assert t + [c] + u == first + [c] + (rest + [c] + u);
      SplitAt(first, rest, c);
      SplitAt(first, rest + [c] + u, c);
      SplitConcat(rest, u, c);
      Assoc([first], Split(rest, c), Split(u, c));
    }
  }

  // ----- Characters ----------------------------------------------------------------------------

  predicate Alnum(c: char) {
    'A' <= c <= 'Z' || 'a' <= c <= 'z' || '0' <= c <= '9'
  }

  predicate HexDigit(c: char) { '0' <= c <= '9' || 'a' <= c <= 'f' }

  // ----- Letter case ---------------------------------------------------------------------------

  /** `toLowerCase` on the ASCII letters; other characters are left alone. */
  function Lower(s: string): (t: string)
    ensures |t| == |s|
    ensures forall i :: 0 <= i < |s| ==> t[i] == LowerChar(s[i])
  {
    if s == "" then "" else [LowerChar(s[0])] + Lower(s[1..])
  }

  lemma {:induction false} LowerFixed(s: string)
    requires forall i :: 0 <= i < |s| ==> !('A' <= s[i] <= 'Z')
    ensures Lower(s) == s
  {
  }

  function LowerChar(c: char): char {
    if 'A' <= c <= 'Z' then (c as int + 32) as char else c
  }

  /** Decimal digits of a number, without leading zeros. */
  function Decimal(n: nat): (s: string)
    ensures s != "" && forall i :: 0 <= i < |s| ==> '0' <= s[i] <= '9'
    ensures n > 0 ==> s[0] != '0'
  {
    if n < 10 then [('0' as int + n) as char]
    else Decimal(n / 10) + [('0' as int + n % 10) as char]
  }

  function Number(digits: string): nat
    requires forall i :: 0 <= i < |digits| ==> '0' <= digits[i] <= '9'
  {
    if digits == "" then 0
    else 10 * Number(digits[..|digits| - 1]) + (digits[|digits| - 1] as int - '0' as int)
  }

  lemma {:induction false} NumberOfDecimal(n: nat)
    ensures Number(Decimal(n)) == n
  {
    if n < 10 {
      assert Decimal(n)[..0] == "";
    } else {
      NumberOfDecimal(n / 10);
      assert Decimal(n)[..|Decimal(n)| - 1] == Decimal(n / 10);
    }
  }

  lemma DecimalSnoc(n: nat, d: nat)
    requires n > 0 && d < 10
    ensures Decimal(10 * n + d) == Decimal(n) + [('0' as int + d) as char]
  {
    assert (10 * n + d) / 10 == n && (10 * n + d) % 10 == d;
  }

  lemma {:induction false} DecimalOfNumber(digits: string)
    requires digits != "" && digits[0] != '0'
    requires forall i :: 0 <= i < |digits| ==> '0' <= digits[i] <= '9'
    ensures Number(digits) > 0 && Decimal(Number(digits)) == digits
  {
    var front, last := digits[..|digits| - 1], digits[|digits| - 1];
    assert digits == front + [last];
    if front == "" {
      assert Number(front) == 0;
    } else {
      DecimalOfNumber(front);
      DecimalSnoc(Number(front), last as int - '0' as int);
    }
  }

  // ----- Order ---------------------------------------------------------------------------------

  /** `a < b` on strings. */
  predicate Less(a: string, b: string) {
    if b == "" then false
    else if a == "" then true
    else if a[0] != b[0] then a[0] < b[0]
    else Less(a[1..], b[1..])
  }

  lemma {:induction false} LessIrreflexive(a: string)
    ensures !Less(a, a)
  {
    if a != "" {
      LessIrreflexive(a[1..]);
    }
  }

  lemma {:induction false} LessTransitive(a: string, b: string, c: string)
    requires Less(a, b) && Less(b, c)
    ensures Less(a, c)
  {
    if a != "" && a[0] == b[0] && b[0] == c[0] {
      LessTransitive(a[1..], b[1..], c[1..]);
    }
  }

  lemma {:induction false} LessTotal(a: string, b: string)
    ensures Less(a, b) || Less(b, a) || a == b
  {
    if a != "" && b != "" && a[0] == b[0] {
      LessTotal(a[1..], b[1..]);
      assert a == [a[0]] + a[1..] && b == [b[0]] + b[1..];
    }
  }

  // ----- Trimming ------------------------------------------------------------------------------

  predicate Space(c: char) { c == ' ' || c == '\t' || c == '\n' || c == '\r' }

  function TrimLeft(s: string): string {
    if s != "" && Space(s[0]) then TrimLeft(s[1..]) else s
  }

  function TrimRight(s: string): string {
    if s != "" && Space(s[|s| - 1]) then TrimRight(s[..|s| - 1]) else s
  }

  /** `s.trim()` on ASCII white space. */
  function Trim(s: string): string { TrimRight(TrimLeft(s)) }
}
