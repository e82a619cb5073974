/**
 * The JavaScript string operations the authentication code relies on:
 * `String.prototype.trim`, `split` on a one-character separator, the
 * UTF-16 `length`, and the truthiness of a possibly missing string as used
 * by `a || b` fallback chains.
 */
module JsText {
  import opened Wrappers

  /** The code points `trim` removes: ECMAScript WhiteSpace and LineTerminator. */
  predicate IsWhitespace(c: char) {
    || c == '\t' || c == '\n' || c == '\U{000B}' || c == '\U{000C}' || c == '\r'
    || c == ' ' || c == '\U{00A0}' || c == '\U{1680}'
    || ('\U{2000}' <= c <= '\U{200A}')
    || c == '\U{2028}' || c == '\U{2029}' || c == '\U{202F}' || c == '\U{205F}'
    || c == '\U{3000}' || c == '\U{FEFF}'
  }

  predicate AllWhitespace(s: string) {
    forall i :: 0 <= i < |s| ==> IsWhitespace(s[i])
  }

  /** Drops leading whitespace: the result is the longest suffix that starts with a non-space. */
  function TrimStart(s: string): (r: string)
    ensures |r| <= |s| && r == s[|s| - |r|..]
    ensures AllWhitespace(s[..|s| - |r|])
    ensures r == [] || !IsWhitespace(r[0])
  {
    if s == [] || !IsWhitespace(s[0]) then s
    else
      var t := s[1..];
      var r := TrimStart(t);
      assert t[|t| - |r|..] == s[|s| - |r|..];
      assert s[..|s| - |r|] == [s[0]] + t[..|t| - |r|];
      r
  }

  /** Drops trailing whitespace: the result is the longest prefix that ends with a non-space. */
  function TrimEnd(s: string): (r: string)
    ensures |r| <= |s| && r == s[..|r|]
    ensures AllWhitespace(s[|r|..])
    ensures r == [] || !IsWhitespace(r[|r| - 1])
  {
    if s == [] || !IsWhitespace(s[|s| - 1]) then s
    else
      var r := TrimEnd(s[..|s| - 1]);
      assert s[|r|..] == s[..|s| - 1][|r|..] + [s[|s| - 1]];
      r
  }

  /** `s.trim()`. */
  function Trim(s: string): string {
    TrimEnd(TrimStart(s))
  }

  /** A string trims to "" exactly when every one of its characters is whitespace. */
  lemma TrimEmptyIff(s: string)
    ensures Trim(s) == [] <==> AllWhitespace(s)
  {
    var t := TrimStart(s);
    if Trim(s) == [] {
      assert AllWhitespace(t[0..]);
      forall i | 0 <= i < |s|
        ensures IsWhitespace(s[i])
      {
        if i < |s| - |t| {
          assert s[i] == s[..|s| - |t|][i];
        }
      }
    }
  }

  /** Trimming a trimmed string changes nothing. */
  lemma TrimIdempotent(s: string)
    ensures Trim(Trim(s)) == Trim(s)
  {
    var t := Trim(s);
    if t != [] {
      var u := TrimStart(s);
      assert t[0] == u[0];
    }
  }

  /** JavaScript truthiness of a string that may be absent: present and non-empty. */
  predicate Truthy(v: Option<string>) {
    v.Some? && v.value != ""
  }

  /** `v || fallback` for a possibly absent string. */
  function Or(v: Option<string>, fallback: string): string {
    if Truthy(v) then v.value else fallback
  }

  /** The first truthy candidate, else the fallback: a reference definition of an `a || b || ... || fallback` chain. */
  function FirstTruthy(candidates: seq<Option<string>>, fallback: string): (r: string)
    ensures (forall i :: 0 <= i < |candidates| ==> !Truthy(candidates[i])) ==> r == fallback
    ensures (exists i :: 0 <= i < |candidates| && Truthy(candidates[i])) ==>
      exists i :: 0 <= i < |candidates| && Truthy(candidates[i]) && r == candidates[i].value
                  && forall j :: 0 <= j < i ==> !Truthy(candidates[j])
  {
    if candidates == [] then fallback
    else if Truthy(candidates[0]) then candidates[0].value
    else
      var r := FirstTruthy(candidates[1..], fallback);
      assert forall i :: 1 <= i < |candidates| ==> candidates[i] == candidates[1..][i - 1];
      r
  }

  /** A chain peels off its first candidate like `a || rest`. */
  lemma FirstTruthyCons(candidates: seq<Option<string>>, fallback: string)
    requires candidates != []
    ensures FirstTruthy(candidates, fallback) == Or(candidates[0], FirstTruthy(candidates[1..], fallback))
  {
  }

  /** `s.length`: UTF-16 code units, two for a code point outside the Basic Multilingual Plane. */
  function Utf16Length(s: string): (n: nat)
    ensures |s| <= n <= 2 * |s|
  {
    if s == [] then 0
    else (if s[0] as int > 0xFFFF then 2 else 1) + Utf16Length(s[1..])
  }

  /** Index of the first occurrence of `c` in `s`. */
  function IndexOf(s: string, c: char): (r: Option<nat>)
    ensures r.None? <==> c !in s
    ensures r.Some? ==> r.value < |s| && s[r.value] == c && c !in s[..r.value]
  {
    if s == [] then None
    else if s[0] == c then Some(0)
    else
      match IndexOf(s[1..], c)
      case None => None
      case Some(i) =>
        assert s[..i + 1] == [s[0]] + s[1..][..i];
        Some(i + 1)
  }

  /** Number of occurrences of `c` in `s`. */
  function Count(s: string, c: char): nat {
    if s == [] then 0 else (if s[0] == c then 1 else 0) + Count(s[1..], c)
  }

  /** `s.split(sep)` for a one-character separator: the pieces between separators, in order. */
  function Split(s: string, sep: char): (parts: seq<string>)
    ensures |parts| >= 1
    ensures |parts| == 1 <==> sep !in s
    decreases |s|
  {
    match IndexOf(s, sep)
    case None => [s]
    case Some(i) => [s[..i]] + Split(s[i + 1..], sep)
  }

  /** `parts.join(sep)`. */
  function Join(parts: seq<string>, sep: char): string
    requires |parts| >= 1
  {
    if |parts| == 1 then parts[0] else parts[0] + [sep] + Join(parts[1..], sep)
  }

  lemma {:induction false} CountAppend(a: string, b: string, c: char)
    ensures Count(a + b, c) == Count(a, c) + Count(b, c)
  {
    if a != [] {
      assert (a + b)[1..] == a[1..] + b;
      CountAppend(a[1..], b, c);
    } else {
      assert a + b == b;
    }
  }

  lemma {:induction false} CountAbsent(s: string, c: char)
    requires c !in s
    ensures Count(s, c) == 0
  {
    if s != [] {
      CountAbsent(s[1..], c);
    }
  }

  /** Split then join gives back the original string. */
  lemma {:induction false} JoinSplit(s: string, sep: char)
    ensures Join(Split(s, sep), sep) == s
    decreases |s|
  {
    if sep in s {
      var i := IndexOf(s, sep).value;
      var p, q := s[..i], s[i + 1..];
      assert s == p + [sep] + q;
      SplitCons(p, sep, q);
      JoinSplit(q, sep);
      JoinCons(p, Split(q, sep), sep);
    }
  }

  lemma JoinCons(p: string, parts: seq<string>, sep: char)
    requires |parts| >= 1
    ensures Join([p] + parts, sep) == p + [sep] + Join(parts, sep)
  {
    assert ([p] + parts)[1..] == parts;
  }

  /** Split yields one more piece than there are separators. */
  lemma {:induction false} SplitLength(s: string, sep: char)
    ensures |Split(s, sep)| == Count(s, sep) + 1
    decreases |s|
  {
    if sep !in s {
      CountAbsent(s, sep);
    } else {
      var i := IndexOf(s, sep).value;
      var p, q := s[..i], s[i + 1..];
      assert s == p + [sep] + q;
      SplitCons(p, sep, q);
      CountCons(p, sep, q);
      SplitLength(q, sep);
    }
  }

  lemma CountCons(p: string, sep: char, q: string)
    requires sep !in p
    ensures Count(p + [sep] + q, sep) == 1 + Count(q, sep)
  {
    CountAppend(p + [sep], q, sep);
    CountAppend(p, [sep], sep);
    CountAbsent(p, sep);
    assert Count([sep], sep) == 1 + Count([], sep);
  }

  /** Splitting at a leading separator-free piece peels that piece off. */
  lemma SplitCons(p: string, sep: char, q: string)
    requires sep !in p
    ensures Split(p + [sep] + q, sep) == [p] + Split(q, sep)
  {
    var s := p + [sep] + q;
    assert s[|p|] == sep;
    assert s[..|p|] == p;
    var i := IndexOf(s, sep).value;
    assert i == |p|;
    assert s[i + 1..] == q;
  }

  /** Join then split gives back the pieces, when no piece holds the separator. */
  lemma {:induction false} SplitJoin(parts: seq<string>, sep: char)
    requires |parts| >= 1
    requires forall i :: 0 <= i < |parts| ==> sep !in parts[i]
    ensures Split(Join(parts, sep), sep) == parts
  {
    if |parts| > 1 {
      SplitJoin(parts[1..], sep);
      SplitCons(parts[0], sep, Join(parts[1..], sep));
    }
  }

  /** `s.split(c)[0]`: the text before the first `c`, or all of `s` when there is none. */
  function BeforeFirst(s: string, c: char): (r: string)
    ensures c !in r
    ensures c !in s ==> r == s
    ensures c in s ==> |r| < |s| && s[..|r|] == r && s[|r|] == c
  {
    match IndexOf(s, c)
    case None => s
    case Some(i) => s[..i]
  }

  /** The text after the first `c`. */
  function AfterFirst(s: string, c: char): (r: string)
    requires c in s
    ensures |r| < |s| && s == BeforeFirst(s, c) + [c] + r
  {
    var i := IndexOf(s, c).value;
    assert s == s[..i] + [c] + s[i + 1..];
    s[i + 1..]
  }

  /** `s.split(c)[1]`: the text between the first `c` and the next one (or the end). */
  lemma SplitSecond(s: string, c: char)
    requires c in s
    ensures Split(s, c)[1] == BeforeFirst(AfterFirst(s, c), c)
  {
    var i := IndexOf(s, c).value;
    var rest := s[i + 1..];
    assert AfterFirst(s, c) == rest;
    assert Split(s, c) == [s[..i]] + Split(rest, c);
    assert Split(s, c)[1] == Split(rest, c)[0];
    assert Split(rest, c)[0] == BeforeFirst(rest, c);
  }

  /** Cutting `p + [c] + q` at its first `c`, for a `c`-free `p`, gives back `p` and `q`. */
  lemma CutAtFirst(p: string, c: char, q: string)
    requires c !in p
    ensures c in p + [c] + q
    ensures BeforeFirst(p + [c] + q, c) == p && AfterFirst(p + [c] + q, c) == q
  {
    var s := p + [c] + q;
    assert s[|p|] == c;
    assert s[..|p|] == p;
    var i := IndexOf(s, c).value;
    assert i == |p|;
    assert s[i + 1..] == q;
  }
}
