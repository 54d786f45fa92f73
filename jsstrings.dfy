/** The String.prototype methods the icon cascade uses: `trim`, `startsWith`,
    `endsWith`, `includes`, `indexOf` and `split(sep)[1]`. */
module JsStrings {

  /** The characters `trim` removes: ECMAScript WhiteSpace and LineTerminator. */
  predicate IsJsSpace(c: char) {
    c == '\t' || c == '\n' || c == '\U{B}' || c == '\U{C}' || c == '\r' || c == ' '
    || c == '\U{A0}' || c == '\U{1680}' || ('\U{2000}' <= c <= '\U{200A}')
    || c == '\U{2028}' || c == '\U{2029}' || c == '\U{202F}' || c == '\U{205F}'
    || c == '\U{3000}' || c == '\U{FEFF}'
  }

  /** `s.trimStart()`: drops leading white space. */
  function TrimStart(s: string): string {
    if s != [] && IsJsSpace(s[0]) then TrimStart(s[1..]) else s
  }

  /** `trimStart` keeps the longest suffix of `s` that does not start with
      white space: everything it drops is white space. */
  lemma {:induction false} TrimStartSpec(s: string)
    ensures |TrimStart(s)| <= |s| && TrimStart(s) == s[|s| - |TrimStart(s)|..]
    ensures forall i :: 0 <= i < |s| - |TrimStart(s)| ==> IsJsSpace(s[i])
    ensures TrimStart(s) == [] || !IsJsSpace(TrimStart(s)[0])
  {
    if s != [] && IsJsSpace(s[0]) {
      TrimStartSpec(s[1..]);
      assert s[1..][|s| - 1 - |TrimStart(s)|..] == s[|s| - |TrimStart(s)|..];
      forall i | 1 <= i < |s| - |TrimStart(s)| ensures IsJsSpace(s[i]) {
        assert s[i] == s[1..][i - 1];
      }
    }
  }

  /** `s.trimEnd()`: drops trailing white space. */
  function TrimEnd(s: string): string {
    if s != [] && IsJsSpace(s[|s| - 1]) then TrimEnd(s[..|s| - 1]) else s
  }

  /** `trimEnd` keeps the longest prefix of `s` that does not end in white
      space: everything it drops is white space. */
  lemma {:induction false} TrimEndSpec(s: string)
    ensures |TrimEnd(s)| <= |s| && TrimEnd(s) == s[..|TrimEnd(s)|]
    ensures forall i :: |TrimEnd(s)| <= i < |s| ==> IsJsSpace(s[i])
    ensures TrimEnd(s) == [] || !IsJsSpace(TrimEnd(s)[|TrimEnd(s)| - 1])
  {
    if s != [] && IsJsSpace(s[|s| - 1]) {
      var u := s[..|s| - 1];
      TrimEndSpec(u);
      assert u[..|TrimEnd(s)|] == s[..|TrimEnd(s)|];
      forall i | |TrimEnd(s)| <= i < |s| - 1 ensures IsJsSpace(s[i]) {
        assert s[i] == u[i];
      }
    }
  }

  /** `s.trim()` */
  function Trim(s: string): string {
    TrimEnd(TrimStart(s))
  }

  /** `s.trim()` is `s` with white space cut from both ends, and keeps no
      white space at either end. */
  lemma TrimShape(s: string)
    ensures exists i, j :: 0 <= i <= j <= |s| && Trim(s) == s[i..j]
                           && (forall k :: 0 <= k < i ==> IsJsSpace(s[k]))
                           && (forall k :: j <= k < |s| ==> IsJsSpace(s[k]))
    ensures Trim(s) == [] || (!IsJsSpace(Trim(s)[0]) && !IsJsSpace(Trim(s)[|Trim(s)| - 1]))
  {
    var u := TrimStart(s);
    var t := TrimEnd(u);
    TrimStartSpec(s);
    TrimEndSpec(u);
    var i := |s| - |u|;
    var j := i + |t|;
    assert t == s[i..j];
    forall k | j <= k < |s| ensures IsJsSpace(s[k]) {
      assert s[k] == u[k - i];
    }
    if t != [] {
      assert t[0] == u[0];
    }
  }

  /** Trimming twice is trimming once. */
  lemma TrimIdempotent(s: string)
    ensures Trim(Trim(s)) == Trim(s)
  {
    var t := Trim(s);
    TrimShape(s);
    assert TrimStart(t) == t;
    TrimEndSpec(t);
  }

  /** `s.startsWith(p)` */
  predicate StartsWith(s: string, p: string) {
    p <= s
  }

  /** `s.endsWith(p)` */
  predicate EndsWith(s: string, p: string) {
    |p| <= |s| && s[|s| - |p|..] == p
  }

  /** `p` occurs in `s` starting at index `i`. */
  predicate OccursAt(s: string, p: string, i: int) {
    0 <= i && i + |p| <= |s| && s[i..i + |p|] == p
  }

  /** `s.indexOf(p)`: the first index where `p` occurs, or -1. */
  function IndexOf(s: string, p: string): (r: int)
    ensures r == -1 || 0 <= r <= |s| - |p|
    decreases |s|
  {
    if |s| < |p| then -1
    else if s[..|p|] == p then 0
    else
      var k := IndexOf(s[1..], p);
      if k < 0 then -1 else k + 1
  }

  /** The index `indexOf` returns, when not -1, is an occurrence. */
  lemma {:induction false} IndexOfFound(s: string, p: string)
    ensures IndexOf(s, p) == -1 || OccursAt(s, p, IndexOf(s, p))
    decreases |s|
  {
    if |s| >= |p| && s[..|p|] != p {
      IndexOfFound(s[1..], p);
      var k := IndexOf(s[1..], p);
      if k >= 0 {
        assert s[k + 1..k + 1 + |p|] == s[1..][k..k + |p|];
      }
    }
  }

  /** `indexOf` finds no occurrence before the index it returns, and returns
      -1 only when there is none at all. */
  lemma {:induction false} IndexOfSpec(s: string, p: string)
    ensures forall i :: 0 <= i && (IndexOf(s, p) == -1 || i < IndexOf(s, p)) ==> !OccursAt(s, p, i)
    decreases |s|
  {
    if |s| >= |p| && s[..|p|] != p {
      IndexOfSpec(s[1..], p);
      forall i | 0 < i ensures OccursAt(s, p, i) <==> OccursAt(s[1..], p, i - 1) {
        if 0 < i && i + |p| <= |s| {
          var here, there := s[i..i + |p|], s[1..][i - 1..i - 1 + |p|];
          assert forall k :: 0 <= k < |p| ==> here[k] == there[k];
          assert here == there;
        }
      }
      assert !OccursAt(s, p, 0);
    }
  }

  /** `s.includes(p)` */
  predicate Includes(s: string, p: string) {
    IndexOf(s, p) >= 0
  }

  /** `s.split(sep)[1]` for an `s` that contains `sep`: the text between the
      first occurrence of `sep` and the next one, or the end of `s`. */
  function SplitSecond(s: string, sep: string): string
    requires sep != [] && Includes(s, sep)
  {
    IndexOfFound(s, sep);
    var after := IndexOf(s, sep) + |sep|;
    var rest := s[after..];
    var j := IndexOf(rest, sep);
    if j < 0 then rest else rest[..j]
  }

  /** `split(sep)[1]` is the text after the first `sep`, up to the next
      `sep` that starts after it or, when there is none, to the end. */
  lemma SplitSecondSpan(s: string, sep: string)
    requires sep != [] && Includes(s, sep)
    ensures IndexOf(s, sep) + |sep| <= |s|
    ensures var rest := s[IndexOf(s, sep) + |sep|..];
            var r := SplitSecond(s, sep);
            |r| <= |rest| && r == rest[..|r|] && (r == rest || OccursAt(rest, sep, |r|))
            && forall i :: 0 <= i < |r| ==> !OccursAt(rest, sep, i)
  {
    IndexOfFound(s, sep);
    var rest := s[IndexOf(s, sep) + |sep|..];
    IndexOfFound(rest, sep);
    IndexOfSpec(rest, sep);
  }

  /** `split(sep)[1]` holds no `sep`. */
  lemma SplitSecondHasNoSeparator(s: string, sep: string)
    requires sep != [] && Includes(s, sep)
    ensures !Includes(SplitSecond(s, sep), sep)
  {
    IndexOfFound(s, sep);
    var after := IndexOf(s, sep) + |sep|;
    var rest := s[after..];
    var j := IndexOf(rest, sep);
    NoOccurrenceBefore(rest, sep, SplitSecond(s, sep), j);
  }

  /** A prefix of `rest` that stops before the first occurrence of `sep`
      holds no occurrence of `sep`. */
  lemma NoOccurrenceBefore(rest: string, sep: string, r: string, j: int)
    requires sep != []
    requires j == IndexOf(rest, sep)
    requires r == if j < 0 then rest else rest[..j]
    ensures !Includes(r, sep)
  {
    IndexOfSpec(rest, sep);
    IndexOfFound(r, sep);
    if j >= 0 && IndexOf(r, sep) >= 0 {
      var k := IndexOf(r, sep);
      assert r[k..k + |sep|] == sep;
      assert rest[k..k + |sep|] == r[k..k + |sep|];
      assert OccursAt(rest, sep, k) && k < j;
      assert false;
    }
  }
}
