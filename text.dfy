/** Swift's optional values. */
module Wrappers {

  datatype Option<+T> = None | Some(value: T) {

    /** `x ?? default` */
    function GetOr(default: T): T {
      match this
      case Some(v) => v
      case None => default
    }
  }
}

/** The Foundation string operations the app relies on: trimming, case mapping, prefixes. */
module Text {

  /** Members of Foundation's `CharacterSet.whitespacesAndNewlines`: the Unicode
      space separators (Zs), the line and paragraph separators, U+0009..U+000D and U+0085. */
  predicate IsWhitespace(c: char) {
    || ('\t' <= c <= '\r') || c == ' ' || c == '\U{0085}' || c == '\U{00A0}' || c == '\U{1680}'
    || ('\U{2000}' <= c <= '\U{200A}')
    || c == '\U{2028}' || c == '\U{2029}' || c == '\U{202F}' || c == '\U{205F}' || c == '\U{3000}'
  }

  predicate AllWhitespace(s: string) {
    forall k :: 0 <= k < |s| ==> IsWhitespace(s[k])
  }

  /** Every character of `s` at an index in `[lo, hi)` is whitespace. */
  predicate WhitespaceBetween(s: string, lo: int, hi: int)
    requires 0 <= lo <= hi <= |s|
  {
    forall k :: lo <= k < hi ==> IsWhitespace(s[k])
  }

  /** The leading half of trimming: the index of the first character at or after `i` that
      is not whitespace, or `|s|` when there is none. */
  function SkipForward(s: string, i: nat): (j: nat)
    requires i <= |s|
    ensures i <= j <= |s|
    ensures WhitespaceBetween(s, i, j)
    ensures j == |s| || !IsWhitespace(s[j])
    decreases |s| - i
  {
    if i < |s| && IsWhitespace(s[i]) then SkipForward(s, i + 1) else i
  }

  /** The trailing half of trimming: the index just past the last character before `j`, and
      not before `lo`, that is not whitespace, or `lo` when there is none. */
  function SkipBackward(s: string, lo: nat, j: nat): (i: nat)
    requires lo <= j <= |s|
    ensures lo <= i <= j
    ensures WhitespaceBetween(s, i, j)
    ensures i == lo || !IsWhitespace(s[i - 1])
    decreases j
  {
    if lo < j && IsWhitespace(s[j - 1]) then SkipBackward(s, lo, j - 1) else j
  }

  /** `s.trimmingCharacters(in: .whitespacesAndNewlines)` */
  function Trim(s: string): (r: string)
    ensures |r| <= |s|
    ensures r == [] || (!IsWhitespace(r[0]) && !IsWhitespace(r[|r| - 1]))
    ensures r == [] <==> AllWhitespace(s)
  {
    var start := SkipForward(s, 0);
    var end := SkipBackward(s, start, |s|);
    assert AllWhitespace(s) ==> start == |s|;
    s[start..end]
  }

  /** What `Trim` keeps is the middle of `s` itself: the result sits in `s` right after the
      leading whitespace, and everything before and after it is whitespace. */
  lemma TrimIsInfix(s: string)
    ensures var i := SkipForward(s, 0);
            && i + |Trim(s)| <= |s|
            && Trim(s) == s[i..i + |Trim(s)|]
            && WhitespaceBetween(s, 0, i)
            && WhitespaceBetween(s, i + |Trim(s)|, |s|)
  {
  }

  /** Trimming a trimmed string changes nothing. */
  lemma TrimIdempotent(s: string)
    ensures Trim(Trim(s)) == Trim(s)
  {
    var r := Trim(s);
    if r != [] {
      assert SkipForward(r, 0) == 0;
      assert SkipBackward(r, 0, |r|) == |r|;
      assert r[0..|r|] == r;
    }
  }

  function LowerChar(c: char): char {
    if 'A' <= c <= 'Z' then (c as int - 'A' as int + 'a' as int) as char else c
  }

  function UpperChar(c: char): char {
    if 'a' <= c <= 'z' then (c as int - 'a' as int + 'A' as int) as char else c
  }

  /** `s.lowercased()`, on ASCII letters */
  function Lower(s: string): (r: string)
    ensures |r| == |s|
    ensures forall k :: 0 <= k < |s| ==> r[k] == LowerChar(s[k])
  {
    if s == [] then [] else [LowerChar(s[0])] + Lower(s[1..])
  }

  /** `s.uppercased()`, on ASCII letters */
  function Upper(s: string): (r: string)
    ensures |r| == |s|
    ensures forall k :: 0 <= k < |s| ==> r[k] == UpperChar(s[k])
  {
    if s == [] then [] else [UpperChar(s[0])] + Upper(s[1..])
  }

  /** `String(s.prefix(n))`: the first `n` characters, or all of `s` when it is shorter. */
  function Prefix(s: string, n: nat): (r: string)
    ensures |r| == if |s| < n then |s| else n
    ensures r <= s
  {
    if |s| <= n then s else s[..n]
  }

  lemma CaseOfUpperChar(c: char)
    ensures !('a' <= UpperChar(c) <= 'z')
    ensures LowerChar(UpperChar(c)) == LowerChar(c)
  {
  }

  /** Upper-casing leaves no lower-case ASCII letter and does not change the case-insensitive value. */
  lemma UpperIsCaseInsensitiveCopy(s: string)
    ensures forall k :: 0 <= k < |s| ==> !('a' <= Upper(s)[k] <= 'z')
    ensures Lower(Upper(s)) == Lower(s)
  {
    forall k | 0 <= k < |s|
      ensures !('a' <= Upper(s)[k] <= 'z') && Lower(Upper(s))[k] == Lower(s)[k]
    {
      CaseOfUpperChar(s[k]);
    }
  }
}

/** File URLs as strings of path components separated by '/'. */
module Paths {

  /** `dir.appendingPathComponent(name)`: exactly one '/' between the two parts. */
  function AppendingPathComponent(dir: string, name: string): (r: string)
    ensures dir <= r && |r| > |name|
    ensures r[|r| - |name|..] == name && r[|r| - |name| - 1] == '/'
    ensures |r| == |dir| + |name| || |r| == |dir| + 1 + |name|
  {
    if dir != [] && dir[|dir| - 1] == '/' then dir + name else dir + "/" + name
  }

  /** `url.lastPathComponent`: everything after the last '/' (the whole string when there is none). */
  function LastPathComponent(url: string): (r: string)
    ensures |r| <= |url| && r == url[|url| - |r|..]
    ensures '/' !in r
  {
    if url == [] then []
    else if url[|url| - 1] == '/' then []
    else LastPathComponent(url[..|url| - 1]) + [url[|url| - 1]]
  }

  /** The component taken is the longest one: it is the whole URL or it starts right after a '/'. */
  lemma {:induction false} LastIsLongest(url: string)
    ensures var r := LastPathComponent(url);
            |r| == |url| || url[|url| - |r| - 1] == '/'
  {
    if url != [] && url[|url| - 1] != '/' {
      var before := url[..|url| - 1];
      LastIsLongest(before);
      var r := LastPathComponent(before);
      if |r| < |before| {
        assert url[|url| - (|r| + 1) - 1] == before[|before| - |r| - 1];
      }
    }
  }

  /** A name without '/' appended to any directory is the last path component of the result. */
  lemma {:induction false} LastOfAppended(dir: string, name: string)
    requires '/' !in name
    ensures LastPathComponent(AppendingPathComponent(dir, name)) == name
  {
    var u := AppendingPathComponent(dir, name);
    assert u[..|u| - |name|] + name == u;
    LastOfSuffix(u[..|u| - |name|], name);
  }

  lemma {:induction false} LastOfSuffix(prefix: string, name: string)
    requires prefix != [] && prefix[|prefix| - 1] == '/'
    requires '/' !in name
    ensures LastPathComponent(prefix + name) == name
    decreases |name|
  {
    var u := prefix + name;
    if name == [] {
      assert u == prefix;
    } else {
      assert u[..|u| - 1] == prefix + name[..|name| - 1];
      assert name[|name| - 1] in name;
      LastOfSuffix(prefix, name[..|name| - 1]);
    }
  }
}
