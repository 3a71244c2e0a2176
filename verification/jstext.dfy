/** The pieces of JavaScript's String and Array behaviour the lunch bot relies on:
    `trim`, `split(' ')`, `startsWith`, `includes`, `filter`, `splice(i, 1)` and a
    case-insensitive substring test standing for `new RegExp(keyword, 'i')`. */
module JsText {

  datatype Option<+T> = None | Some(value: T)

  /** `x || d` for a value that may be missing: a missing value and the empty string are falsy. */
  function OrDefault(s: Option<string>, d: string): (r: string)
    ensures s.Some? && s.value != "" ==> r == s.value
    ensures (s.None? || s.value == "") ==> r == d
  {
    if s.Some? && s.value != "" then s.value else d
  }

  /** A default for a value left undefined (a schema default, or a destructuring default):
      the given value, or `d` when there is none. */
  function Default<T>(v: Option<T>, d: T): (r: T)
    ensures v.Some? ==> r == v.value
    ensures v.None? ==> r == d
  {
    if v.Some? then v.value else d
  }

  /** A JavaScript value that is a non-empty string (truthy). */
  predicate Truthy(s: Option<string>) {
    s.Some? && s.value != ""
  }

  /** The characters of the WhiteSpace and LineTerminator productions: what `\s` matches
      and what `String.prototype.trim` strips. */
  predicate IsSpace(c: char) {
    || c == '\t' || c == '\n' || c == '\U{000B}' || c == '\U{000C}' || c == '\r' || c == ' '
    || c == '\U{00A0}' || c == '\U{1680}' || ('\U{2000}' <= c <= '\U{200A}')
    || c == '\U{2028}' || c == '\U{2029}' || c == '\U{202F}' || c == '\U{205F}'
    || c == '\U{3000}' || c == '\U{FEFF}'
  }

  predicate AllSpace(s: string) {
    forall k :: 0 <= k < |s| ==> IsSpace(s[k])
  }

  /** Drops the leading white space. */
  function TrimStart(s: string): (r: string)
    ensures |r| <= |s| && r == s[|s| - |r|..]
    ensures AllSpace(s[..|s| - |r|])
    ensures r == [] || !IsSpace(r[0])
  {
    if s != [] && IsSpace(s[0]) then TrimStart(s[1..]) else s
  }

  /** Drops the trailing white space. */
  function TrimEnd(s: string): (r: string)
    ensures |r| <= |s| && r == s[..|r|]
    ensures AllSpace(s[|r|..])
    ensures r == [] || !IsSpace(r[|r| - 1])
  {
    if s != [] && IsSpace(s[|s| - 1]) then TrimEnd(s[..|s| - 1]) else s
  }

  /** `s.trim()`: the longest infix of `s` that neither starts nor ends with white space,
      obtained by dropping only white space at both ends. */
  function Trim(s: string): (r: string)
    ensures |r| <= |s|
    ensures r == [] || (!IsSpace(r[0]) && !IsSpace(r[|r| - 1]))
  {
    TrimEnd(TrimStart(s))
  }

  /** `trim` removes white space only: the result is an infix of `s` whose surroundings are
      all white space. */
  lemma TrimDropsOnlySpace(s: string)
    ensures exists i, j :: 0 <= i <= j <= |s| && Trim(s) == s[i..j] && AllSpace(s[..i]) && AllSpace(s[j..])
  {
    var t := TrimStart(s);
    var r := TrimEnd(t);
    var i := |s| - |t|;
    var j := i + |r|;
    assert Trim(s) == r;
    assert r == s[i..j];
    assert AllSpace(s[..i]);
    assert s[j..] == t[|r|..];
    assert AllSpace(s[j..]);
  }

  /** A string with no white space at either end is its own trim. */
  lemma {:induction false} TrimOfTrimmed(s: string)
    requires s == [] || (!IsSpace(s[0]) && !IsSpace(s[|s| - 1]))
    ensures Trim(s) == s
  {
  }

  /** Trimming twice is trimming once. */
  lemma {:induction false} TrimIdempotent(s: string)
    ensures Trim(Trim(s)) == Trim(s)
  {
    TrimOfTrimmed(Trim(s));
  }

  /** A string trims to "" exactly when it is all white space. */
  lemma {:induction false} TrimEmptyIffAllSpace(s: string)
    ensures Trim(s) == "" <==> AllSpace(s)
  {
    var t := TrimStart(s);
    var n := |s| - |t|;
    assert Trim(s) == TrimEnd(t);
    if AllSpace(s) {
      assert t == [];
    }
    if Trim(s) == "" {
      assert AllSpace(t[0..]);
      assert t == [];
      forall k | 0 <= k < |s| ensures IsSpace(s[k]) {
        assert s[..n][k] == s[k];
      }
    }
  }

  /** One space on each side of a trimmed, non-empty string is all `trim` removes. */
  lemma TrimPadded(n: string)
    requires n != [] && !IsSpace(n[0]) && !IsSpace(n[|n| - 1])
    ensures Trim([' '] + n + [' ']) == n
  {
    var q := n + [' '];
    assert [' '] + n + [' '] == [' '] + q;
    TrimStartSkips(' ', q);
    assert q[0] == n[0];
    assert q[..|q| - 1] == n;
    TrimEndSkips(n, ' ');
  }

  lemma TrimStartSkips(c: char, s: string)
    requires IsSpace(c) && s != [] && !IsSpace(s[0])
    ensures TrimStart([c] + s) == s
  {
    assert ([c] + s)[1..] == s;
  }

  lemma TrimEndSkips(s: string, c: char)
    requires IsSpace(c) && s != [] && !IsSpace(s[|s| - 1])
    ensures TrimEnd(s + [c]) == s
  {
    assert (s + [c])[..|s|] == s;
  }

  /** `s.startsWith(p)`. */
  predicate StartsWith(s: string, p: string) {
    |p| <= |s| && s[..|p|] == p
  }

  /** `s.split(sep)` for a one-character separator: every occurrence of `sep` ends a part,
      so adjacent separators give empty parts. */
  function Split(s: string, sep: char): (parts: seq<string>)
    ensures |parts| >= 1
    ensures forall k :: 0 <= k < |parts| ==> sep !in parts[k]
  {
    if s == [] then [""]
    else
      var rest := Split(s[1..], sep);
      if s[0] == sep then [""] + rest else [[s[0]] + rest[0]] + rest[1..]
  }

  /** `parts.join(sep)`. */
  function Join(parts: seq<string>, sep: char): string
    requires |parts| >= 1
  {
    if |parts| == 1 then parts[0] else parts[0] + [sep] + Join(parts[1..], sep)
  }

  /** Splitting and joining again gives back the original message: no character is lost
      or invented by `split(' ')`. */
  lemma {:induction false} JoinSplit(s: string, sep: char)
    ensures Join(Split(s, sep), sep) == s
  {
    if s != [] {
      var rest := Split(s[1..], sep);
      JoinSplit(s[1..], sep);
      if s[0] == sep {
        assert Split(s, sep)[1..] == rest;
      } else {
        var parts := Split(s, sep);
        if |rest| == 1 {
          assert parts == [[s[0]] + rest[0]];
        } else {
          assert parts[1..] == rest[1..];
          assert Join(rest, sep) == rest[0] + [sep] + Join(rest[1..], sep);
        }
      }
    }
  }

  /** A word free of the separator is a single part. */
  lemma {:induction false} SplitWord(w: string, sep: char)
    requires sep !in w
    ensures Split(w, sep) == [w]
  {
    if w != [] {
      SplitWord(w[1..], sep);
      assert [w[0]] + w[1..] == w;
    }
  }

  /** A leading separator ends an empty first part. */
  lemma SplitSep(t: string, sep: char)
    ensures Split([sep] + t, sep) == [""] + Split(t, sep)
  {
    assert ([sep] + t)[1..] == t;
  }

  /** A word free of the separator merges into the first part of what follows it. */
  lemma {:induction false} SplitPrefix(w: string, s: string, sep: char)
    requires sep !in w
    ensures Split(w + s, sep) == [w + Split(s, sep)[0]] + Split(s, sep)[1..]
  {
    if w != [] {
      assert (w + s)[1..] == w[1..] + s;
      assert (w + s)[0] == w[0];
      SplitPrefix(w[1..], s, sep);
      assert [w[0]] + (w[1..] + Split(s, sep)[0]) == w + Split(s, sep)[0];
    } else {
      assert w + s == s;
      assert w + Split(s, sep)[0] == Split(s, sep)[0];
      assert Split(s, sep) == [Split(s, sep)[0]] + Split(s, sep)[1..];
    }
  }

  /** The number of occurrences of `c` in `s`. */
  function Occurrences(s: string, c: char): nat {
    if s == [] then 0 else (if s[0] == c then 1 else 0) + Occurrences(s[1..], c)
  }

  /** `split` gives one more part than there are separators. */
  lemma {:induction false} SplitCount(s: string, sep: char)
    ensures |Split(s, sep)| == Occurrences(s, sep) + 1
  {
    if s != [] {
      SplitCount(s[1..], sep);
    }
  }

  /** `s.split(' ')[i]`, with `undefined` written as "" (both are falsy, and the handlers
      only test arguments for truthiness or compare them with strings). */
  function Arg(s: string, i: nat): (a: string)
    ensures ' ' !in a
    ensures i > Occurrences(s, ' ') ==> a == ""
  {
    var parts := Split(s, ' ');
    SplitCount(s, ' ');
    if i < |parts| then parts[i] else ""
  }

  /** The index `Array.prototype.splice(start, 1)` starts at: a negative start counts from the end. */
  function SpliceStart(len: nat, start: int): (k: nat)
    ensures k <= len
    ensures 0 <= start ==> k == if start < len then start else len
    ensures start < 0 && -start <= len ==> k == len + start
    ensures start < 0 && -start > len ==> k == 0
  {
    if start < 0 then (if len + start < 0 then 0 else len + start)
    else if start < len then start else len
  }

  /** `a.splice(start, 1)`: the array afterwards and the removed elements (at most one). */
  function SpliceOne<T>(a: seq<T>, start: int): (r: (seq<T>, seq<T>))
    ensures |r.1| <= 1 && |r.0| + |r.1| == |a|
    ensures r.1 == [] <==> SpliceStart(|a|, start) == |a|
    ensures r.1 != [] ==> var k := SpliceStart(|a|, start);
      r.1 == [a[k]] && r.0 == a[..k] + a[k + 1..]
    ensures r.1 == [] ==> r.0 == a
    ensures multiset(r.0) + multiset(r.1) == multiset(a)
  {
    var k := SpliceStart(|a|, start);
    if k < |a| then
      assert a == a[..k] + [a[k]] + a[k + 1..];
      (a[..k] + a[k + 1..], [a[k]])
    else (a, [])
  }

  /** `a.filter((o) => o !== x)`. */
  function RemoveAll(a: seq<string>, x: string): (r: seq<string>)
    ensures x !in r
    ensures forall y :: y != x ==> multiset(r)[y] == multiset(a)[y]
    ensures |r| <= |a|
  {
    if a == [] then []
    else
      assert a == [a[0]] + a[1..];
      if a[0] == x then RemoveAll(a[1..], x) else [a[0]] + RemoveAll(a[1..], x)
  }

  /** Filtering works piecewise, so the kept elements stay in their original order. */
  lemma {:induction false} RemoveAllAppend(a: seq<string>, b: seq<string>, x: string)
    ensures RemoveAll(a + b, x) == RemoveAll(a, x) + RemoveAll(b, x)
  {
    if a == [] {
      assert a + b == b;
    } else {
      assert (a + b)[0] == a[0] && (a + b)[1..] == a[1..] + b;
      RemoveAllAppend(a[1..], b, x);
    }
  }

  /** ASCII upper-case letters fold to lower case; other characters are left alone. */
  function LowerChar(c: char): char {
    if 'A' <= c <= 'Z' then (c as int + 32) as char else c
  }

  function Lower(s: string): (r: string)
    ensures |r| == |s|
    ensures forall k :: 0 <= k < |s| ==> r[k] == LowerChar(s[k])
  {
    seq(|s|, k requires 0 <= k < |s| => LowerChar(s[k]))
  }

  /** The keyword occurs in `name` at position `i`, ignoring case. */
  predicate MatchesAt(name: string, keyword: string, i: int) {
    0 <= i && i + |keyword| <= |name| && Lower(name[i..i + |keyword|]) == Lower(keyword)
  }

  /** `new RegExp(keyword, 'i').test(name)` for a keyword read as a literal. */
  predicate ContainsIgnoringCase(name: string, keyword: string) {
    exists i :: 0 <= i <= |name| - |keyword| && MatchesAt(name, keyword, i)
  }

  /** Matching at one position ignores case on both sides. */
  lemma MatchesAtLower(name: string, keyword: string, i: int)
    ensures MatchesAt(name, keyword, i) <==> MatchesAt(Lower(name), Lower(keyword), i)
  {
    LowerTwice(keyword);
    if 0 <= i && i + |keyword| <= |name| {
      assert Lower(name)[i..i + |keyword|] == Lower(name[i..i + |keyword|]);
      LowerTwice(name[i..i + |keyword|]);
    }
  }

  /** Matching ignores case on both sides. */
  lemma {:induction false} ContainsIgnoringCaseOfLower(name: string, keyword: string)
    ensures ContainsIgnoringCase(name, keyword) <==> ContainsIgnoringCase(Lower(name), Lower(keyword))
  {
    if ContainsIgnoringCase(name, keyword) {
      var i :| 0 <= i <= |name| - |keyword| && MatchesAt(name, keyword, i);
      MatchesAtLower(name, keyword, i);
    }
    if ContainsIgnoringCase(Lower(name), Lower(keyword)) {
      var i :| 0 <= i <= |Lower(name)| - |Lower(keyword)| && MatchesAt(Lower(name), Lower(keyword), i);
      MatchesAtLower(name, keyword, i);
    }
  }

  /** The keyword's own case does not matter. */
  lemma ContainsLowerKeyword(name: string, keyword: string)
    ensures ContainsIgnoringCase(name, keyword) <==> ContainsIgnoringCase(name, Lower(keyword))
  {
    LowerTwice(keyword);
    assert forall i :: MatchesAt(name, keyword, i) <==> MatchesAt(name, Lower(keyword), i);
  }

  lemma LowerTwice(s: string)
    ensures Lower(Lower(s)) == Lower(s)
  {
  }

  /** Every name contains the empty keyword. */
  lemma EmptyKeywordMatchesAll(name: string)
    ensures ContainsIgnoringCase(name, "")
  {
    assert MatchesAt(name, "", 0);
  }
}
