/**
 * The fragments of Python's `str` behaviour the model relies on: the slices
 * `s[:n]` and `s[n:]`, `endswith`, `split` and `join` with an explicit
 * separator, and POSIX `os.path.basename`.
 */
module PyText {

  /** Python's `s[:n]` for a non-negative `n`: the slice is clamped to the length. */
  function Head(s: string, n: nat): (r: string)
    ensures |r| <= n && r <= s
    ensures |s| >= n ==> |r| == n
    ensures |s| < n ==> r == s
  {
    if |s| <= n then s else s[..n]
  }

  /** Python's `s[n:]` for a non-negative `n`: empty once `n` passes the end. */
  function Tail(s: string, n: nat): (r: string)
    ensures |s| >= n ==> Head(s, n) + r == s
    ensures |s| <= n ==> r == ""
  {
    if |s| <= n then "" else s[n..]
  }

  predicate StartsWith(s: string, prefix: string) {
    prefix <= s
  }

  /** Python's `s.endswith(suffix)`. */
  predicate EndsWith(s: string, suffix: string) {
    |suffix| <= |s| && s[|s| - |suffix|..] == suffix
  }

  /** A string ends with whatever was appended to it last. */
  lemma EndsWithAppended(stem: string, suffix: string)
    ensures EndsWith(stem + suffix, suffix)
  {
    assert (stem + suffix)[|stem|..] == suffix;
  }

  /** Comparing the clamped head with a literal is the same as a prefix test. */
  lemma HeadIsPrefixTest(s: string, prefix: string)
    ensures Head(s, |prefix|) == prefix <==> StartsWith(s, prefix)
  {
  }

  /** Python's `sep.join(parts)`. */
  function Join(sep: string, parts: seq<string>): string
  {
    if |parts| == 0 then ""
    else if |parts| == 1 then parts[0]
    else parts[0] + sep + Join(sep, parts[1..])
  }

  /** Sum of the lengths of `parts`. */
  function TotalLength(parts: seq<string>): nat
  {
    if |parts| == 0 then 0 else |parts[0]| + TotalLength(parts[1..])
  }

  /**
   * Python's `s.split(c)` for a one-character separator: the pieces between
   * the occurrences of `c`, always at least one (possibly empty) piece.
   */
  function Split(s: string, c: char): (parts: seq<string>)
    ensures |parts| >= 1
    ensures forall i :: 0 <= i < |parts| ==> c !in parts[i]
    ensures Join([c], parts) == s
    decreases |s|
  {
    if |s| == 0 then [""]
    else if s[0] == c then
      var rest := Split(s[1..], c);
      assert s == [c] + s[1..];
      [""] + rest
    else
      var rest := Split(s[1..], c);
      var parts := [[s[0]] + rest[0]] + rest[1..];
      assert s == [s[0]] + s[1..];
      assert forall i :: 1 <= i < |parts| ==> parts[i] == rest[i];
      parts
  }

  /** The longest prefix of `s` that does not contain `c`. */
  function FirstSegment(s: string, c: char): (r: string)
    ensures r <= s && c !in r
    ensures |r| < |s| ==> s[|r|] == c
  {
    if |s| == 0 || s[0] == c then "" else [s[0]] + FirstSegment(s[1..], c)
  }

  /** `name` ends `path` right after a '/', or is all of it. */
  predicate FollowsSlash(path: string, name: string)
    requires |name| <= |path|
  {
    |name| < |path| ==> path[|path| - |name| - 1] == '/'
  }

  /** Python's `os.path.basename` for POSIX paths: everything after the last '/'. */
  function Basename(p: string): (b: string)
    ensures '/' !in b
    ensures |b| <= |p| && p[|p| - |b|..] == b
    ensures FollowsSlash(p, b)
  {
    if |p| == 0 then ""
    else if p[|p| - 1] == '/' then ""
    else
      var init := p[..|p| - 1];
      var b := Basename(init) + [p[|p| - 1]];
      assert p == init + [p[|p| - 1]];
      b
  }

  /** `sep.join` adds exactly one separator between consecutive parts. */
  lemma {:induction false} JoinLength(sep: string, parts: seq<string>)
    requires |parts| >= 1
    ensures |Join(sep, parts)| == TotalLength(parts) + |sep| * (|parts| - 1)
    decreases |parts|
  {
    if |parts| > 1 {
      JoinLength(sep, parts[1..]);
    }
  }

  /** A string without the separator splits into itself alone. */
  lemma {:induction false} SplitNoSeparator(s: string, c: char)
    requires c !in s
    ensures Split(s, c) == [s]
    decreases |s|
  {
    if |s| > 0 {
      SplitNoSeparator(s[1..], c);
    }
  }

  /** Splitting at the first separator peels off the text before it. */
  lemma {:induction false} SplitAtFirst(a: string, c: char, b: string)
    requires c !in a
    ensures Split(a + [c] + b, c) == [a] + Split(b, c)
    decreases |a|
  {
    var s := a + [c] + b;
    if |a| == 0 {
      assert s[1..] == b;
    } else {
      assert s[1..] == a[1..] + [c] + b;
      SplitAtFirst(a[1..], c, b);
      assert [s[0]] + a[1..] == a;
    }
  }

  /** `split` undoes `join` when no part contains the separator. */
  lemma {:induction false} SplitJoin(parts: seq<string>, c: char)
    requires |parts| >= 1
    requires forall i :: 0 <= i < |parts| ==> c !in parts[i]
    ensures Split(Join([c], parts), c) == parts
    decreases |parts|
  {
    if |parts| == 1 {
      SplitNoSeparator(parts[0], c);
    } else {
      SplitJoin(parts[1..], c);
      SplitAtFirst(parts[0], c, Join([c], parts[1..]));
      assert [parts[0]] + parts[1..] == parts;
    }
  }

  /** The first piece of a split is the longest separator-free prefix. */
  lemma {:induction false} SplitFirstIsFirstSegment(s: string, c: char)
    ensures Split(s, c)[0] == FirstSegment(s, c)
    decreases |s|
  {
    if |s| > 0 && s[0] != c {
      SplitFirstIsFirstSegment(s[1..], c);
    }
  }

  /** A name without '/' is its own basename. */
  lemma {:induction false} BasenameOfPlainName(name: string)
    requires '/' !in name
    ensures Basename(name) == name
    decreases |name|
  {
    if |name| > 0 {
      BasenameOfPlainName(name[..|name| - 1]);
    }
  }

  /** Directory components in front of the last '/' are dropped. */
  lemma {:induction false} BasenameAfterSlash(dir: string, name: string)
    requires '/' !in name
    ensures Basename(dir + "/" + name) == name
    decreases |name|
  {
    var p := dir + "/" + name;
    if |name| > 0 {
      var init := name[..|name| - 1];
      assert p[..|p| - 1] == dir + "/" + init;
      BasenameAfterSlash(dir, init);
    }
  }

  /** Taking the basename a second time changes nothing. */
  lemma BasenameIdempotent(p: string)
    ensures Basename(Basename(p)) == Basename(p)
  {
    BasenameOfPlainName(Basename(p));
  }

  /** A separator-free word followed by a separator (or nothing) is the first segment. */
  lemma {:induction false} FirstSegmentOfWord(word: string, c: char, rest: string)
    requires c !in word
    requires rest == [] || rest[0] == c
    ensures FirstSegment(word + rest, c) == word
    decreases |word|
  {
    if |word| > 0 {
      assert (word + rest)[1..] == word[1..] + rest;
      FirstSegmentOfWord(word[1..], c, rest);
    }
  }

  /** Where part `i` starts in `Join(sep, parts)`: the parts before it plus one separator each. */
  function Offset(sep: string, parts: seq<string>, i: nat): nat
    requires i <= |parts|
  {
    TotalLength(parts[..i]) + i * |sep|
  }

  /** Part `i` sits at its offset in `joined`, and a separator follows it unless it is the last. */
  predicate PlacedAt(joined: string, sep: string, parts: seq<string>, i: nat)
    requires i < |parts|
  {
    var off := Offset(sep, parts, i);
    && off + |parts[i]| <= |joined|
    && joined[off..off + |parts[i]|] == parts[i]
    && (i < |parts| - 1 ==>
          off + |parts[i]| + |sep| <= |joined| && joined[off + |parts[i]|..off + |parts[i]| + |sep|] == sep)
  }

  /** A join cut after part `i`: the first `i + 1` parts, one separator, the rest. */
  lemma {:induction false} JoinSplitAt(sep: string, parts: seq<string>, i: nat)
    requires i < |parts| - 1
    ensures Join(sep, parts) == Join(sep, parts[..i + 1]) + sep + Join(sep, parts[i + 1..])
    decreases i
  {
    if i > 0 {
      var tail := parts[1..];
      JoinSplitAt(sep, tail, i - 1);
      assert tail[..i] == parts[..i + 1][1..];
      assert tail[i..] == parts[i + 1..];
    }
  }

  /** A join starts with its first part, followed by the separator when more parts follow. */
  lemma JoinStartsWithFirst(sep: string, parts: seq<string>)
    requires |parts| >= 1
    ensures parts[0] <= Join(sep, parts)
    ensures |parts| >= 2 ==> parts[0] + sep <= Join(sep, parts)
  {
  }

  /** Text `p + q` at the start of `b` sits right after `a` in `a + b`. */
  lemma PlacedAfter(a: string, b: string, p: string, q: string)
    requires p + q <= b
    ensures |a| + |p| + |q| <= |a + b|
    ensures (a + b)[|a|..|a| + |p|] == p
    ensures (a + b)[|a| + |p|..|a| + |p| + |q|] == q
  {
    assert (a + b)[|a|..|a| + |p| + |q|] == p + q;
  }

  /** Every part of a join sits at its offset, followed by the separator unless it is the last. */
  lemma {:induction false} JoinPlacesPart(sep: string, parts: seq<string>, i: nat)
    requires i < |parts|
    ensures PlacedAt(Join(sep, parts), sep, parts, i)
  {
    var rest := parts[i..];
    var tailJ := Join(sep, rest);
    var p := parts[i];
    assert rest[0] == p;
    JoinStartsWithFirst(sep, rest);
    var next := if i < |parts| - 1 then sep else "";
    assert i < |parts| - 1 ==> |rest| >= 2;
    var before := if i == 0 then "" else Join(sep, parts[..i]) + sep;
    if i == 0 {
      assert parts[..0] == [] && rest == parts;
      assert Join(sep, parts) == before + tailJ;
    } else {
      JoinSplitAt(sep, parts, i - 1);
      OffsetAfterHead(sep, parts, i);
    }
    assert |before| == Offset(sep, parts, i);
    PlacedAfter(before, tailJ, p, next);
  }

  /** The offset of part `i > 0` is just past the join of the parts before it and one separator. */
  lemma OffsetAfterHead(sep: string, parts: seq<string>, i: nat)
    requires 0 < i < |parts|
    ensures |Join(sep, parts[..i])| + |sep| == Offset(sep, parts, i)
  {
    JoinLength(sep, parts[..i]);
    assert |sep| * (i - 1) + |sep| == i * |sep|;
  }

  /** `JoinPlacesPart` for every part at once. */
  lemma JoinPlacesEveryPart(sep: string, parts: seq<string>)
    ensures forall i :: 0 <= i < |parts| ==> PlacedAt(Join(sep, parts), sep, parts, i)
  {
    forall i | 0 <= i < |parts|
      ensures PlacedAt(Join(sep, parts), sep, parts, i)
    {
      JoinPlacesPart(sep, parts, i);
    }
  }
}
