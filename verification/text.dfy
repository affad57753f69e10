/** The Python string operations the backend relies on: `str.strip()`
    with no argument, `str.split(sep)` with a one-character separator,
    `sep.join(parts)`, and the character replacement that a split followed
    by a join amounts to. */
module Text {

  /** Python's `str.isspace()` for one character: the characters that
      `str.strip()` and `str.split()` treat as whitespace. */
  predicate IsSpace(c: char) {
    var n := c as int;
    || (0x09 <= n <= 0x0D) || (0x1C <= n <= 0x20)
    || n == 0x85 || n == 0xA0 || n == 0x1680
    || (0x2000 <= n <= 0x200A)
    || n == 0x2028 || n == 0x2029 || n == 0x202F || n == 0x205F || n == 0x3000
  }

  predicate AllSpace(s: string) {
    forall i :: 0 <= i < |s| ==> IsSpace(s[i])
  }

  /** Neither end of `s` is whitespace. */
  predicate Trimmed(s: string) {
    |s| == 0 || (!IsSpace(s[0]) && !IsSpace(s[|s| - 1]))
  }

  /** Every character of `s` in positions `lo` to `hi - 1` is whitespace. */
  predicate SpaceBetween(s: string, lo: nat, hi: nat)
    requires lo <= hi <= |s|
  {
    forall i :: lo <= i < hi ==> IsSpace(s[i])
  }

  /** The first position at or after `i` that does not hold whitespace. */
  function SkipSpace(s: string, i: nat): (j: nat)
    requires i <= |s|
    ensures i <= j <= |s|
    ensures SpaceBetween(s, i, j)
    ensures j == |s| || !IsSpace(s[j])
    decreases |s| - i
  {
    if i < |s| && IsSpace(s[i]) then SkipSpace(s, i + 1) else i
  }

  /** The position just after the last non-whitespace character before
      `j`, searching no further back than `lo`. */
  function SkipSpaceBack(s: string, lo: nat, j: nat): (k: nat)
    requires lo <= j <= |s|
    ensures lo <= k <= j
    ensures SpaceBetween(s, k, j)
    ensures k == lo || !IsSpace(s[k - 1])
    decreases j
  {
    if j > lo && IsSpace(s[j - 1]) then SkipSpaceBack(s, lo, j - 1) else j
  }

  /** Where the stripped text starts in `s`. */
  function StripStart(s: string): nat {
    SkipSpace(s, 0)
  }

  /** Where the stripped text ends in `s`. */
  function StripEnd(s: string): (e: nat)
    ensures StripStart(s) <= e <= |s|
  {
    SkipSpaceBack(s, StripStart(s), |s|)
  }

  /** Python `s.strip()`: `s` without its leading and trailing whitespace. */
  function Strip(s: string): (r: string)
    ensures |r| <= |s|
    ensures Trimmed(r)
    ensures AllSpace(s[..StripStart(s)]) && AllSpace(s[StripEnd(s)..])
    ensures r == s[StripStart(s)..StripEnd(s)]
  {
    var a := StripStart(s);
    var e := StripEnd(s);
    assert AllSpace(s[..a]) by {
      forall i | 0 <= i < a ensures IsSpace(s[..a][i]) {
        assert s[..a][i] == s[i];
      }
    }
    assert AllSpace(s[e..]) by {
      forall i | 0 <= i < |s| - e ensures IsSpace(s[e..][i]) {
        assert s[e..][i] == s[e + i];
      }
    }
    s[a..e]
  }

  /** `Strip` is characterised by its postcondition: whatever splits `s`
      into a whitespace prefix, a trimmed middle and a whitespace suffix,
      the middle is `Strip(s)`. */
  lemma {:induction false} StripUnique(pre: string, m: string, post: string)
    requires AllSpace(pre) && AllSpace(post) && Trimmed(m)
    ensures Strip(pre + m + post) == m
  {
    var s := pre + m + post;
    var p := |pre|;
    var q := |pre| + |m|;
    assert forall i :: 0 <= i < p ==> s[i] == pre[i];
    assert forall i :: q <= i < |s| ==> s[i] == post[i - q];
    assert forall i :: p <= i < q ==> s[i] == m[i - p];
    var a := StripStart(s);
    if |m| == 0 {
      assert a == |s|;
    } else {
      assert s[p] == m[0];
      assert a == p;
      assert s[q - 1] == m[|m| - 1];
      assert StripEnd(s) == q;
      assert s[p..q] == m;
    }
  }

  /** Stripping twice is stripping once. */
  lemma StripIdempotent(s: string)
    ensures Strip(Strip(s)) == Strip(s)
  {
    var r := Strip(s);
    assert [] + r + [] == r;
    StripUnique([], r, []);
  }

  /** Whitespace added around a string does not change what it strips to. */
  lemma StripIgnoresPadding(pre: string, s: string, post: string)
    requires AllSpace(pre) && AllSpace(post)
    ensures Strip(pre + s + post) == Strip(s)
  {
    var r := Strip(s);
    var a := StripStart(s);
    var e := StripEnd(s);
    assert s == s[..a] + r + s[e..];
    var pre' := pre + s[..a];
    var post' := s[e..] + post;
    assert AllSpace(pre') by {
      forall i | 0 <= i < |pre'| ensures IsSpace(pre'[i]) {
        if i >= |pre| {
          assert pre'[i] == s[..a][i - |pre|];
        }
      }
    }
    assert AllSpace(post') by {
      forall i | 0 <= i < |post'| ensures IsSpace(post'[i]) {
        if i >= |s[e..]| {
          assert post'[i] == post[i - |s[e..]|];
        }
      }
    }
    assert pre + s + post == pre' + r + post';
    StripUnique(pre', r, post');
  }

  /** `s` with every `from` character replaced by `to`. */
  function Replace(s: string, from: char, to: char): (r: string)
    ensures |r| == |s|
    ensures forall i :: 0 <= i < |s| ==> r[i] == (if s[i] == from then to else s[i])
    decreases |s|
  {
    if |s| == 0 then [] else [if s[0] == from then to else s[0]] + Replace(s[1..], from, to)
  }

  /** Python `s.split(sep)` for a one-character separator. */
  function Split(s: string, sep: char): (parts: seq<string>)
    ensures |parts| >= 1
    ensures forall i :: 0 <= i < |parts| ==> sep !in parts[i]
    decreases |s|
  {
    if |s| == 0 then
      [""]
    else if s[0] == sep then
      [""] + Split(s[1..], sep)
    else
      var rest := Split(s[1..], sep);
      assert sep !in rest[0];
      [[s[0]] + rest[0]] + rest[1..]
  }

  /** Python `sep.join(parts)`. */
  function Join(sep: string, parts: seq<string>): (r: string)
    ensures |parts| == 0 ==> r == ""
    ensures |parts| >= 1 ==> parts[0] <= r
    ensures |parts| >= 2 ==> parts[0] + sep <= r
    decreases |parts|
  {
    if |parts| == 0 then ""
    else if |parts| == 1 then parts[0]
    else parts[0] + sep + Join(sep, parts[1..])
  }

  /** Joining the pieces of a split with the separator gives back the
      original string. */
  lemma {:induction false} JoinSplit(s: string, sep: char)
    ensures Join([sep], Split(s, sep)) == s
    decreases |s|
  {
    if |s| > 0 {
      JoinSplit(s[1..], sep);
      var rest := Split(s[1..], sep);
      if s[0] == sep {
        assert Split(s, sep)[1..] == rest;
      } else {
        JoinHead([s[0]], rest, [sep]);
      }
      assert s == [s[0]] + s[1..];
    }
  }

  /** Splitting on `from` and joining with `to` replaces every `from` by `to`. */
  lemma {:induction false} JoinSplitReplaces(s: string, from: char, to: char)
    ensures Join([to], Split(s, from)) == Replace(s, from, to)
    decreases |s|
  {
    if |s| > 0 {
      JoinSplitReplaces(s[1..], from, to);
      var rest := Split(s[1..], from);
      if s[0] == from {
        assert Split(s, from)[1..] == rest;
      } else {
        JoinHead([s[0]], rest, [to]);
      }
    }
  }

  /** Prepending text to the first part prepends it to the join. */
  lemma JoinHead(c: string, parts: seq<string>, sep: string)
    requires |parts| >= 1
    ensures Join(sep, [c + parts[0]] + parts[1..]) == c + Join(sep, parts)
  {
    var q := [c + parts[0]] + parts[1..];
    if |parts| > 1 {
      assert q[1..] == parts[1..];
    }
  }

  /** Text without the separator splits into itself alone. */
  lemma {:induction false} SplitNoSeparator(s: string, sep: char)
    requires sep !in s
    ensures Split(s, sep) == [s]
    decreases |s|
  {
    if |s| > 0 {
      assert sep !in s[1..];
      SplitNoSeparator(s[1..], sep);
      assert [s[0]] + s[1..] == s;
    }
  }

  /** A separator-free part followed by the separator splits off as one
      part. */
  lemma {:induction false} SplitAfterPart(p: string, sep: char, t: string)
    requires sep !in p
    ensures Split(p + [sep] + t, sep) == [p] + Split(t, sep)
    decreases |p|
  {
    var s := p + [sep] + t;
    if |p| == 0 {
      assert s[1..] == t;
    } else {
      assert s[1..] == p[1..] + [sep] + t;
      SplitAfterPart(p[1..], sep, t);
      assert [p[0]] + p[1..] == p;
    }
  }

  /** Joining separator-free parts and splitting again gives the parts
      back: with `JoinSplit`, `Split` is the only way to cut a string into
      separator-free parts that join back to it. */
  lemma {:induction false} SplitJoin(parts: seq<string>, sep: char)
    requires |parts| >= 1
    requires forall i :: 0 <= i < |parts| ==> sep !in parts[i]
    ensures Split(Join([sep], parts), sep) == parts
    decreases |parts|
  {
    if |parts| == 1 {
      SplitNoSeparator(parts[0], sep);
    } else {
      SplitJoin(parts[1..], sep);
      SplitAfterPart(parts[0], sep, Join([sep], parts[1..]));
      assert [parts[0]] + parts[1..] == parts;
    }
  }
}
