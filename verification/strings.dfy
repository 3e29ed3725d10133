/** String helpers shared by the command builder and the junk-file filter. */
module Strings {

  predicate StartsWith(s: string, prefix: string) {
    |prefix| <= |s| && s[..|prefix|] == prefix
  }

  predicate EndsWith(s: string, suffix: string) {
    |suffix| <= |s| && s[|s| - |suffix|..] == suffix
  }

  /** Sum of the lengths of the strings in `xs`. */
  function TotalLength(xs: seq<string>): (n: nat) {
    if |xs| == 0 then 0 else |xs[0]| + TotalLength(xs[1..])
  }

  /** `Array.prototype.join`: the elements of `xs` with `sep` between neighbours. */
  function Join(xs: seq<string>, sep: string): (r: string)
    ensures |xs| == 0 ==> r == ""
    ensures |xs| > 0 ==> StartsWith(r, xs[0])
    decreases |xs|
  {
    if |xs| == 0 then ""
    else if |xs| == 1 then xs[0]
    else
      var rest := Join(xs[1..], sep);
      assert (xs[0] + sep + rest)[..|xs[0]|] == xs[0];
      xs[0] + sep + rest
  }

  /** The join holds every character of the elements plus one separator per gap. */
  lemma {:induction false} JoinLength(xs: seq<string>, sep: string)
    requires |xs| > 0
    ensures |Join(xs, sep)| == TotalLength(xs) + (|xs| - 1) * |sep|
    decreases |xs|
  {
    if |xs| > 1 {
      JoinLength(xs[1..], sep);
      assert (|xs| - 1) * |sep| == |sep| + (|xs| - 2) * |sep|;
    }
  }

  /** `String.prototype.split` on a single character: the pieces between the
      occurrences of `c`, so a string without `c` is one piece. */
  function Split(s: string, c: char): (pieces: seq<string>)
    ensures |pieces| > 0
    ensures c !in s ==> pieces == [s]
    decreases |s|
  {
    if |s| == 0 then [""]
    else
      var rest := Split(s[1..], c);
      if s[0] == c then [""] + rest
      else
        assert c !in s ==> [s[0]] + rest[0] == s;
        [[s[0]] + rest[0]] + rest[1..]
  }

  /** Splitting at the first occurrence of `c` peels off the text before it. */
  lemma {:induction false} SplitAfter(a: string, b: string, c: char)
    requires c !in a
    ensures Split(a + [c] + b, c) == [a] + Split(b, c)
    decreases |a|
  {
    if |a| == 0 {
      assert a + [c] + b == [c] + b;
      assert ([c] + b)[1..] == b;
    } else {
      assert (a + [c] + b)[1..] == a[1..] + [c] + b;
      SplitAfter(a[1..], b, c);
      assert [a[0]] + a[1..] == a;
    }
  }

  /** Splitting undoes joining with a one-character separator, provided no
      element contains that character. */
  lemma {:induction false} SplitJoin(xs: seq<string>, c: char)
    requires |xs| > 0
    requires forall i :: 0 <= i < |xs| ==> c !in xs[i]
    ensures Split(Join(xs, [c]), c) == xs
    decreases |xs|
  {
    if |xs| == 1 {
      assert xs == [xs[0]];
    } else {
      SplitJoin(xs[1..], c);
      SplitAfter(xs[0], Join(xs[1..], [c]), c);
      assert xs == [xs[0]] + xs[1..];
    }
  }

  /** Joining is a homomorphism from sequence concatenation: joining two
      non-empty halves separately and gluing them with `sep` gives the join of the whole. */
  lemma {:induction false} JoinAppend(a: seq<string>, b: seq<string>, sep: string)
    requires |a| > 0 && |b| > 0
    ensures Join(a + b, sep) == Join(a, sep) + sep + Join(b, sep)
    decreases |a|
  {
    if |a| == 1 {
      assert (a + b)[1..] == b;
    } else {
      assert (a + b)[1..] == a[1..] + b;
      JoinAppend(a[1..], b, sep);
    }
  }

  /** Pushing one more element onto a non-empty list extends its join by `sep` and that element. */
  lemma JoinSnoc(xs: seq<string>, x: string, sep: string)
    requires |xs| > 0
    ensures Join(xs + [x], sep) == Join(xs, sep) + sep + x
    ensures EndsWith(Join(xs + [x], sep), sep + x)
  {
    JoinAppend(xs, [x], sep);
    EndsWithAppend(Join(xs, sep), sep + x);
    assert Join(xs, sep) + sep + x == Join(xs, sep) + (sep + x);
  }

  lemma EndsWithAppend(s: string, suffix: string)
    ensures EndsWith(s + suffix, suffix)
  {
    assert (s + suffix)[|s|..] == suffix;
  }

  /** ASCII upper-casing, the canonicalisation a case-insensitive JavaScript
      regular expression (without the `u` flag) applies to ASCII pattern characters;
      a non-ASCII character never canonicalises to an ASCII one, so it is left alone. */
  function UpperChar(c: char): (u: char)
    ensures 'a' <= c <= 'z' ==> 'A' <= u <= 'Z' && u as int == c as int - 32
    ensures !('a' <= c <= 'z') ==> u == c
  {
    if 'a' <= c <= 'z' then (c as int - 32) as char else c
  }

  /** Equality up to ASCII case. */
  predicate EqualIgnoringCase(a: string, b: string) {
    |a| == |b| && forall i :: 0 <= i < |a| ==> UpperChar(a[i]) == UpperChar(b[i])
  }

  /** `s` ends in `suffix`, comparing ASCII letters case-insensitively. */
  predicate EndsWithIgnoringCase(s: string, suffix: string) {
    |suffix| <= |s| && EqualIgnoringCase(s[|s| - |suffix|..], suffix)
  }

  /** The last two elements of a list of three or more end its join, each preceded by `sep`. */
  lemma JoinEndsWithLastTwo(xs: seq<string>, sep: string)
    requires |xs| >= 3
    ensures EndsWith(Join(xs, sep), sep + xs[|xs| - 2] + sep + xs[|xs| - 1])
  {
    var n := |xs|;
    var mid := xs[..n - 1];
    assert mid + [xs[n - 1]] == xs;
    assert mid[..n - 2] + [xs[n - 2]] == mid;
    JoinSnoc(mid[..n - 2], xs[n - 2], sep);
    EndsWithExtend(Join(mid, sep), sep + xs[n - 2], sep);
    EndsWithExtend(Join(mid, sep) + sep, sep + xs[n - 2] + sep, xs[n - 1]);
    JoinSnoc(mid, xs[n - 1], sep);
  }

  lemma EndsWithExtend(s: string, t: string, u: string)
    requires EndsWith(s, t)
    ensures EndsWith(s + u, t + u)
  {
    assert (s + u)[|s + u| - |t + u|..] == s[|s| - |t|..] + u;
  }

}
