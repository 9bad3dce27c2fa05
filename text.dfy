/**
 * The Python string operations the pipeline relies on: str.strip(),
 * str.lstrip(c), str.replace(old, new), str.split(sep) and sep.join(parts).
 */
module Text {
  import opened Seqs

  /** The characters for which Python's str.isspace() holds; the regular
      expression class \s matches exactly these on str patterns. */
  predicate IsSpace(c: char) {
    || c == ' '
    || ('\t' <= c <= '\r')
    || ('\U{1C}' <= c <= '\U{1F}')
    || c == '\U{85}' || c == '\U{A0}' || c == '\U{1680}'
    || ('\U{2000}' <= c <= '\U{200A}')
    || c == '\U{2028}' || c == '\U{2029}' || c == '\U{202F}' || c == '\U{205F}'
    || c == '\U{3000}'
  }

  /** s has no leading and no trailing whitespace. */
  predicate Trimmed(s: string) {
    s == [] || (!IsSpace(s[0]) && !IsSpace(s[|s| - 1]))
  }

  /** str.lstrip(): the longest suffix of s that does not start with whitespace. */
  function TrimLeft(s: string): (r: string)
    ensures |r| <= |s| && r == s[|s| - |r|..]
    ensures forall i :: 0 <= i < |s| - |r| ==> IsSpace(s[i])
    ensures r == [] || !IsSpace(r[0])
  {
    if s != [] && IsSpace(s[0]) then TrimLeft(s[1..]) else s
  }

  /** Text that does not start with whitespace has none to drop on the left. */
  lemma TrimLeftNone(s: string)
    requires s == [] || !IsSpace(s[0])
    ensures TrimLeft(s) == s
  {
  }

  /** A leading whitespace character is dropped. */
  lemma TrimLeftSpace(c: char, s: string)
    requires IsSpace(c)
    ensures TrimLeft([c] + s) == TrimLeft(s)
  {
    assert ([c] + s)[1..] == s;
  }

  /** str.rstrip(): the longest prefix of s that does not end with whitespace. */
  function TrimRight(s: string): (r: string)
    ensures |r| <= |s| && r == s[..|r|]
    ensures forall i :: |r| <= i < |s| ==> IsSpace(s[i])
    ensures r == [] || !IsSpace(r[|r| - 1])
  {
    if s != [] && IsSpace(s[|s| - 1]) then
      var r := TrimRight(s[..|s| - 1]);
      assert forall i :: |r| <= i < |s| - 1 ==> s[i] == s[..|s| - 1][i];
      r
    else s
  }

  /** Text that does not end with whitespace has none to drop on the right. */
  lemma TrimRightNone(s: string)
    requires s == [] || !IsSpace(s[|s| - 1])
    ensures TrimRight(s) == s
  {
  }

  /** A trailing whitespace character is dropped. */
  lemma TrimRightSpace(s: string, c: char)
    requires IsSpace(c)
    ensures TrimRight(s + [c]) == TrimRight(s)
  {
    assert (s + [c])[..|s|] == s;
  }

  /** str.strip(): s without its leading and trailing whitespace. */
  function Strip(s: string): (r: string)
    ensures Trimmed(r)
    ensures |r| <= |s|
  {
    var l := TrimLeft(s);
    var r := TrimRight(l);
    assert r != [] ==> r[0] == l[0];
    r
  }

  /** Stripping a string that has nothing to strip leaves it as it is. */
  lemma {:induction false} StripTrimmed(s: string)
    requires Trimmed(s)
    ensures Strip(s) == s
  {
    if s != [] {
      assert TrimLeft(s) == s;
      assert TrimRight(s) == s;
    }
  }

  /** Stripping is idempotent. */
  lemma StripIdempotent(s: string)
    ensures Strip(Strip(s)) == Strip(s)
  {
    StripTrimmed(Strip(s));
  }

  /** str.lstrip(c) for one character c: drops every leading c. */
  function LStripChar(s: string, c: char): (r: string)
    ensures |r| <= |s| && r == s[|s| - |r|..]
    ensures forall i :: 0 <= i < |s| - |r| ==> s[i] == c
    ensures r == [] || r[0] != c
  {
    if s != [] && s[0] == c then LStripChar(s[1..], c) else s
  }

  /** One leading c is dropped when the rest does not start with c. */
  lemma LStripCharHead(c: char, rest: string)
    requires rest == [] || rest[0] != c
    ensures LStripChar([c] + rest, c) == rest
  {
    assert ([c] + rest)[1..] == rest;
  }

  predicate StartsWith(s: string, p: string) {
    |p| <= |s| && s[..|p|] == p
  }

  predicate EndsWith(s: string, p: string) {
    |p| <= |s| && s[|s| - |p|..] == p
  }

  /** A concatenation starts with its first part and ends with its last. */
  lemma Affixes(a: string, b: string)
    ensures StartsWith(a + b, a) && EndsWith(a + b, b)
  {
    assert (a + b)[..|a|] == a;
    assert (a + b)[|a + b| - |b|..] == b;
  }

  /** A text framed by an opening and a closing starts with the one and ends with the other. */
  lemma Framed(open: string, body: string, close: string)
    ensures StartsWith(open + body + close, open) && EndsWith(open + body + close, close)
  {
    Affixes(open + body, close);
    assert (open + body + close)[..|open|] == (open + body)[..|open|];
    Affixes(open, body);
  }

  /** pat occurs in s starting at index i. */
  predicate OccursAt(s: string, pat: string, i: int) {
    0 <= i && i + |pat| <= |s| && s[i..i + |pat|] == pat
  }

  /** pat occurs somewhere in s. */
  ghost predicate Occurs(s: string, pat: string) {
    exists i :: OccursAt(s, pat, i)
  }

  /** str.replace(pat, rep): occurrences are found left to right and do not overlap. */
  function ReplaceAll(s: string, pat: string, rep: string): string
    requires pat != []
    decreases |s|
  {
    if |s| < |pat| then s
    else if s[..|pat|] == pat then rep + ReplaceAll(s[|pat|..], pat, rep)
    else [s[0]] + ReplaceAll(s[1..], pat, rep)
  }

  /** An occurrence at the very start is replaced, and the rest follows. */
  lemma ReplaceAllHead(pat: string, rest: string, rep: string)
    requires pat != []
    ensures ReplaceAll(pat + rest, pat, rep) == rep + ReplaceAll(rest, pat, rep)
  {
    assert (pat + rest)[..|pat|] == pat;
    assert (pat + rest)[|pat|..] == rest;
  }

  /** A first character that cannot start pat is copied unchanged. */
  lemma ReplaceAllSkip(s: string, pat: string, rep: string)
    requires pat != [] && s != [] && s[0] != pat[0]
    ensures ReplaceAll(s, pat, rep) == [s[0]] + ReplaceAll(s[1..], pat, rep)
  {
    if |s| >= |pat| {
      assert s[..|pat|][0] != pat[0];
    }
  }

  /** A string in which pat does not occur is returned unchanged. */
  lemma {:induction false} ReplaceAllAbsent(s: string, pat: string, rep: string)
    requires pat != [] && !Occurs(s, pat)
    ensures ReplaceAll(s, pat, rep) == s
  {
    if |s| >= |pat| {
      assert !OccursAt(s, pat, 0);
      assert s[0..0 + |pat|] == s[..|pat|];
      forall i | OccursAt(s[1..], pat, i) ensures OccursAt(s, pat, i + 1) {
        assert s[1..][i..i + |pat|] == s[i + 1..i + 1 + |pat|];
      }
      ReplaceAllAbsent(s[1..], pat, rep);
    }
  }

  /** Removing pat never makes a string longer. */
  lemma {:induction false} ReplaceAllShrinks(s: string, pat: string)
    requires pat != []
    ensures |ReplaceAll(s, pat, "")| <= |s|
  {
    if |s| >= |pat| {
      if s[..|pat|] == pat {
        ReplaceAllShrinks(s[|pat|..], pat);
      } else {
        ReplaceAllShrinks(s[1..], pat);
      }
    }
  }

  /** sep.join(parts). */
  function Join(sep: string, parts: seq<string>): string {
    if parts == [] then ""
    else if |parts| == 1 then parts[0]
    else parts[0] + sep + Join(sep, parts[1..])
  }

  /** str.split(sep) for a one-character separator: the maximal pieces
      between separators, from left to right; never an empty list. */
  function Split(s: string, sep: char): (parts: seq<string>)
    ensures |parts| >= 1
    ensures forall i :: 0 <= i < |parts| ==> sep !in parts[i]
  {
    if s == [] then [""]
    else
      var rest := Split(s[1..], sep);
      if s[0] == sep then [""] + rest
      else [[s[0]] + rest[0]] + rest[1..]
  }

  /** Joining the pieces of a split with the separator gives the string back. */
  lemma {:induction false} JoinSplit(s: string, sep: char)
    ensures Join([sep], Split(s, sep)) == s
  {
    if s != [] {
      var rest := Split(s[1..], sep);
      JoinSplit(s[1..], sep);
      if s[0] == sep {
        assert Split(s, sep) == [""] + rest;
      } else {
        var parts := Split(s, sep);
        assert parts[1..] == rest[1..];
        if |rest| == 1 {
          assert Join([sep], rest) == rest[0];
        } else {
          assert Join([sep], rest) == rest[0] + [sep] + Join([sep], rest[1..]);
        }
      }
    }
  }

  /** Splitting a join of separator-free pieces gives the pieces back. */
  lemma {:induction false} SplitJoin(parts: seq<string>, sep: char)
    requires |parts| >= 1
    requires forall i :: 0 <= i < |parts| ==> sep !in parts[i]
    ensures Split(Join([sep], parts), sep) == parts
  {
    if |parts| == 1 {
      SplitFree(parts[0], [], sep);
      assert parts[0] + [] == parts[0];
    } else {
      SplitJoin(parts[1..], sep);
      var t := [sep] + Join([sep], parts[1..]);
      SplitFree(parts[0], t, sep);
      assert t[1..] == Join([sep], parts[1..]);
      assert parts[0] + [sep] + Join([sep], parts[1..]) == parts[0] + t;
      assert [parts[0]] + parts[1..] == parts;
    }
  }

  /** A separator-free prefix is glued onto the first piece of what follows it. */
  lemma {:induction false} SplitFree(w: string, t: string, sep: char)
    requires sep !in w
    ensures t == [] ==> Split(w + t, sep) == [w]
    ensures t != [] && t[0] == sep ==> Split(w + t, sep) == [w] + Split(t[1..], sep)
  {
    if w == [] {
      assert w + t == t;
    } else {
      SplitFree(w[1..], t, sep);
      assert (w + t)[1..] == w[1..] + t;
      assert [w[0]] + w[1..] == w;
    }
  }

  /** Leading whitespace is taken from the first part only when the second
      part does not start with whitespace. */
  lemma {:induction false} TrimLeftConcat(a: string, b: string)
    requires b == [] || !IsSpace(b[0])
    ensures TrimLeft(a + b) == TrimLeft(a) + b
  {
    if a == [] {
      assert a + b == b;
    } else {
      assert (a + b)[0] == a[0];
      if IsSpace(a[0]) {
        assert (a + b)[1..] == a[1..] + b;
        TrimLeftConcat(a[1..], b);
      }
    }
  }

  /** Trailing whitespace is taken from the second part only when the first
      part does not end with whitespace. */
  lemma {:induction false} TrimRightConcat(a: string, b: string)
    requires a == [] || !IsSpace(a[|a| - 1])
    ensures TrimRight(a + b) == a + TrimRight(b)
  {
    if b == [] {
      assert a + b == a;
      assert a + [] == a;
    } else {
      assert (a + b)[|a + b| - 1] == b[|b| - 1];
      if IsSpace(b[|b| - 1]) {
        assert (a + b)[..|a + b| - 1] == a + b[..|b| - 1];
        TrimRightConcat(a, b[..|b| - 1]);
      }
    }
  }

  /** pat does not occur in a string in which its first two characters are never adjacent. */
  lemma NoOccursWithout(s: string, pat: string)
    requires |pat| >= 2
    requires forall i :: 0 <= i < |s| - 1 ==> !(s[i] == pat[0] && s[i + 1] == pat[1])
    ensures !Occurs(s, pat)
  {
    forall i | 0 <= i && i + |pat| <= |s| ensures !OccursAt(s, pat, i) {
      assert s[i..i + |pat|][0] == s[i] && s[i..i + |pat|][1] == s[i + 1];
    }
  }

  /** pat does not occur in a + b when it occurs in neither part and no
      occurrence can straddle the joint. */
  lemma NoOccursConcat(a: string, b: string, pat: string)
    requires pat != [] && !Occurs(a, pat) && !Occurs(b, pat)
    requires a == [] || b == [] || a[|a| - 1] !in pat[..|pat| - 1] || b[0] !in pat[1..]
    ensures !Occurs(a + b, pat)
  {
    forall i | 0 <= i && i + |pat| <= |a + b| ensures !OccursAt(a + b, pat, i) {
      var w := (a + b)[i..i + |pat|];
      SliceOfAppend(a, b, i, i + |pat|);
      if i + |pat| <= |a| {
        assert !OccursAt(a, pat, i);
      } else if i >= |a| {
        assert !OccursAt(b, pat, i - |a|);
      } else {
        var k := |a| - i;
        assert w[k - 1] == a[|a| - 1] && pat[..|pat| - 1][k - 1] == pat[k - 1];
        assert w[k] == b[0] && pat[1..][k - 1] == pat[k];
      }
    }
  }
}
