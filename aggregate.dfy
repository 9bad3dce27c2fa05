/**
 * The aggregator: each yearly slice of the corpus is an `<all_debates>`
 * document; its wrapper and declarations are removed by strip_outer_wrapper,
 * and the non-empty remainders are written, one per line, inside a single new
 * `<all_debates>` element. Downloading the slices and uploading the result
 * are left out: the slices' texts are the input.
 */
module Aggregate {
  import opened Text
  import opened Seqs
  import Collect

  const OpenTag: string := "<all_debates>"
  const CloseTag: string := "</all_debates>"

  /** The aggregate's first and last lines, the same as those of a combined file. */
  const OpenLine: string := Collect.OpenLine
  const CloseLine: string := Collect.CloseLine

  /** The literal start of the declaration pattern `<\?xml[^>]+\?>`. */
  const DeclStart: string := "<?xml"

  // ---------------------------------------------------------------- strip_outer_wrapper

  /** The index of the first '>' in s at or after i, or |s| when there is none. */
  function FirstGt(s: string, i: nat): (g: nat)
    requires i <= |s|
    ensures i <= g <= |s| && (g < |s| ==> s[g] == '>')
    ensures forall k :: i <= k < g ==> s[k] != '>'
    decreases |s| - i
  {
    if i == |s| || s[i] == '>' then i else FirstGt(s, i + 1)
  }

  /** The length of the match of `<\?xml[^>]+\?>` at the start of s, or 0 when
      it does not match there. The bracket class cannot pass a '>', so a match
      ends at the first '>', which must follow a '?' and leave at least one
      character between `<?xml` and `?>`. */
  function DeclLength(s: string): (m: nat)
    ensures m == 0 || (7 < m <= |s| && StartsWith(s, DeclStart) && s[m - 2..m] == "?>")
  {
    if StartsWith(s, DeclStart) then
      var g := FirstGt(s, 5);
      if g < |s| && g >= 7 && s[g - 1] == '?' then
        assert s[g - 1..g + 1] == [s[g - 1], s[g]];
        g + 1
      else 0
    else 0
  }

  /** `re.sub(r'<\?xml[^>]+\?>', '', s)`: matches are found left to right and
      do not overlap. */
  function DropDecls(s: string): (r: string)
    ensures |r| <= |s|
    decreases |s|
  {
    if s == [] then []
    else
      var m := DeclLength(s);
      if m > 0 then DropDecls(s[m..]) else [s[0]] + DropDecls(s[1..])
  }

  /** `re.sub(r'^\s*<all_debates>\s*', '', s)`: the opening tag, with the
      whitespace around it, when it is the first thing in s. */
  function DropOpen(s: string): string {
    var t := TrimLeft(s);
    if StartsWith(t, OpenTag) then TrimLeft(t[|OpenTag|..]) else s
  }

  /** `re.sub(r'\s*</all_debates>\s*$', '', s)`: the closing tag, with the
      whitespace around it, when it is the last thing in s. */
  function DropClose(s: string): string {
    var t := TrimRight(s);
    if EndsWith(t, CloseTag) then TrimRight(t[..|t| - |CloseTag|]) else s
  }

  /** strip_outer_wrapper: the slice without byte-order marks, declarations,
      wrapper tags and surrounding whitespace. */
  function StripOuterWrapper(xml: string): (inner: string)
    ensures Trimmed(inner)
  {
    Strip(DropClose(DropOpen(DropDecls(LStripChar(xml, '\U{FEFF}')))))
  }

  // ---------------------------------------------------------------- the aggregation loop

  /** The unwrapped slices that are not empty, in slice order: the ones the
      loop writes. The unwrapping is a parameter so that reasoning about the
      loop never looks inside strip_outer_wrapper. */
  function Inners(slices: seq<string>, unwrap: string -> string): seq<string>
  {
    if slices == [] then []
    else
      var init := Inners(slices[..|slices| - 1], unwrap);
      var inner := unwrap(slices[|slices| - 1]);
      if inner == [] then init else init + [inner]
  }

  /** Each text followed by a newline. */
  function Lines(xs: seq<string>): string {
    if xs == [] then "" else xs[0] + "\n" + Lines(xs[1..])
  }

  /** The aggregate file. */
  function Aggregated(slices: seq<string>): string {
    OpenLine + Lines(Inners(slices, StripOuterWrapper)) + CloseLine
  }

  /** The aggregation loop: the opening line, each non-empty inner text on its
      own line, the closing line. */
  method Aggregate(slices: seq<string>) returns (out: string)
    ensures out == Aggregated(slices)
  {
    out := OpenLine;
    for i := 0 to |slices|
      invariant out == OpenLine + Lines(Inners(slices[..i], StripOuterWrapper))
    {
      var inner := StripOuterWrapper(slices[i]);
      ghost var before := Lines(Inners(slices[..i], StripOuterWrapper));
      AggregateStep(slices, i, StripOuterWrapper, inner);
      if inner != [] {
        AppendAssoc(OpenLine, before, inner + "\n");
        AppendAssoc(out, inner, "\n");
        out := out + inner;
        out := out + "\n";
      }
    }
    TakeAll(slices);
    out := out + CloseLine;
  }

  /** One pass of the loop adds the slice's inner text and a newline, or nothing. */
  lemma AggregateStep(slices: seq<string>, i: nat, unwrap: string -> string, inner: string)
    requires i < |slices| && inner == unwrap(slices[i])
    ensures inner == [] ==> Lines(Inners(slices[..i + 1], unwrap)) == Lines(Inners(slices[..i], unwrap))
    ensures inner != [] ==> Lines(Inners(slices[..i + 1], unwrap)) == Lines(Inners(slices[..i], unwrap)) + (inner + "\n")
  {
    assert slices[..i + 1] == slices[..i] + [slices[i]];
    InnersStep(slices[..i], slices[i], unwrap);
    if inner != [] {
      LinesSnoc(Inners(slices[..i], unwrap), inner);
    } else {
      AppendNothing(Lines(Inners(slices[..i], unwrap)));
    }
  }

  // ---------------------------------------------------------------- declarations

  /** Text without `<?xml` has no declaration to drop. */
  lemma {:induction false} DropDeclsAbsent(s: string)
    requires !Occurs(s, DeclStart)
    ensures DropDecls(s) == s
    decreases |s|
  {
    if s != [] {
      if |s| >= 5 {
        assert !OccursAt(s, DeclStart, 0);
        assert s[0..5] == s[..5];
      }
      assert DeclLength(s) == 0;
      forall i | OccursAt(s[1..], DeclStart, i) ensures OccursAt(s, DeclStart, i + 1) {
        assert s[1..][i..i + 5] == s[i + 1..i + 6];
      }
      DropDeclsAbsent(s[1..]);
    }
  }

  /** A declaration `<?xml` + m + `?>` whose middle is not empty and holds no
      '>' is matched whole, whatever its attributes, and removed. */
  lemma DeclDropped(m: string, rest: string)
    requires m != [] && '>' !in m
    ensures DeclLength(DeclStart + m + "?>" + rest) == |m| + 7
    ensures DropDecls(DeclStart + m + "?>" + rest) == DropDecls(rest)
  {
    var d := DeclStart + m + "?>";
    var s := d + rest;
    assert |d| == |m| + 7;
    assert s[..5] == DeclStart;
    assert s[|m| + 5] == '?' && s[|m| + 6] == '>';
    forall k | 5 <= k < |m| + 5 ensures s[k] != '>' {
      assert s[k] == m[k - 5];
    }
    FirstGtAt(s, 5, |m| + 6);
    assert s[|m| + 7..] == rest;
  }

  /** The first '>' from i on is at g when s[g] is '>' and nothing before it is. */
  lemma {:induction false} FirstGtAt(s: string, i: nat, g: nat)
    requires i <= g < |s| && s[g] == '>'
    requires forall k :: i <= k < g ==> s[k] != '>'
    ensures FirstGt(s, i) == g
    decreases g - i
  {
    if i < g {
      FirstGtAt(s, i + 1, g);
    }
  }

  /** The exact declaration that the harvester strips is one of those matched. */
  lemma HarvesterDeclarationMatched(rest: string)
    ensures DropDecls(Collect.Declaration + rest) == DropDecls(rest)
  {
    DeclDropped(Collect.DeclarationAttributes, rest);
  }

  // ---------------------------------------------------------------- round trips

  /** A text with nothing to strip comes back unchanged. */
  lemma StripOuterWrapperBare(s: string)
    requires (s == [] || s[0] != '\U{FEFF}') && Trimmed(s) && !Occurs(s, DeclStart)
    requires !StartsWith(s, OpenTag) && !EndsWith(s, CloseTag)
    ensures StripOuterWrapper(s) == s
  {
    DropDeclsAbsent(s);
    assert TrimLeft(s) == s;
    assert TrimRight(s) == s;
    StripTrimmed(s);
  }

  /** The wrapper lines contain no declaration, and none can straddle them and the body. */
  lemma WrappedHasNoDecl(body: string)
    requires !Occurs(body, DeclStart)
    ensures !Occurs(OpenLine + body + CloseLine, DeclStart)
  {
    var open := OpenLine;
    var close := CloseLine;
    NoOccursWithout(open, DeclStart);
    NoOccursWithout(close, DeclStart);
    assert open[|open| - 1] == '\n';
    NoOccursConcat(open, body, DeclStart);
    assert close[0] == '<';
    NoOccursConcat(open + body, close, DeclStart);
  }

  /** The opening line is removed with the whitespace that follows it. */
  lemma OpenDropped(body: string)
    ensures DropOpen(OpenLine + body + CloseLine) == TrimLeft(body) + CloseLine
  {
    var s := OpenLine + body + CloseLine;
    assert OpenLine == OpenTag + ['\n'];
    AppendAssoc4(OpenTag, ['\n'], body, CloseLine);
    AppendParts(OpenTag, ['\n'] + (body + CloseLine));
    assert s[0] == '<' && !IsSpace('<');
    TrimLeftNone(s);
    TrimLeftSpace('\n', body + CloseLine);
    assert CloseLine[0] == '<';
    TrimLeftConcat(body, CloseLine);
  }

  /** The closing line is removed with the whitespace before it. */
  lemma CloseDropped(front: string)
    ensures DropClose(front + CloseLine) == TrimRight(front)
  {
    var a := front + CloseTag;
    assert CloseLine == CloseTag + ['\n'];
    AppendAssoc(front, CloseTag, ['\n']);
    assert front + CloseLine == a + ['\n'];
    TrimRightSpace(a, '\n');
    assert a[|a| - 1] == '>' && !IsSpace('>');
    TrimRightNone(a);
    assert TrimRight(front + CloseLine) == a;
    Affixes(front, CloseTag);
    AppendParts(front, CloseTag);
    assert a[..|a| - |CloseTag|] == front;
  }

  /** Unwrapping a wrapped body gives the stripped body: strip_outer_wrapper
      undoes the framing that both the combining step and the aggregation
      loop put around their content. */
  lemma Unwrap(body: string)
    requires !Occurs(body, DeclStart)
    ensures StripOuterWrapper(OpenLine + body + CloseLine) == Strip(body)
  {
    var s := OpenLine + body + CloseLine;
    assert s[0] == '<';
    assert LStripChar(s, '\U{FEFF}') == s;
    WrappedHasNoDecl(body);
    DropDeclsAbsent(s);
    OpenDropped(body);
    CloseDropped(TrimLeft(body));
    StripIdempotent(body);
  }

  /** A file written by the combining step unwraps to its stripped fragments. */
  lemma CombinedUnwraps(dail: seq<Collect.FileEntry>, seanad: seq<Collect.FileEntry>,
                        committee: seq<Collect.FileEntry>, questions: seq<Collect.FileEntry>,
                        contents: string -> string)
    requires !Occurs(Collect.Groups(dail, seanad, committee, questions, contents), DeclStart)
    ensures StripOuterWrapper(Collect.Combined(dail, seanad, committee, questions, contents)) ==
      Strip(Collect.Groups(dail, seanad, committee, questions, contents))
  {
    Unwrap(Collect.Groups(dail, seanad, committee, questions, contents));
  }

  // ---------------------------------------------------------------- the aggregate

  lemma {:induction false} LinesSnoc(xs: seq<string>, x: string)
    ensures Lines(xs + [x]) == Lines(xs) + (x + "\n")
  {
    if xs == [] {
      assert [] + [x] == [x];
      assert [x][1..] == [];
    } else {
      assert (xs + [x])[0] == xs[0] && (xs + [x])[1..] == xs[1..] + [x];
      LinesSnoc(xs[1..], x);
    }
  }

  /** The lines of some texts are the texts joined by newlines, plus a final newline. */
  lemma {:induction false} LinesJoin(xs: seq<string>)
    requires xs != []
    ensures Lines(xs) == Join("\n", xs) + "\n"
  {
    if |xs| == 1 {
      assert xs[1..] == [];
    } else {
      LinesJoin(xs[1..]);
    }
  }

  /** Joining non-empty trimmed texts: the result starts with the first
      text's first character and ends with the last text's last character. */
  lemma {:induction false} JoinEnds(xs: seq<string>)
    requires xs != [] && forall i :: 0 <= i < |xs| ==> xs[i] != []
    ensures Join("\n", xs) != []
    ensures Join("\n", xs)[0] == xs[0][0]
    ensures Join("\n", xs)[|Join("\n", xs)| - 1] == xs[|xs| - 1][|xs[|xs| - 1]| - 1]
  {
    if |xs| > 1 {
      JoinEnds(xs[1..]);
      var rest := Join("\n", xs[1..]);
      assert Join("\n", xs) == xs[0] + ("\n" + rest);
    }
  }

  /** No declaration appears in the lines of texts that hold none. */
  lemma {:induction false} LinesHaveNoDecl(xs: seq<string>)
    requires forall i :: 0 <= i < |xs| ==> !Occurs(xs[i], DeclStart)
    ensures !Occurs(Lines(xs), DeclStart)
  {
    if xs == [] {
      NoOccursWithout("", DeclStart);
    } else {
      LinesHaveNoDecl(xs[1..]);
      NoOccursWithout("\n", DeclStart);
      NoOccursConcat(xs[0], "\n", DeclStart);
      NoOccursConcat(xs[0] + "\n", Lines(xs[1..]), DeclStart);
    }
  }

  /** Stripping the lines of non-empty trimmed texts leaves them joined by newlines. */
  lemma StripLines(xs: seq<string>)
    requires forall i :: 0 <= i < |xs| ==> xs[i] != [] && Trimmed(xs[i])
    ensures Strip(Lines(xs)) == Join("\n", xs)
  {
    if xs != [] {
      LinesJoin(xs);
      JoinEnds(xs);
      var j := Join("\n", xs);
      TrimRightSpace(j, '\n');
      assert TrimRight(j) == j;
      assert (j + "\n")[0] == j[0];
      assert TrimLeft(j + "\n") == j + "\n";
    }
  }

  /** Unwrapping the aggregate gives back the slices' inner texts, joined by
      newlines, when none of them holds a declaration. */
  lemma AggregateUnwraps(slices: seq<string>)
    requires forall i :: 0 <= i < |Inners(slices, StripOuterWrapper)| ==> !Occurs(Inners(slices, StripOuterWrapper)[i], DeclStart)
    ensures StripOuterWrapper(Aggregated(slices)) == Join("\n", Inners(slices, StripOuterWrapper))
  {
    InnersShape(slices);
    LinesHaveNoDecl(Inners(slices, StripOuterWrapper));
    Unwrap(Lines(Inners(slices, StripOuterWrapper)));
    StripLines(Inners(slices, StripOuterWrapper));
  }

  /** Every text the loop writes is non-empty and has no surrounding whitespace. */
  lemma InnersShape(slices: seq<string>)
    ensures forall i :: 0 <= i < |Inners(slices, StripOuterWrapper)| ==>
      Inners(slices, StripOuterWrapper)[i] != [] && Trimmed(Inners(slices, StripOuterWrapper)[i])
  {
    InnersTrimmed(slices, StripOuterWrapper);
  }

  lemma {:induction false} InnersTrimmed(slices: seq<string>, unwrap: string -> string)
    requires forall x :: Trimmed(unwrap(x))
    ensures forall i :: 0 <= i < |Inners(slices, unwrap)| ==> Inners(slices, unwrap)[i] != [] && Trimmed(Inners(slices, unwrap)[i])
  {
    if slices != [] {
      var init := slices[..|slices| - 1];
      InnersTrimmed(init, unwrap);
      var before := Inners(init, unwrap);
      var xs := Inners(slices, unwrap);
      forall i | 0 <= i < |xs| ensures xs[i] != [] && Trimmed(xs[i]) {
        if i < |before| {
          assert xs[i] == before[i];
        }
      }
    }
  }

  /** A slice that unwraps to nothing leaves no trace in the aggregate; every
      other slice contributes its inner text, after those of the earlier slices. */
  lemma InnersStep(slices: seq<string>, x: string, unwrap: string -> string)
    ensures Inners(slices + [x], unwrap) ==
      Inners(slices, unwrap) + (if unwrap(x) == [] then [] else [unwrap(x)])
  {
    assert (slices + [x])[..|slices|] == slices;
  }
}
