/**
 * debate_stream_test.py: a copy of extract_debate_rows whose module never
 * imports zip_longest, and test_first_debates, which flattens the first n
 * typed records of the stream and stops.
 */
module StreamTest {
  import opened Wrappers
  import opened Tree
  import opened Rows
  import opened Flatten
  import opened Seqs
  import Stream

  // ---------------------------------------------------------------- the copied flattener

  /** The copy: identical to extract_debate_rows up to the zip_longest call,
      which raises NameError; an unbound prefix raises first, in the xpath. */
  function DstDebateRows(debate: Element): Result<seq<Row>, FlattenError> {
    var akn := FindAkn(debate);
    if Get(debate, "type", "") == "questions" && akn.Some? then
      Failure(if PrefixUnbound(akn.value) then UndefinedNamespacePrefix else ZipLongestUndefined)
    else DebateRows(debate)
  }

  /** Every record that is not a questions record with a legal document gets
      exactly extract_debate_rows's rows; every one that is raises. */
  lemma DstAgrees(debate: Element)
    ensures DstDebateRows(debate).Success? <==>
      !(Get(debate, "type", "") == "questions" && FindAkn(debate).Some?)
    ensures DstDebateRows(debate).Success? ==> DstDebateRows(debate) == DebateRows(debate)
  {
    var akn := FindAkn(debate);
    if !(Get(debate, "type", "") == "questions" && akn.Some?) {
      assert QuestionRows(DebateBase(debate), Get(debate, "type", ""), akn).Success?;
    }
  }

  /** A questions record whose legal document binds its default namespace is
      flattened by extract_debate_rows, but the copy raises NameError on it. */
  lemma ZipLongestMissing(debate: Element)
    requires Get(debate, "type", "") == "questions"
    requires FindAkn(debate).Some? && !PrefixUnbound(FindAkn(debate).value)
    ensures DstDebateRows(debate) == Failure(ZipLongestUndefined)
    ensures DebateRows(debate).Success?
  {
  }

  /** The copy's loops: attendance and sections are built as in
      extract_debate_rows, then the questions block raises. */
  method DstExtractDebateRows(debate: Element) returns (r: Result<seq<Row>, FlattenError>)
    ensures r == DstDebateRows(debate)
  {
    var akn := FindAkn(debate);
    var base := DebateBase(debate);
    var rows := AppendAttendance([], base, akn);
    AppendNothing(AttendanceRows(base, akn));
    rows := AppendSections(rows, base, Sections(debate));
    var sourceType := Get(debate, "type", "");
    if sourceType == "questions" && akn.Some? {
      if PrefixUnbound(akn.value) {
        return Failure(UndefinedNamespacePrefix);
      }
      return Failure(ZipLongestUndefined);
    }
    AppendNothing(rows);
    return Success(rows);
  }

  // ---------------------------------------------------------------- test_first_debates

  /** `not dtype`: the type attribute is missing or empty. */
  predicate Untyped(e: Element) {
    "type" !in e.attrs || e.attrs["type"] == ""
  }

  /** What the loop does with an event: clear it and purge its preceding
      siblings, or print the row count of a flattened record. */
  datatype Action =
    | Released(at: nat)
    | Printed(at: nat, count: nat, kind: string, date: Option<string>, rows: nat)

  /** The actions taken, the final count, and the error that ended the run, if any. */
  datatype Outcome = Outcome(actions: seq<Action>, count: nat, error: Option<FlattenError>)

  function Then(a: Action, o: Outcome): Outcome {
    o.(actions := [a] + o.actions)
  }

  /** `debate.get('date')`. */
  function DateOf(e: Element): Option<string> {
    if "date" in e.attrs then Some(e.attrs["date"]) else None
  }

  /** The loop from event i on, with `count` records done: an untyped event is
      released; a record is flattened (an exception ends the run), printed,
      counted, and -- unless the count has reached n -- released. */
  function Run(events: seq<Element>, n: int, flatten: Stream.Flattener, i: nat, count: nat): Outcome
    decreases |events| - i
  {
    if i >= |events| then Outcome([], count, None)
    else
      var e := events[i];
      if Untyped(e) then Then(Released(i), Run(events, n, flatten, i + 1, count))
      else
        var r := flatten(e);
        if r.Failure? then Outcome([], count, Some(r.error))
        else
          var p := Printed(i, count, e.attrs["type"], DateOf(e), |r.value|);
          if count + 1 >= n then Outcome([p], count + 1, None)
          else Then(p, Then(Released(i), Run(events, n, flatten, i + 1, count + 1)))
  }

  /** Some earlier actions followed by an outcome. */
  function After(done: seq<Action>, o: Outcome): Outcome {
    o.(actions := done + o.actions)
  }

  /** test_first_debates over the events of the stream. */
  method TestFirstDebates(events: seq<Element>, n: int) returns (o: Outcome)
    ensures o == Run(events, n, DstDebateRows, 0, 0)
  {
    var actions: seq<Action> := [];
    var count: nat := 0;
    var i := 0;
    AppendNothing(Run(events, n, DstDebateRows, 0, 0).actions);
    while i < |events|
      invariant i <= |events|
      invariant Run(events, n, DstDebateRows, 0, 0) == After(actions, Run(events, n, DstDebateRows, i, count))
    {
      var debate := events[i];
      if Untyped(debate) {
        SkipStep(events, n, DstDebateRows, i, count, actions);
        actions := actions + [Released(i)];
        i := i + 1;
        continue;
      }
      var r := DstExtractDebateRows(debate);
      RunStep(events, n, DstDebateRows, i, count, r);
      if r.Failure? {
        return Outcome(actions, count, Some(r.error));
      }
      var p := Printed(i, count, debate.attrs["type"], DateOf(debate), |r.value|);
      if count + 1 >= n {
        count := count + 1;
        return Outcome(actions + [p], count, None);
      }
      PrintStep(events, n, DstDebateRows, i, count, actions, r.value);
      count := count + 1;
      actions := actions + [p, Released(i)];
      i := i + 1;
    }
    return Outcome(actions, count, None);
  }

  /** The loop invariant across an untyped event. */
  lemma SkipStep(events: seq<Element>, n: int, flatten: Stream.Flattener, i: nat, count: nat, done: seq<Action>)
    requires i < |events| && Untyped(events[i])
    ensures After(done, Run(events, n, flatten, i, count)) == After(done + [Released(i)], Run(events, n, flatten, i + 1, count))
  {
    AfterThen(done, Released(i), Run(events, n, flatten, i + 1, count));
  }

  /** The loop invariant across a record that is printed and released. */
  lemma PrintStep(events: seq<Element>, n: int, flatten: Stream.Flattener, i: nat, count: nat,
                  done: seq<Action>, rows: seq<Row>)
    requires i < |events| && !Untyped(events[i]) && flatten(events[i]) == Success(rows) && count + 1 < n
    ensures var p := Printed(i, count, events[i].attrs["type"], DateOf(events[i]), |rows|);
      After(done, Run(events, n, flatten, i, count)) == After(done + [p, Released(i)], Run(events, n, flatten, i + 1, count + 1))
  {
    var p := Printed(i, count, events[i].attrs["type"], DateOf(events[i]), |rows|);
    var o := Run(events, n, flatten, i + 1, count + 1);
    AfterThen(done, p, Then(Released(i), o));
    AfterThen(done + [p], Released(i), o);
    assert done + [p] + [Released(i)] == done + [p, Released(i)];
  }

  /** One step of the loop, given the flattener's result r for a record. */
  lemma RunStep(events: seq<Element>, n: int, flatten: Stream.Flattener, i: nat, count: nat,
                r: Result<seq<Row>, FlattenError>)
    requires i < |events| && (!Untyped(events[i]) ==> r == flatten(events[i]))
    ensures Untyped(events[i]) ==> Run(events, n, flatten, i, count) == Then(Released(i), Run(events, n, flatten, i + 1, count))
    ensures !Untyped(events[i]) && r.Failure? ==> Run(events, n, flatten, i, count) == Outcome([], count, Some(r.error))
    ensures !Untyped(events[i]) && r.Success? ==>
      var p := Printed(i, count, events[i].attrs["type"], DateOf(events[i]), |r.value|);
      Run(events, n, flatten, i, count) ==
        if count + 1 >= n then Outcome([p], count + 1, None)
        else Then(p, Then(Released(i), Run(events, n, flatten, i + 1, count + 1)))
  {
  }

  lemma AfterThen(done: seq<Action>, a: Action, o: Outcome)
    ensures After(done, Then(a, o)) == After(done + [a], o)
  {
    AppendAssoc(done, [a], o.actions);
  }

  /** At most n records are flattened (one when n < 1): the count never
      passes max(n, 1), and it counts the printed records. */
  lemma {:induction false} RunCount(events: seq<Element>, n: int, flatten: Stream.Flattener, i: nat, count: nat)
    requires count == 0 || count < n
    ensures Run(events, n, flatten, i, count).count <= (if n >= 1 then n else 1)
    ensures Run(events, n, flatten, i, count).count >= count
    ensures Printings(Run(events, n, flatten, i, count).actions) == Run(events, n, flatten, i, count).count - count
    decreases |events| - i
  {
    if i < |events| {
      var e := events[i];
      if Untyped(e) {
        RunCount(events, n, flatten, i + 1, count);
      } else if flatten(e).Success? && count + 1 < n {
        RunCount(events, n, flatten, i + 1, count + 1);
      }
    }
  }

  /** The number of printed records among the actions. */
  function Printings(actions: seq<Action>): nat {
    if actions == [] then 0 else (if actions[0].Printed? then 1 else 0) + Printings(actions[1..])
  }

  /** Every printed action that is not the last is followed by the release of
      the same event. */
  predicate ReleasedAfterPrint(a: seq<Action>) {
    forall j :: 0 <= j < |a| - 1 && a[j].Printed? ==> a[j + 1] == Released(a[j].at)
  }

  /** Every printed record except the last action is released right after it. */
  lemma {:induction false} RunReleases(events: seq<Element>, n: int, flatten: Stream.Flattener, i: nat, count: nat)
    ensures ReleasedAfterPrint(Run(events, n, flatten, i, count).actions)
    decreases |events| - i
  {
    if i < |events| {
      var e := events[i];
      if Untyped(e) {
        var rest := Run(events, n, flatten, i + 1, count);
        RunReleases(events, n, flatten, i + 1, count);
        ThenKeeps(Released(i), rest);
      } else if flatten(e).Success? && count + 1 < n {
        var restUp := Run(events, n, flatten, i + 1, count + 1);
        RunReleases(events, n, flatten, i + 1, count + 1);
        ThenKeeps(Released(i), restUp);
        ThenKeeps(Printed(i, count, e.attrs["type"], DateOf(e), |flatten(e).value|), Then(Released(i), restUp));
      }
    }
  }

  /** When the run stops because the count reached n, the last action is the
      n-th record's printing: that record is never cleared. */
  lemma {:induction false} RunEndsPrinted(events: seq<Element>, n: int, flatten: Stream.Flattener, i: nat, count: nat)
    ensures var o := Run(events, n, flatten, i, count);
      o.error.None? && o.count > count && o.count >= n ==> o.actions != [] && o.actions[|o.actions| - 1].Printed?
    decreases |events| - i
  {
    if i < |events| {
      var e := events[i];
      if Untyped(e) {
        var rest := Run(events, n, flatten, i + 1, count);
        RunEndsPrinted(events, n, flatten, i + 1, count);
        LastKept(Released(i), rest);
      } else if flatten(e).Success? && count + 1 < n {
        var restUp := Run(events, n, flatten, i + 1, count + 1);
        RunEndsPrinted(events, n, flatten, i + 1, count + 1);
        RunCount(events, n, flatten, i + 1, count + 1);
        LastKept(Released(i), restUp);
        LastKept(Printed(i, count, e.attrs["type"], DateOf(e), |flatten(e).value|), Then(Released(i), restUp));
      }
    }
  }

  lemma ThenKeeps(x: Action, o: Outcome)
    requires ReleasedAfterPrint(o.actions)
    requires x.Printed? ==> o.actions != [] && o.actions[0] == Released(x.at)
    ensures ReleasedAfterPrint(Then(x, o).actions)
  {
    var a := Then(x, o).actions;
    forall j | 0 <= j < |a| - 1 && a[j].Printed?
      ensures a[j + 1] == Released(a[j].at)
    {
      if j > 0 {
        assert a[j] == o.actions[j - 1];
      }
    }
  }

  lemma LastKept(x: Action, o: Outcome)
    ensures o.actions != [] ==> Then(x, o).actions[|Then(x, o).actions| - 1] == o.actions[|o.actions| - 1]
  {
  }

  /** Every printed action names a typed event from index i on, printed with
      its own type and a count of at least `count`. */
  predicate PrintsTyped(a: seq<Action>, events: seq<Element>, i: nat, count: nat) {
    forall j :: 0 <= j < |a| && a[j].Printed? ==>
      && i <= a[j].at < |events| && !Untyped(events[a[j].at])
      && a[j].kind == events[a[j].at].attrs["type"] && a[j].count >= count
  }

  /** Every printed record is a typed event of the stream, printed with its
      own type and the running count. */
  lemma {:induction false} RunPrints(events: seq<Element>, n: int, flatten: Stream.Flattener, i: nat, count: nat)
    ensures PrintsTyped(Run(events, n, flatten, i, count).actions, events, i, count)
    decreases |events| - i
  {
    if i < |events| {
      var e := events[i];
      var a := Run(events, n, flatten, i, count).actions;
      if Untyped(e) {
        RunPrints(events, n, flatten, i + 1, count);
        var b := Run(events, n, flatten, i + 1, count).actions;
        assert a == [Released(i)] + b;
        forall j | 0 <= j < |a| && a[j].Printed?
          ensures i <= a[j].at < |events| && !Untyped(events[a[j].at])
          ensures a[j].kind == events[a[j].at].attrs["type"] && a[j].count >= count
        {
          assert j > 0 && a[j] == b[j - 1];
        }
      } else if flatten(e).Success? && count + 1 < n {
        RunPrints(events, n, flatten, i + 1, count + 1);
        var b := Run(events, n, flatten, i + 1, count + 1).actions;
        assert a == [a[0], Released(i)] + b;
        forall j | 0 <= j < |a| && a[j].Printed?
          ensures i <= a[j].at < |events| && !Untyped(events[a[j].at])
          ensures a[j].kind == events[a[j].at].attrs["type"] && a[j].count >= count
        {
          if j > 1 {
            assert a[j] == b[j - 2];
          }
        }
      }
    }
  }
}
