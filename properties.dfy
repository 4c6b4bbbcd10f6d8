/** Properties of the whole pass: where Error records can be, what a fatal error keeps
    and discards, the order of the line counter, what an Append inherits, and the
    independence of the output from the clock reading the pass starts with. */
module Properties {
  import opened Wrappers
  import opened Clock
  import opened Records
  import opened Matching
  import opened Classifier
  import opened Parser

  predicate IndicesSorted(talks: seq<Talk>) {
    forall a, b :: 0 <= a <= b < |talks| ==> talks[a].index <= talks[b].index
  }

  predicate IndicesWithin(talks: seq<Talk>, lo: int, hi: int) {
    forall k :: 0 <= k < |talks| ==> lo <= talks[k].index <= hi
  }

  /** A line's records, when it yields any, carry its counter value and none is an Error
      record. */
  predicate LineRecordsOk(r: Result<Emitted, Failure>, index: int) {
    r.Ok? ==> NoError(r.value.talks) && IndicesWithin(r.value.talks, index, index)
  }

  /** A line step whose every success satisfies LineRecordsOk. */
  ghost predicate CleanStep(step: LineStep) {
    forall l, index, ctx, last :: LineRecordsOk(step(l, index, ctx, last), index)
  }

  /** Step is such a line step. */
  lemma StepIsClean()
    ensures CleanStep(Step)
  {
    forall l, index, ctx, last ensures LineRecordsOk(Step(l, index, ctx, last), index) {
      StepFrame(l, index, ctx, last);
      var r := Step(l, index, ctx, last);
      if r.Ok? {
        assert RecordsFramed(r.value.talks, index, Classify(l), r.value.ctx);
      }
    }
  }

  /** How a pass from position lo can end: a completed pass holds no Error record; an
      aborted one stopped at a line at or after lo, names that line as the target, and
      its records end with the one Error record for that line. */
  predicate WellEnded(r: PassResult, lines: seq<ScannedLine>, lo: nat) {
    match r
    case Completed(talks) => NoError(talks)
    case Aborted(talks, cause, at, target) =>
      && lo <= at < |lines| && target == lines[at].text
      && |talks| > 0 && talks[|talks| - 1] == ErrorTalk(at - 2, cause)
      && NoError(talks[..|talks| - 1])
  }

  /** With a clean line step, the pass from position i on only ever appends and ends as
      described above. */
  lemma {:induction false} DriveOutcome(step: LineStep, lines: seq<ScannedLine>, i: nat, ctx: Ctx, talks: seq<Talk>)
    requires CleanStep(step) && NoError(talks)
    ensures talks <= Drive(step, lines, i, ctx, talks).talks
    ensures WellEnded(Drive(step, lines, i, ctx, talks), lines, i)
    decreases |lines| - i
  {
    if i < |lines| {
      var r := step(lines[i], i - 2, ctx, LastState(talks));
      assert LineRecordsOk(r, i - 2);
      match r
      case Ok(e) =>
        DriveOutcome(step, lines, i + 1, e.ctx, talks + e.talks);
      case Err(f) =>
        assert (talks + [ErrorTalk(i - 2, f)])[..|talks|] == talks;
    }
  }

  /** A pass either completes with no Error record, or aborts at some consumed line
      (positions 3 onwards) with exactly one Error record, the last one, carrying that
      line's counter value; the sink gets that line. */
  lemma FatalErrorEndsPass(lines: seq<ScannedLine>, now: DateTime)
    ensures var r := Run(lines, now);
            && (r.Completed? ==> NoError(r.talks))
            && (r.Aborted? ==>
                  && 3 <= r.at < |lines| && r.target == lines[r.at].text
                  && |r.talks| > 0 && r.talks[|r.talks| - 1] == ErrorTalk(r.at - 2, r.cause)
                  && NoError(r.talks[..|r.talks| - 1]))
  {
    StepIsClean();
    DriveOutcome(Step, lines, 3, InitialCtx(now), []);
    assert WellEnded(Run(lines, now), lines, 3);
  }

  /** An aborted pass keeps what the lines before the offending one produced: dropping the
      Error record gives the completed pass over those lines alone. */
  lemma {:induction false} DriveKeepsPrefix(step: LineStep, lines: seq<ScannedLine>, i: nat, ctx: Ctx, talks: seq<Talk>)
    requires Drive(step, lines, i, ctx, talks).Aborted?
    ensures var r := Drive(step, lines, i, ctx, talks);
            && i <= r.at < |lines|
            && |r.talks| > 0
            && Drive(step, lines[..r.at], i, ctx, talks) == Completed(r.talks[..|r.talks| - 1])
    decreases |lines| - i
  {
    match step(lines[i], i - 2, ctx, LastState(talks))
    case Ok(e) =>
      DriveKeepsPrefix(step, lines, i + 1, e.ctx, talks + e.talks);
      var r := Drive(step, lines, i, ctx, talks);
      assert lines[..r.at][i] == lines[i];
    case Err(f) =>
      assert (talks + [ErrorTalk(i - 2, f)])[..|talks|] == talks;
  }

  lemma AbortedPassKeepsPrefix(lines: seq<ScannedLine>, now: DateTime)
    requires Run(lines, now).Aborted?
    ensures var r := Run(lines, now);
            && r.at < |lines| && |r.talks| > 0
            && Run(lines[..r.at], now) == Completed(r.talks[..|r.talks| - 1])
  {
    DriveKeepsPrefix(Step, lines, 3, InitialCtx(now), []);
  }

  /** A pass stops at the offending line: what follows it is never looked at. */
  lemma {:induction false} DriveStopsAtFailure(step: LineStep, lines: seq<ScannedLine>, other: seq<ScannedLine>, i: nat, ctx: Ctx, talks: seq<Talk>)
    requires Drive(step, lines, i, ctx, talks).Aborted?
    requires Drive(step, lines, i, ctx, talks).at < |lines| && Drive(step, lines, i, ctx, talks).at < |other|
    requires other[..Drive(step, lines, i, ctx, talks).at + 1] == lines[..Drive(step, lines, i, ctx, talks).at + 1]
    ensures Drive(step, other, i, ctx, talks) == Drive(step, lines, i, ctx, talks)
    decreases |lines| - i
  {
    var r := Drive(step, lines, i, ctx, talks);
    DriveKeepsPrefix(step, lines, i, ctx, talks);
    assert other[i] == other[..r.at + 1][i] == lines[..r.at + 1][i] == lines[i];
    match step(lines[i], i - 2, ctx, LastState(talks))
    case Ok(e) =>
      DriveStopsAtFailure(step, lines, other, i + 1, e.ctx, talks + e.talks);
    case Err(f) =>
  }

  lemma AbortedPassIgnoresLaterLines(lines: seq<ScannedLine>, rest: seq<ScannedLine>, now: DateTime)
    requires Run(lines, now).Aborted?
    ensures Run(lines, now).at < |lines|
    ensures Run(lines[..Run(lines, now).at + 1] + rest, now) == Run(lines, now)
  {
    var r := Run(lines, now);
    DriveKeepsPrefix(Step, lines, 3, InitialCtx(now), []);
    var other := lines[..r.at + 1] + rest;
    assert other[..r.at + 1] == lines[..r.at + 1];
    DriveStopsAtFailure(Step, lines, other, 3, InitialCtx(now), []);
  }

  /** Appending records that all carry a counter value no smaller than any before them
      keeps the list ordered. */
  lemma AppendSorted(talks: seq<Talk>, more: seq<Talk>, hi: int)
    requires IndicesSorted(talks) && IndicesWithin(talks, 1, hi)
    requires IndicesWithin(more, hi, hi)
    ensures IndicesSorted(talks + more)
  {
    var next := talks + more;
    forall a, b | 0 <= a <= b < |next| ensures next[a].index <= next[b].index {
      if b >= |talks| {
        assert next[b] == more[b - |talks|];
        if a >= |talks| {
          assert next[a] == more[a - |talks|];
        }
      }
    }
  }

  /** With a clean line step the line at position i carries counter value i - 2, so the
      records are ordered by counter, and every counter value lies between 1 and that of
      the last line. */
  lemma {:induction false} DriveIndices(step: LineStep, lines: seq<ScannedLine>, i: nat, ctx: Ctx, talks: seq<Talk>)
    requires CleanStep(step) && 3 <= i
    requires IndicesSorted(talks) && IndicesWithin(talks, 1, i - 3)
    ensures IndicesSorted(Drive(step, lines, i, ctx, talks).talks)
    ensures IndicesWithin(Drive(step, lines, i, ctx, talks).talks, 1, if i < |lines| then |lines| - 3 else i - 3)
    decreases |lines| - i
  {
    if i < |lines| {
      var r := step(lines[i], i - 2, ctx, LastState(talks));
      assert LineRecordsOk(r, i - 2);
      match r
      case Ok(e) =>
        var next := talks + e.talks;
        assert IndicesWithin(next, 1, i - 2);
        AppendSorted(talks, e.talks, i - 2);
        DriveIndices(step, lines, i + 1, e.ctx, next);
      case Err(f) =>
        AppendSorted(talks, [ErrorTalk(i - 2, f)], i - 2);
    }
  }

  /** Record counters start at 1 for line 3, never decrease, and never exceed the counter
      value of the last line. */
  lemma CountersOrdered(lines: seq<ScannedLine>, now: DateTime)
    ensures IndicesSorted(Run(lines, now).talks)
    ensures IndicesWithin(Run(lines, now).talks, 1, |lines| - 3)
  {
    StepIsClean();
    DriveIndices(Step, lines, 3, InitialCtx(now), []);
  }

  /** The running speaker and latest time are those of the last record whenever that is
      a Message or an Append. */
  predicate Coherent(ctx: Ctx, talks: seq<Talk>) {
    Extendable(LastState(talks)) ==>
      talks[|talks| - 1].name == Some(ctx.name) && talks[|talks| - 1].time == ctx.latest
  }

  /** Every Append follows a Message or an Append and has its name and time. */
  predicate AppendsChained(talks: seq<Talk>) {
    forall k :: 0 <= k < |talks| && talks[k].state == Append ==>
      && k > 0 && talks[k - 1].state in {Message, Append}
      && talks[k - 1].name == talks[k].name && talks[k - 1].time == talks[k].time
  }

  /** Message and Append records hold a valid DateTime; all others hold MinValue. */
  predicate TimesValid(talks: seq<Talk>) {
    forall k :: 0 <= k < |talks| ==>
      if talks[k].state in {Message, Append} then IsValid(talks[k].time) else talks[k].time == MinValue
  }

  lemma {:induction false} StepKeepsCoherent(l: ScannedLine, index: int, ctx: Ctx, talks: seq<Talk>)
    requires Coherent(ctx, talks)
    ensures var r := Step(l, index, ctx, LastState(talks));
            r.Ok? ==> Coherent(r.value.ctx, talks + r.value.talks)
  {
    var r := Step(l, index, ctx, LastState(talks));
    StepFrame(l, index, ctx, LastState(talks));
    if r.Ok? {
      var e := r.value;
      var next := talks + e.talks;
      assert RecordsFramed(e.talks, index, Classify(l), e.ctx);
      if e.talks == [] {
        assert next == talks;
      } else {
        assert next[|next| - 1] == e.talks[|e.talks| - 1];
        assert TalkFramed(e.talks[|e.talks| - 1], index, Classify(l), e.ctx);
      }
    }
  }

  lemma {:induction false} StepKeepsChained(l: ScannedLine, index: int, ctx: Ctx, talks: seq<Talk>)
    requires Coherent(ctx, talks) && AppendsChained(talks) && TimesValid(talks)
    ensures var r := Step(l, index, ctx, LastState(talks));
            r.Ok? ==> AppendsChained(talks + r.value.talks) && TimesValid(talks + r.value.talks)
  {
    if Classify(l) == OtherLine {
      ContinuationKeepsChained(l, index, ctx, talks);
    } else {
      StepFrame(l, index, ctx, LastState(talks));
      var r := Step(l, index, ctx, LastState(talks));
      if r.Ok? {
        AppendFramed(talks, r.value.talks, index, Classify(l), r.value.ctx);
      }
    }
  }

  /** An Append that continues the last record keeps the chain. */
  lemma ContinuationKeepsChained(l: ScannedLine, index: int, ctx: Ctx, talks: seq<Talk>)
    requires Classify(l) == OtherLine
    requires Coherent(ctx, talks) && AppendsChained(talks) && TimesValid(talks)
    ensures var r := Step(l, index, ctx, LastState(talks));
            r.Ok? ==> AppendsChained(talks + r.value.talks) && TimesValid(talks + r.value.talks)
  {
    Continuation(l, index, ctx, LastState(talks));
    var r := Step(l, index, ctx, LastState(talks));
    if r.Ok? {
      var next := talks + [Talk(Append, index, ctx.latest, Some(ctx.name), Text(l.text))];
      assert talks + r.value.talks == next;
      assert next[|talks| - 1] == talks[|talks| - 1];
    }
  }

  /** Records of any other shape hold no Append and keep the chain. */
  lemma AppendFramed(talks: seq<Talk>, more: seq<Talk>, index: int, s: Shape, next: Ctx)
    requires s != OtherLine && RecordsFramed(more, index, s, next)
    requires AppendsChained(talks) && TimesValid(talks)
    ensures AppendsChained(talks + more) && TimesValid(talks + more)
  {
    var all := talks + more;
    forall k | |talks| <= k < |all| ensures all[k] == more[k - |talks|] && TalkFramed(more[k - |talks|], index, s, next) {
    }
  }

  /** The facts above together: what the pass keeps true of its context and records. */
  predicate PassInvariant(ctx: Ctx, talks: seq<Talk>) {
    Coherent(ctx, talks) && AppendsChained(talks) && TimesValid(talks)
  }

  /** A line's success keeps the pass invariant. */
  predicate KeepsInvariant(r: Result<Emitted, Failure>, talks: seq<Talk>) {
    r.Ok? ==> PassInvariant(r.value.ctx, talks + r.value.talks)
  }

  /** A line step that keeps the pass invariant on every line. */
  ghost predicate InvariantStep(step: LineStep) {
    forall l, index, ctx, talks :: PassInvariant(ctx, talks) ==>
      KeepsInvariant(step(l, index, ctx, LastState(talks)), talks)
  }

  /** Step is such a line step. */
  lemma StepKeepsInvariant()
    ensures InvariantStep(Step)
  {
    forall l, index, ctx, talks | PassInvariant(ctx, talks)
      ensures KeepsInvariant(Step(l, index, ctx, LastState(talks)), talks)
    {
      StepKeepsCoherent(l, index, ctx, talks);
      StepKeepsChained(l, index, ctx, talks);
    }
  }

  /** The invariant holds of every record list a pass produces, the Error record of an
      aborted pass included. */
  lemma {:induction false} DriveChained(step: LineStep, lines: seq<ScannedLine>, i: nat, ctx: Ctx, talks: seq<Talk>)
    requires InvariantStep(step) && PassInvariant(ctx, talks)
    ensures AppendsChained(Drive(step, lines, i, ctx, talks).talks)
    ensures TimesValid(Drive(step, lines, i, ctx, talks).talks)
    decreases |lines| - i
  {
    if i < |lines| {
      var r := step(lines[i], i - 2, ctx, LastState(talks));
      assert KeepsInvariant(r, talks);
      match r
      case Ok(e) =>
        DriveChained(step, lines, i + 1, e.ctx, talks + e.talks);
      case Err(f) =>
        var next := talks + [ErrorTalk(i - 2, f)];
        assert forall k :: 0 <= k < |talks| ==> next[k] == talks[k];
    }
  }

  /** Walking back from an Append over the Appends before it reaches a Message with the
      same name and time. */
  lemma {:induction false} AppendTraceBack(talks: seq<Talk>, k: nat)
    requires AppendsChained(talks)
    requires k < |talks| && talks[k].state == Append
    ensures exists j :: 0 <= j < k && talks[j].state == Message
                        && talks[j].name == talks[k].name && talks[j].time == talks[k].time
                        && forall m :: j < m <= k ==> talks[m].state == Append
  {
    if talks[k - 1].state == Message {
      assert forall m :: k - 1 < m <= k ==> talks[m].state == Append;
    } else {
      AppendTraceBack(talks, k - 1);
      var j :| 0 <= j < k - 1 && talks[j].state == Message
               && talks[j].name == talks[k - 1].name && talks[j].time == talks[k - 1].time
               && forall m :: j < m <= k - 1 ==> talks[m].state == Append;
      assert forall m :: j < m <= k ==> talks[m].state == Append;
    }
  }

  /** An Append in the output has the name and time of the most recent Message: the one
      that starts the run of Appends it belongs to. Every Message and Append time is a
      valid DateTime; every other record has MinValue. */
  lemma AppendInheritsMessage(lines: seq<ScannedLine>, now: DateTime, k: nat)
    requires k < |Run(lines, now).talks| && Run(lines, now).talks[k].state == Append
    ensures var ts := Run(lines, now).talks;
            exists j :: 0 <= j < k && ts[j].state == Message
                        && ts[j].name == ts[k].name && ts[j].time == ts[k].time
                        && forall m :: j < m <= k ==> ts[m].state == Append
  {
    StepKeepsInvariant();
    DriveChained(Step, lines, 3, InitialCtx(now), []);
    AppendTraceBack(Run(lines, now).talks, k);
  }

  lemma RecordTimes(lines: seq<ScannedLine>, now: DateTime)
    ensures TimesValid(Run(lines, now).talks)
  {
    StepKeepsInvariant();
    DriveChained(Step, lines, 3, InitialCtx(now), []);
  }

  lemma {:induction false} RunFromIgnoresClock(lines: seq<ScannedLine>, i: nat, ctx: Ctx, t: DateTime, talks: seq<Talk>)
    requires Coherent(ctx, talks) && Coherent(ctx.(latest := t), talks)
    ensures RunFrom(lines, i, ctx, talks) == RunFrom(lines, i, ctx.(latest := t), talks)
    decreases |lines| - i
  {
    if i < |lines| {
      var l := lines[i];
      var c2 := ctx.(latest := t);
      var last := LastState(talks);
      if Classify(l) == OtherLine {
        if Extendable(last) {
          assert ctx == c2;
        } else {
          Continuation(l, i - 2, ctx, last);
          Continuation(l, i - 2, c2, last);
        }
      } else {
        StepIgnoresClock(l, i - 2, ctx, last, t);
        StepKeepsCoherent(l, i - 2, ctx, talks);
        StepKeepsCoherent(l, i - 2, c2, talks);
        match Step(l, i - 2, ctx, last)
        case Ok(e) =>
          if Classify(l) != MessageLine {
            RunFromIgnoresClock(lines, i + 1, e.ctx, t, talks + e.talks);
          }
        case Err(f) =>
      }
    }
  }

  /** The clock reading a pass starts with never shows in its outcome: two passes over the
      same lines agree record for record, in the exception and in the notification. */
  lemma OutcomeIgnoresClock(lines: seq<ScannedLine>, now1: DateTime, now2: DateTime)
    ensures Run(lines, now1) == Run(lines, now2)
  {
    assert InitialCtx(now1).(latest := now2) == InitialCtx(now2);
    RunFromIgnoresClock(lines, 3, InitialCtx(now1), now2, []);
  }
}
