/** The parsing pass: KakaoTalkParser, its title, and ParseStart, which walks the lines
    after the three header lines, threads the running context through them and appends
    the records each line yields, stopping at the first line that throws. */
module Parser {
  import opened Wrappers
  import opened Text
  import opened Clock
  import opened Records
  import opened Matching
  import opened Classifier

  /** What the export writes after the partner's name on its first line. */
  const TitleSuffix := " 님과 카카오톡 대화"

  /** The title: the first line with every occurrence of the suffix deleted. */
  function TitleOf(first: string): (r: string)
    ensures |r| <= |first|
  {
    RemoveAll(first, TitleSuffix)
  }

  /** A first line made of a name and the suffix gives the name back, provided the suffix
      does not also occur earlier. */
  lemma TitleOfExport(name: string)
    requires !Contains(name + TitleSuffix[..|TitleSuffix| - 1], TitleSuffix)
    ensures TitleOf(name + TitleSuffix) == name
  {
    RemoveAllSuffix(name, TitleSuffix);
  }

  /** A first line without the suffix is the title as it is. */
  lemma TitleWithoutSuffix(first: string)
    requires !Contains(first, TitleSuffix)
    ensures TitleOf(first) == first
  {
    RemoveAllAbsent(first, TitleSuffix);
  }

  /** One notification to the diagnostic sink: the offending line and why it failed. */
  datatype Notice = Notice(target: string, cause: Failure)

  /** The outcome of a pass. An aborted pass records the failure, the position of the
      offending line and its text; its records end with the Error record. */
  datatype PassResult =
    | Completed(talks: seq<Talk>)
    | Aborted(talks: seq<Talk>, cause: Failure, at: nat, target: string)

  /** The exception ParseStart lets escape, if any. */
  function Thrown(r: PassResult): (f: Option<Failure>)
    ensures f.Some? <==> r.Aborted?
  {
    if r.Aborted? then Some(r.cause) else None
  }

  /** What the pass sends to the diagnostic sink: one notice when it aborts, none otherwise. */
  function Notices(r: PassResult): (n: seq<Notice>)
    ensures |n| <= 1 && (|n| == 1 <==> r.Aborted?)
  {
    if r.Aborted? then [Notice(r.target, r.cause)] else []
  }

  /** The context at the start of a pass: no date yet, no speaker, and the clock reading
      `now` as the latest time. */
  function InitialCtx(now: DateTime): Ctx {
    Ctx(0, 0, 0, "", now)
  }

  /** What one line does: given the line, its counter value, the running context and the
      state of the last record so far, either the new context and the records to append,
      or the failure the line throws. */
  type LineStep = (ScannedLine, int, Ctx, Option<TalkState>) -> Result<Emitted, Failure>

  /** The loop of the pass from line position `i` on, with the counter at i - 2, for any
      line step: it threads the context, appends what each line yields and stops at the
      first failure, with the Error record for that line as the last record. */
  function Drive(step: LineStep, lines: seq<ScannedLine>, i: nat, ctx: Ctx, talks: seq<Talk>): PassResult
    decreases |lines| - i
  {
    if i >= |lines| then Completed(talks)
    else match step(lines[i], i - 2, ctx, LastState(talks))
      case Ok(e) => Drive(step, lines, i + 1, e.ctx, talks + e.talks)
      case Err(f) => Aborted(talks + [ErrorTalk(i - 2, f)], f, i, lines[i].text)
  }

  /** The pass from line position `i` on, each line handled by Step. */
  function RunFrom(lines: seq<ScannedLine>, i: nat, ctx: Ctx, talks: seq<Talk>): PassResult {
    Drive(Step, lines, i, ctx, talks)
  }

  /** The whole pass: lines 0..2 are skipped and line 3 is counted as 1. */
  function Run(lines: seq<ScannedLine>, now: DateTime): PassResult {
    RunFrom(lines, 3, InitialCtx(now), [])
  }

  /** A line's outcome as seen in the parser's state: on success the new context and the
      records appended to the list, on failure the list unchanged. */
  predicate Applied(r: Result<Emitted, Failure>, before: seq<Talk>, after: seq<Talk>, next: Ctx, failure: Option<Failure>) {
    match r
    case Ok(e) => failure == None && next == e.ctx && after == before + e.talks
    case Err(f) => failure == Some(f) && after == before
  }

  /** The diagnostic sink; it only records what it is given. */
  class Monitor {
    var Pushed: seq<Notice>

    constructor ()
      ensures Pushed == []
    {
      Pushed := [];
    }

    method Push(n: Notice)
      modifies this
      ensures Pushed == old(Pushed) + [n]
    {
      Pushed := Pushed + [n];
    }
  }

  class KakaoTalkParser {
    /** The transcript, one entry per line, with the pattern outcomes of each line. */
    const lines: seq<ScannedLine>
    const Title: string
    var Talks: seq<Talk>

    /** The first line must exist: on an empty file the title cannot be read. */
    constructor (lines: seq<ScannedLine>)
      requires |lines| > 0
      ensures this.lines == lines && Title == TitleOf(lines[0].text) && Talks == []
    {
      this.lines := lines;
      Title := TitleOf(lines[0].text);
      Talks := [];
    }

    /** The body of the try block for one line: the records go to Talks, the new context
        is returned, and a failure is returned instead of thrown. */
    method ParseLine(line: ScannedLine, index: int, ctx: Ctx) returns (next: Ctx, failure: Option<Failure>)
      modifies this`Talks
      ensures Applied(Step(line, index, ctx, LastState(old(Talks))), old(Talks), Talks, next, failure)
    {
      var tt := Reg(line.message);
      if |tt| > 0 {
        next, failure := ParseMessage(tt, index, ctx);
      } else if StartsWith(line.text, DateFrame) && line.date.Matched? {
        var dt := Reg(line.date);
        next, failure := ParseDate(dt, ctx);
      } else if StartsWith(line.text, DateFrame) && line.dateEng.Matched? {
        var dt := Reg(line.dateEng);
        next, failure := ParseDateEng(dt, ctx);
      } else if Contains(line.text, InvitePhrase) {
        var pp := Reg(line.invite);
        next, failure := ParseInvite(pp, index, ctx);
      } else if Contains(line.text, JoinPhrase) {
        next, failure := AddNotice(line.join, Enter, index, ctx);
      } else if Contains(line.text, LeavePhrase) {
        next, failure := AddNotice(line.leave, Leave, index, ctx);
      } else if Contains(line.text, BanPhrase) {
        next, failure := AddNotice(line.ban, Leave, index, ctx);
      } else if Contains(line.text, SharePhrase) {
        next, failure := AddNotice(line.share, Share, index, ctx);
      } else if Contains(line.text, SharedPhrase) {
        next, failure := AddNotice(line.shared, Share, index, ctx);
      } else if Contains(line.text, HiddenPhrase) {
        // nothing to record
        next, failure := ctx, None;
      } else {
        next, failure := Continue(line.text, index, ctx);
      }
    }

    /** A message header, with the 12-hour clock converted in place. */
    method ParseMessage(tt: seq<string>, index: int, ctx: Ctx) returns (next: Ctx, failure: Option<Failure>)
      modifies this`Talks
      ensures Applied(MessageStep(tt, index, ctx), old(Talks), Talks, next, failure)
    {
      next := ctx;
      var hour := NatAt(tt, 2);
      if hour.Err? { return ctx, Some(hour.error); }
      var time := hour.value;
      if tt[1] == Afternoon {
        if time != 12 { time := time + 12; }
      } else if time == 12 {
        time := 0;
      }
      var minute := NatAt(tt, 3);
      if minute.Err? { return ctx, Some(minute.error); }
      var latest := NewDateTime(ctx.year, ctx.month, ctx.day, time, minute.value, 0);
      if latest.None? { return ctx, Some(InvalidDateTime); }
      if |tt| < 5 { return ctx, Some(MissingCapture); }
      Talks := Talks + [Talk(Message, index, latest.value, Some(tt[0]), Text(Trim(tt[4])))];
      next, failure := ctx.(name := tt[0], latest := latest.value), None;
    }

    /** A Korean date header. */
    method ParseDate(dt: seq<string>, ctx: Ctx) returns (next: Ctx, failure: Option<Failure>)
      modifies this`Talks
      ensures Applied(DateStep(dt, ctx), old(Talks), Talks, next, failure)
    {
      var year := NatAt(dt, 0);
      if year.Err? { return ctx, Some(year.error); }
      var month := NatAt(dt, 1);
      if month.Err? { return ctx, Some(month.error); }
      var day := NatAt(dt, 2);
      if day.Err? { return ctx, Some(day.error); }
      next, failure := ctx.(year := year.value, month := month.value, day := day.value), None;
    }

    /** An English date header. */
    method ParseDateEng(dt: seq<string>, ctx: Ctx) returns (next: Ctx, failure: Option<Failure>)
      modifies this`Talks
      ensures Applied(DateEngStep(dt, ctx), old(Talks), Talks, next, failure)
    {
      var year := NatAt(dt, 2);
      if year.Err? { return ctx, Some(year.error); }
      var month := MonthNumber(dt[0]);
      if month.None? { return ctx, Some(UnknownMonth); }
      var day := NatAt(dt, 1);
      if day.Err? { return ctx, Some(day.error); }
      next, failure := ctx.(year := year.value, month := month.value, day := day.value), None;
    }

    /** An invite notice: one Enter record per comma-separated piece, appended in order. */
    method ParseInvite(pp: seq<string>, index: int, ctx: Ctx) returns (next: Ctx, failure: Option<Failure>)
      modifies this`Talks
      ensures Applied(InviteStep(pp, index, ctx), old(Talks), Talks, next, failure)
    {
      if |pp| < 2 { return ctx, Some(MissingCapture); }
      if ',' in pp[1] {
        var pieces := Split(pp[1], ',');
        AddEnters(pieces, index);
      } else {
        Talks := Talks + [NoticeTalk(Enter, index, pp[1])];
      }
      next, failure := ctx, None;
    }

    /** The ForEach over the pieces of an invite list: one Enter record per piece, in order. */
    method AddEnters(pieces: seq<string>, index: int)
      modifies this`Talks
      ensures Talks == old(Talks) + EnterAll(pieces, index)
    {
      ghost var all := EnterAll(pieces, index);
      var k := 0;
      while k < |pieces|
        invariant 0 <= k <= |pieces|
        invariant Talks == old(Talks) + all[..k]
      {
        var talk := NoticeTalk(Enter, index, StripHonorificAsWritten(pieces[k]));
        assert all[k] == talk;
        assert all[..k + 1] == all[..k] + [talk];
        assert old(Talks) + all[..k + 1] == Talks + [talk];
        Talks := Talks + [talk];
        k := k + 1;
      }
      assert all[..k] == all;
    }

    /** A join, leave, ban or share notice: a record named by the first capture of its pattern. */
    method AddNotice(m: Match, state: TalkState, index: int, ctx: Ctx) returns (next: Ctx, failure: Option<Failure>)
      modifies this`Talks
      ensures Applied(NoticeStep(Captures(m), state, index, ctx), old(Talks), Talks, next, failure)
    {
      var pp := Reg(m);
      if |pp| < 1 { return ctx, Some(MissingCapture); }
      Talks := Talks + [NoticeTalk(state, index, pp[0])];
      next, failure := ctx, None;
    }

    /** A line of no known shape: it continues a Message or an Append, or it throws. */
    method Continue(text: string, index: int, ctx: Ctx) returns (next: Ctx, failure: Option<Failure>)
      modifies this`Talks
      ensures Applied(ContinueStep(text, index, ctx, LastState(old(Talks))), old(Talks), Talks, next, failure)
    {
      next := ctx;
      if Talks == [] {
        failure := Some(NoPreviousTalk);
      } else if Talks[|Talks| - 1].state == Message || Talks[|Talks| - 1].state == Append {
        Talks := Talks + [Talk(Append, index, ctx.latest, Some(ctx.name), Text(text))];
        failure := None;
      } else {
        failure := Some(NotAContinuation);
      }
    }

    /** ParseStart: the records of the pass, the exception it ends with, and the one
        notification of an aborted pass. */
    method ParseStart(now: DateTime, monitor: Monitor) returns (thrown: Option<Failure>)
      modifies this`Talks, monitor
      ensures Talks == Run(lines, now).talks
      ensures thrown == Thrown(Run(lines, now))
      ensures monitor.Pushed == old(monitor.Pushed) + Notices(Run(lines, now))
    {
      Talks := [];
      var indexCount := 1;
      var ctx := InitialCtx(now);
      var i := 3;
      while i < |lines|
        invariant 3 <= i
        invariant indexCount == i - 2
        invariant RunFrom(lines, i, ctx, Talks) == Run(lines, now)
        invariant monitor.Pushed == old(monitor.Pushed)
      {
        var line := lines[i];
        var next, failure := ParseLine(line, indexCount, ctx);
        if failure.Some? {
          Talks := Talks + [ErrorTalk(indexCount, failure.value)];
          monitor.Push(Notice(line.text, failure.value));
          return failure;
        }
        ctx := next;
        i, indexCount := i + 1, indexCount + 1;
      }
      return None;
    }
  }
}
