/** The line classifier and the effect of one line: which shape a line has, first match
    wins, and what that shape does to the running context and to the record list. */
module Classifier {
  import opened Wrappers
  import opened Text
  import opened Clock
  import opened Records
  import opened Matching

  /** The framing that both date header forms start with. */
  const DateFrame := "---------------"

  const InvitePhrase := "님을 초대하였습니다."
  const JoinPhrase := "님이 들어왔습니다."
  const LeavePhrase := "님이 나갔습니다."
  const BanPhrase := "님을 내보냈습니다."
  const SharePhrase := "님이 포스트를 공유했습니다."
  const SharedPhrase := "님의 포스트가 공유되었습니다."
  /** The moderator notice that a message was hidden; it produces nothing. */
  const HiddenPhrase := "채팅방 관리자가 메시지를 가렸습니다."

  /** The honorific suffix stripped from the names of a multi-name invite. */
  const Honorific := '님'

  /** The running context of a pass: the date of the last date header, the speaker of the
      last message and the time of the last message. */
  datatype Ctx = Ctx(year: int, month: int, day: int, name: string, latest: DateTime)

  /** What a line that does not throw leaves behind: the new context and the records it adds. */
  datatype Emitted = Emitted(ctx: Ctx, talks: seq<Talk>)

  /** The line shapes, tried in this order. */
  datatype Shape =
    | MessageLine | DateLine | DateEngLine
    | InviteLine | JoinLine | LeaveLine | BanLine | ShareLine | SharedLine
    | HiddenLine | OtherLine

  const Priority: seq<Shape> := [MessageLine, DateLine, DateEngLine, InviteLine, JoinLine,
    LeaveLine, BanLine, ShareLine, SharedLine, HiddenLine, OtherLine]

  /** The test that selects a shape, taken on its own. */
  predicate Guard(l: ScannedLine, s: Shape) {
    match s
    case MessageLine => |Captures(l.message)| > 0
    case DateLine => StartsWith(l.text, DateFrame) && l.date.Matched?
    case DateEngLine => StartsWith(l.text, DateFrame) && l.dateEng.Matched?
    case InviteLine => Contains(l.text, InvitePhrase)
    case JoinLine => Contains(l.text, JoinPhrase)
    case LeaveLine => Contains(l.text, LeavePhrase)
    case BanLine => Contains(l.text, BanPhrase)
    case ShareLine => Contains(l.text, SharePhrase)
    case SharedLine => Contains(l.text, SharedPhrase)
    case HiddenLine => Contains(l.text, HiddenPhrase)
    case OtherLine => true
  }

  /** The if / else-if chain of the parsing loop. */
  function Classify(l: ScannedLine): Shape {
    if |Captures(l.message)| > 0 then MessageLine
    else if StartsWith(l.text, DateFrame) && l.date.Matched? then DateLine
    else if StartsWith(l.text, DateFrame) && l.dateEng.Matched? then DateEngLine
    else if Contains(l.text, InvitePhrase) then InviteLine
    else if Contains(l.text, JoinPhrase) then JoinLine
    else if Contains(l.text, LeavePhrase) then LeaveLine
    else if Contains(l.text, BanPhrase) then BanLine
    else if Contains(l.text, SharePhrase) then ShareLine
    else if Contains(l.text, SharedPhrase) then SharedLine
    else if Contains(l.text, HiddenPhrase) then HiddenLine
    else OtherLine
  }

  /** First match wins: a line has the k-th shape exactly when the k-th test holds and no
      earlier one does. */
  lemma {:induction false} ClassifyIsFirstMatch(l: ScannedLine, k: nat)
    requires k < |Priority|
    ensures Classify(l) == Priority[k] <==> Guard(l, Priority[k]) && forall j :: 0 <= j < k ==> !Guard(l, Priority[j])
  {
    assert Priority[0] == MessageLine && Priority[1] == DateLine && Priority[2] == DateEngLine;
    assert Priority[3] == InviteLine && Priority[4] == JoinLine && Priority[5] == LeaveLine;
    assert Priority[6] == BanLine && Priority[7] == ShareLine && Priority[8] == SharedLine;
    assert Priority[9] == HiddenLine && Priority[10] == OtherLine;
    if Guard(l, Priority[k]) && forall j :: 0 <= j < k ==> !Guard(l, Priority[j]) {
      assert 0 < k ==> !Guard(l, Priority[0]);
      assert 1 < k ==> !Guard(l, Priority[1]);
      assert 2 < k ==> !Guard(l, Priority[2]);
      assert 3 < k ==> !Guard(l, Priority[3]);
      assert 4 < k ==> !Guard(l, Priority[4]);
      assert 5 < k ==> !Guard(l, Priority[5]);
      assert 6 < k ==> !Guard(l, Priority[6]);
      assert 7 < k ==> !Guard(l, Priority[7]);
      assert 8 < k ==> !Guard(l, Priority[8]);
      assert 9 < k ==> !Guard(l, Priority[9]);
    }
  }

  /** A numeric capture read by the integer parse; a missing capture or a parse failure throws. */
  function NatAt(caps: seq<string>, k: nat): (r: Result<nat, Failure>)
    ensures r.Ok? <==> k < |caps| && ToInt(caps[k]).Some?
    ensures r.Ok? ==> ToInt(caps[k]) == Some(r.value)
    ensures r.Err? ==> r.error == (if k < |caps| then NotANumber else MissingCapture)
  {
    if k >= |caps| then Err(MissingCapture)
    else match ToInt(caps[k])
      case None => Err(NotANumber)
      case Some(n) => Ok(n)
  }

  /** A message header: the time is the running date with the converted hour and the minute;
      one Message record; the speaker and the latest time become those of this message. */
  function MessageStep(tt: seq<string>, index: int, ctx: Ctx): Result<Emitted, Failure> {
    var hour :- NatAt(tt, 2);
    var h := Hour24(tt[1], hour);
    var minute :- NatAt(tt, 3);
    match NewDateTime(ctx.year, ctx.month, ctx.day, h, minute, 0)
    case None => Err(InvalidDateTime)
    case Some(t) =>
      if |tt| < 5 then Err(MissingCapture)
      else Ok(Emitted(ctx.(name := tt[0], latest := t),
                      [Talk(Message, index, t, Some(tt[0]), Text(Trim(tt[4])))]))
  }

  /** A Korean date header: year, month and day from captures 0, 1 and 2. */
  function DateStep(dt: seq<string>, ctx: Ctx): Result<Emitted, Failure> {
    var year :- NatAt(dt, 0);
    var month :- NatAt(dt, 1);
    var day :- NatAt(dt, 2);
    Ok(Emitted(ctx.(year := year, month := month, day := day), []))
  }

  /** An English date header: year from capture 2, month name from capture 0, day from capture 1. */
  function DateEngStep(dt: seq<string>, ctx: Ctx): Result<Emitted, Failure> {
    var year :- NatAt(dt, 2);
    match MonthNumber(dt[0])
    case None => Err(UnknownMonth)
    case Some(month) =>
      var day :- NatAt(dt, 1);
      Ok(Emitted(ctx.(year := year, month := month, day := day), []))
  }

  /** The name an invited piece of a comma-separated list contributes, as the parser
      computes it: the TRIMMED piece is tested for the honorific, but the last character of
      the UNTRIMMED piece is removed before trimming. */
  function StripHonorificAsWritten(x: string): (r: string)
    ensures IsTrimmed(r)
    ensures forall c :: c in r ==> c in x
  {
    if EndsWith(Trim(x), Honorific) then
      SliceCharacters(x, 0, |x| - 1);
      Trim(x[..|x| - 1])
    else Trim(x)
  }

  /** The name an invited piece evidently should contribute: the trimmed piece without a
      trailing honorific (and the white space before it). */
  function StripHonorific(x: string): (r: string)
    ensures IsTrimmed(r)
    ensures forall c :: c in r ==> c in x
    ensures EndsWith(Trim(x), Honorific) ==> r == Trim(Trim(x)[..|Trim(x)| - 1])
    ensures !EndsWith(Trim(x), Honorific) ==> r == Trim(x)
  {
    var t := Trim(x);
    if EndsWith(t, Honorific) then Trim(t[..|t| - 1]) else t
  }

  /** The Enter records of a multi-name invite, one per piece, in order. */
  function EnterAll(pieces: seq<string>, index: int): (r: seq<Talk>)
    ensures |r| == |pieces|
    ensures forall k :: 0 <= k < |pieces| ==> r[k] == NoticeTalk(Enter, index, StripHonorificAsWritten(pieces[k]))
  {
    seq(|pieces|, k requires 0 <= k < |pieces| => NoticeTalk(Enter, index, StripHonorificAsWritten(pieces[k])))
  }

  /** An invite notice: the invited capture split at commas, or taken whole when it has none. */
  function InviteStep(pp: seq<string>, index: int, ctx: Ctx): Result<Emitted, Failure> {
    if |pp| < 2 then Err(MissingCapture)
    else if ',' in pp[1] then Ok(Emitted(ctx, EnterAll(Split(pp[1], ','), index)))
    else Ok(Emitted(ctx, [NoticeTalk(Enter, index, pp[1])]))
  }

  /** A join, leave, ban or share notice: one record named by the first capture. */
  function NoticeStep(pp: seq<string>, state: TalkState, index: int, ctx: Ctx): Result<Emitted, Failure> {
    if |pp| < 1 then Err(MissingCapture)
    else Ok(Emitted(ctx, [NoticeTalk(state, index, pp[0])]))
  }

  /** An unclassified line: an Append record continuing the message before it, or a throw. */
  function ContinueStep(text: string, index: int, ctx: Ctx, last: Option<TalkState>): Result<Emitted, Failure> {
    if Extendable(last) then Ok(Emitted(ctx, [Talk(Append, index, ctx.latest, Some(ctx.name), Text(text))]))
    else if last == None then Err(NoPreviousTalk)
    else Err(NotAContinuation)
  }

  /** The pattern whose captures each single-name notice shape reads. */
  function NoticeMatch(l: ScannedLine, s: Shape): Match
    requires s in {JoinLine, LeaveLine, BanLine, ShareLine, SharedLine}
  {
    match s
    case JoinLine => l.join
    case LeaveLine => l.leave
    case BanLine => l.ban
    case ShareLine => l.share
    case SharedLine => l.shared
  }

  /** One line of the pass, with the counter value `index` and the state of the last record. */
  function Step(l: ScannedLine, index: int, ctx: Ctx, last: Option<TalkState>): Result<Emitted, Failure> {
    match Classify(l)
    case MessageLine => MessageStep(Captures(l.message), index, ctx)
    case DateLine => DateStep(Captures(l.date), ctx)
    case DateEngLine => DateEngStep(Captures(l.dateEng), ctx)
    case InviteLine => InviteStep(Captures(l.invite), index, ctx)
    case JoinLine => NoticeStep(Captures(l.join), Enter, index, ctx)
    case LeaveLine => NoticeStep(Captures(l.leave), Leave, index, ctx)
    case BanLine => NoticeStep(Captures(l.ban), Leave, index, ctx)
    case ShareLine => NoticeStep(Captures(l.share), Share, index, ctx)
    case SharedLine => NoticeStep(Captures(l.shared), Share, index, ctx)
    case HiddenLine => Ok(Emitted(ctx, []))
    case OtherLine => ContinueStep(l.text, index, ctx, last)
  }

  /** A well-formed message header: five captures with numeric hour and minute. */
  predicate WellFormedHeader(tt: seq<string>) {
    |tt| >= 5 && ToInt(tt[2]).Some? && ToInt(tt[3]).Some?
  }

  /** The time a well-formed header denotes on the running date. */
  function HeaderTime(tt: seq<string>, ctx: Ctx): DateTime
    requires WellFormedHeader(tt)
  {
    DateTime(ctx.year, ctx.month, ctx.day, Hour24(tt[1], ToInt(tt[2]).value), ToInt(tt[3]).value, 0)
  }

  /** A message header comes first and decides the line on its own captures: it succeeds
      exactly when the header is well formed and its time is a valid DateTime, adds one
      Message record (name from the first capture, trimmed body from the last, the current
      counter) and makes that name and time the running speaker and latest time. */
  lemma MessageHeader(l: ScannedLine, index: int, ctx: Ctx, last: Option<TalkState>)
    requires |Captures(l.message)| > 0
    ensures var tt := Captures(l.message);
            var r := Step(l, index, ctx, last);
            && (r.Ok? <==> WellFormedHeader(tt) && IsValid(HeaderTime(tt, ctx)))
            && (r.Ok? ==> r.value.talks == [Talk(Message, index, HeaderTime(tt, ctx), Some(tt[0]), Text(Trim(tt[4])))]
                          && r.value.ctx == ctx.(name := tt[0], latest := HeaderTime(tt, ctx)))
            && (r.Err? ==> if WellFormedHeader(tt) then r.error == InvalidDateTime
                           else r.error in {MissingCapture, NotANumber, InvalidDateTime})
  {
  }

  /** A message header before any date header (the running date still 0-0-0) always throws. */
  lemma MessageBeforeDateHeader(l: ScannedLine, index: int, ctx: Ctx, last: Option<TalkState>)
    requires |Captures(l.message)| > 0 && ctx.year == 0
    ensures Step(l, index, ctx, last).Err?
  {
    MessageHeader(l, index, ctx, last);
  }

  /** A Korean date header adds no record and sets only the running year, month and day,
      from captures 0, 1 and 2; a missing or non-numeric capture throws. */
  lemma KoreanDateHeader(l: ScannedLine, index: int, ctx: Ctx, last: Option<TalkState>)
    requires Classify(l) == DateLine
    ensures var dt := Captures(l.date);
            var r := Step(l, index, ctx, last);
            && (r.Ok? <==> |dt| >= 3 && ToInt(dt[0]).Some? && ToInt(dt[1]).Some? && ToInt(dt[2]).Some?)
            && (r.Ok? ==> r.value == Emitted(ctx.(year := ToInt(dt[0]).value, month := ToInt(dt[1]).value,
                                                  day := ToInt(dt[2]).value), []))
            && (r.Err? ==> r.error in {MissingCapture, NotANumber})
  {
  }

  /** An English date header adds no record and sets only the running date: the year from
      capture 2, the month through the month table from capture 0, the day from capture 1.
      A month name outside the table throws. */
  lemma EnglishDateHeader(l: ScannedLine, index: int, ctx: Ctx, last: Option<TalkState>)
    requires Classify(l) == DateEngLine
    ensures var dt := Captures(l.dateEng);
            var r := Step(l, index, ctx, last);
            && (r.Ok? <==> |dt| >= 3 && ToInt(dt[2]).Some? && dt[0] in MonthNames && ToInt(dt[1]).Some?)
            && (r.Ok? ==> r.value == Emitted(ctx.(year := ToInt(dt[2]).value, month := MonthNumber(dt[0]).value,
                                                  day := ToInt(dt[1]).value), []))
            && (|dt| >= 3 && ToInt(dt[2]).Some? && dt[0] !in MonthNames ==> r == Err(UnknownMonth))
  {
  }

  /** The two date header forms agree: a Korean header for year y, month m and day d and
      an English header naming the same date leave the same context. */
  lemma {:induction false} DateHeaderFormsAgree(y: nat, m: nat, d: nat, weekday: string, ctx: Ctx)
    requires 1 <= m <= 12
    ensures DateStep([NatToString(y), NatToString(m), NatToString(d), weekday], ctx)
         == DateEngStep([MonthNames[m - 1], NatToString(d), NatToString(y)], ctx)
    ensures DateStep([NatToString(y), NatToString(m), NatToString(d), weekday], ctx)
         == Ok(Emitted(ctx.(year := y, month := m, day := d), []))
  {
    ToIntNatToString(y);
    ToIntNatToString(m);
    ToIntNatToString(d);
    MonthNumberOfName(m);
  }

  /** An invite notice leaves the context alone. When the invited capture has a comma it
      adds one Enter record per comma-separated piece, in order, all with the current
      counter, each named by the piece with the honorific stripped as the parser does it
      (which can leave the honorific in place, see `HonorificKeptAsWritten`); otherwise
      one Enter record named by the capture as it is. A missing capture throws. */
  lemma InviteNotice(l: ScannedLine, index: int, ctx: Ctx, last: Option<TalkState>)
    requires Classify(l) == InviteLine
    ensures var pp := Captures(l.invite);
            var r := Step(l, index, ctx, last);
            && (r.Ok? <==> |pp| >= 2)
            && (r.Err? ==> r.error == MissingCapture)
            && (r.Ok? ==> r.value.ctx == ctx)
            && (r.Ok? && ',' in pp[1] ==>
                  var pieces := Split(pp[1], ',');
                  && |r.value.talks| == |pieces|
                  && forall k :: 0 <= k < |pieces| ==>
                       && r.value.talks[k] == NoticeTalk(Enter, index, StripHonorificAsWritten(pieces[k]))
                       && ',' !in r.value.talks[k].name.value
                       && IsTrimmed(r.value.talks[k].name.value))
            && (r.Ok? && ',' !in pp[1] ==> r.value.talks == [NoticeTalk(Enter, index, pp[1])])
  {
    var pp := Captures(l.invite);
    if |pp| >= 2 && ',' in pp[1] {
      var pieces := Split(pp[1], ',');
      var talks := EnterAll(pieces, index);
      forall k | 0 <= k < |pieces|
        ensures ',' !in talks[k].name.value
      {
        assert ',' !in pieces[k];
      }
    }
  }

  /** The other notices leave the context alone and add one record named by the first
      capture: join gives Enter, leave and ban give Leave, both share forms give Share.
      A missing capture throws. */
  lemma SingleNameNotice(l: ScannedLine, index: int, ctx: Ctx, last: Option<TalkState>)
    requires Classify(l) in {JoinLine, LeaveLine, BanLine, ShareLine, SharedLine}
    ensures var s := Classify(l);
            var pp := Captures(NoticeMatch(l, s));
            var r := Step(l, index, ctx, last);
            var state := if s == JoinLine then Enter else if s in {LeaveLine, BanLine} then Leave else Share;
            && (r.Ok? <==> |pp| >= 1)
            && (r.Err? ==> r.error == MissingCapture)
            && (r.Ok? ==> r.value == Emitted(ctx, [NoticeTalk(state, index, pp[0])]))
  {
  }

  /** The moderator notice adds nothing, changes nothing and does not throw. */
  lemma HiddenNotice(l: ScannedLine, index: int, ctx: Ctx, last: Option<TalkState>)
    requires Classify(l) == HiddenLine
    ensures Step(l, index, ctx, last) == Ok(Emitted(ctx, []))
  {
  }

  /** A line of no known shape continues the last record when that is a Message or an
      Append: one Append record holding the raw line, the running speaker and the latest
      time. After any other record, or before any record, it throws. */
  lemma Continuation(l: ScannedLine, index: int, ctx: Ctx, last: Option<TalkState>)
    requires Classify(l) == OtherLine
    ensures var r := Step(l, index, ctx, last);
            && (r.Ok? <==> Extendable(last))
            && (r.Ok? ==> r.value == Emitted(ctx, [Talk(Append, index, ctx.latest, Some(ctx.name), Text(l.text))]))
            && (r.Err? ==> r.error == if last == None then NoPreviousTalk else NotAContinuation)
  {
  }

  /** What a record of a line of shape `s` looks like, `next` being the context the line
      leaves: it carries the line's counter and is not an Error; it is a Message exactly
      for a message header, and then its time is valid, and an Append exactly for a line
      of no known shape; either kind carries the speaker and the latest time of `next`;
      the notice records carry no time and no content. */
  predicate TalkFramed(t: Talk, index: int, s: Shape, next: Ctx) {
    && t.index == index && t.state != Error
    && (t.state == Message <==> s == MessageLine)
    && (t.state == Append <==> s == OtherLine)
    && (t.state == Message ==> IsValid(t.time))
    && (t.state in {Message, Append} ==> t.name == Some(next.name) && t.time == next.latest)
    && (t.state !in {Message, Append} ==> t.time == MinValue && t.content == Absent)
  }

  predicate RecordsFramed(talks: seq<Talk>, index: int, s: Shape, next: Ctx) {
    && (s in {MessageLine, OtherLine} ==> |talks| == 1)
    && forall k :: 0 <= k < |talks| ==> TalkFramed(talks[k], index, s, next)
  }

  /** Only a date header changes the running date; only a message header changes the
      running speaker and latest time. */
  predicate CtxFramed(next: Ctx, ctx: Ctx, s: Shape) {
    && (s !in {DateLine, DateEngLine} ==>
          next.year == ctx.year && next.month == ctx.month && next.day == ctx.day)
    && (s != MessageLine ==> next.name == ctx.name && next.latest == ctx.latest)
  }

  /** What a line of shape `s` may touch when it does not throw. */
  predicate Framed(r: Result<Emitted, Failure>, index: int, ctx: Ctx, s: Shape) {
    r.Ok? ==> RecordsFramed(r.value.talks, index, s, r.value.ctx) && CtxFramed(r.value.ctx, ctx, s)
  }

  lemma MessageFramed(l: ScannedLine, index: int, ctx: Ctx, last: Option<TalkState>)
    requires Classify(l) == MessageLine
    ensures Framed(Step(l, index, ctx, last), index, ctx, MessageLine)
  {
    MessageStepFramed(Captures(l.message), index, ctx);
  }

  lemma MessageStepFramed(tt: seq<string>, index: int, ctx: Ctx)
    ensures Framed(MessageStep(tt, index, ctx), index, ctx, MessageLine)
  {
    if NatAt(tt, 2).Ok? && NatAt(tt, 3).Ok? {
      var h := Hour24(tt[1], NatAt(tt, 2).value);
      var d := NewDateTime(ctx.year, ctx.month, ctx.day, h, NatAt(tt, 3).value, 0);
      if d.Some? && |tt| >= 5 {
        var next := ctx.(name := tt[0], latest := d.value);
        var t := Talk(Message, index, d.value, Some(tt[0]), Text(Trim(tt[4])));
        assert MessageStep(tt, index, ctx) == Ok(Emitted(next, [t]));
        assert TalkFramed(t, index, MessageLine, next);
        assert RecordsFramed([t], index, MessageLine, next);
        assert CtxFramed(next, ctx, MessageLine);
      }
    }
  }

  lemma DateFramed(l: ScannedLine, index: int, ctx: Ctx, last: Option<TalkState>)
    requires Classify(l) in {DateLine, DateEngLine}
    ensures Framed(Step(l, index, ctx, last), index, ctx, Classify(l))
  {
    if Classify(l) == DateLine {
      KoreanDateHeader(l, index, ctx, last);
    } else {
      EnglishDateHeader(l, index, ctx, last);
    }
  }

  lemma InviteFramed(l: ScannedLine, index: int, ctx: Ctx, last: Option<TalkState>)
    requires Classify(l) == InviteLine
    ensures Framed(Step(l, index, ctx, last), index, ctx, InviteLine)
  {
    InviteNotice(l, index, ctx, last);
  }

  lemma NoticeFramed(l: ScannedLine, index: int, ctx: Ctx, last: Option<TalkState>)
    requires Classify(l) in {JoinLine, LeaveLine, BanLine, ShareLine, SharedLine, HiddenLine}
    ensures Framed(Step(l, index, ctx, last), index, ctx, Classify(l))
  {
    if Classify(l) != HiddenLine {
      SingleNameNotice(l, index, ctx, last);
    }
  }

  lemma ContinuationFramed(l: ScannedLine, index: int, ctx: Ctx, last: Option<TalkState>)
    requires Classify(l) == OtherLine
    ensures Framed(Step(l, index, ctx, last), index, ctx, OtherLine)
  {
    Continuation(l, index, ctx, last);
  }

  /** What any line may touch: the records it adds and the context it leaves are framed
      by its shape. */
  lemma StepFrame(l: ScannedLine, index: int, ctx: Ctx, last: Option<TalkState>)
    ensures Framed(Step(l, index, ctx, last), index, ctx, Classify(l))
  {
    match Classify(l)
    case MessageLine => MessageFramed(l, index, ctx, last);
    case DateLine => DateFramed(l, index, ctx, last);
    case DateEngLine => DateFramed(l, index, ctx, last);
    case InviteLine => InviteFramed(l, index, ctx, last);
    case OtherLine => ContinuationFramed(l, index, ctx, last);
    case _ => NoticeFramed(l, index, ctx, last);
  }

  /** Only an Append reads the latest time: for every other line, changing the latest time
      in the context changes nothing in the outcome but the latest time itself, and a
      message header overwrites it. */
  lemma {:induction false} StepIgnoresClock(l: ScannedLine, index: int, ctx: Ctx, last: Option<TalkState>, t: DateTime)
    requires Classify(l) != OtherLine
    ensures var r1 := Step(l, index, ctx, last);
            var r2 := Step(l, index, ctx.(latest := t), last);
            && r1.Err? == r2.Err?
            && (r1.Err? ==> r1.error == r2.error)
            && (r1.Ok? ==> r1.value.talks == r2.value.talks
                           && r2.value.ctx == if Classify(l) == MessageLine then r1.value.ctx
                                              else r1.value.ctx.(latest := t))
  {
    var c2 := ctx.(latest := t);
    match Classify(l)
    case MessageLine =>
      MessageHeader(l, index, ctx, last);
      MessageHeader(l, index, c2, last);
      var tt := Captures(l.message);
      if WellFormedHeader(tt) {
        assert HeaderTime(tt, ctx) == HeaderTime(tt, c2);
      }
    case DateLine =>
      KoreanDateHeader(l, index, ctx, last);
      KoreanDateHeader(l, index, c2, last);
    case DateEngLine =>
      EnglishDateHeader(l, index, ctx, last);
      EnglishDateHeader(l, index, c2, last);
    case InviteLine =>
    case HiddenLine =>
    case _ =>
      SingleNameNotice(l, index, ctx, last);
      SingleNameNotice(l, index, c2, last);
  }

  /** A piece with white space after its honorific keeps the honorific as written: for
      the name "Alice", the piece "Alice님 " gives "Alice님", where the stripped name is
      "Alice". */
  lemma HonorificKeptAsWritten(name: string)
    requires name != [] && IsTrimmed(name)
    ensures StripHonorificAsWritten(name + [Honorific, ' ']) == name + [Honorific]
    ensures StripHonorific(name + [Honorific, ' ']) == name
  {
    var x := name + [Honorific, ' '];
    var kept := name + [Honorific];
    assert x == kept + [' '];
    TrimOfTrailingSpace(kept, ' ');
    assert x[..|x| - 1] == kept;
    TrimOfTrimmed(kept);
    assert kept[..|kept| - 1] == name;
    TrimOfTrimmed(name);
  }

  /** For a piece that does not end in white space the two agree. */
  lemma {:induction false} StripAgreesWithoutTrailingSpace(x: string)
    requires x == [] || !IsWhiteSpace(x[|x| - 1])
    ensures StripHonorificAsWritten(x) == StripHonorific(x)
  {
    if x != [] {
      var t := TrimStart(x);
      TrimStartSpec(x);
      var a := |x| - |t|;
      TrimOfNonSpaceEnd(x);
      TrimStartKeepsLast(x);
      if EndsWith(t, Honorific) {
        DropLastOfSuffix(x, a);
        TrimSkipsSpace(x[..a], x[a..|x| - 1]);
      }
    }
  }
}
