/** What the parser gets from its regular expressions. Pattern matching itself is not
    modelled: each line comes with the outcome of every pattern on it. */
module Matching {

  /** A Match: NoMatch, or the whole matched text and the values of the numbered groups. */
  datatype Match = NoMatch | Matched(value: string, captures: seq<string>)

  /** match.Groups: group 0 and then the numbered groups. A failed match has group 0 only. */
  function Groups(m: Match): (g: seq<string>)
    ensures |g| > 0
  {
    match m
    case NoMatch => [""]
    case Matched(v, c) => [v] + c
  }

  /** The `reg` helper: the values of groups 1.. of the match, collected by an index loop. */
  method Reg(m: Match) returns (result: seq<string>)
    ensures m.NoMatch? ==> result == []
    ensures m.Matched? ==> result == m.captures
  {
    var groups := Groups(m);
    result := [];
    var i := 1;
    while i < |groups|
      invariant 1 <= i <= |groups|
      invariant result == groups[1..i]
    {
      result := result + [groups[i]];
      i := i + 1;
    }
  }

  /** The value `reg` computes, for use in specifications. */
  function Captures(m: Match): seq<string> {
    match m
    case NoMatch => []
    case Matched(_, c) => c
  }

  /** One transcript line with the outcome of each of the parser's nine patterns on it:
      the message header (bracketed name, then bracketed marker, hour and minute, then the
      body), the Korean date header (year, month, day, optional weekday), the English date
      header (month name, day, year) and the six notices (for an invite, the inviter and
      the invited; for the others, the one name before the notice phrase). */
  datatype ScannedLine = ScannedLine(
    text: string,
    message: Match, date: Match, dateEng: Match,
    invite: Match, join: Match, leave: Match, ban: Match, share: Match, shared: Match)
}
