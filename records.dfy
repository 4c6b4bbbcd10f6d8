/** The records the parser produces: TalkState and Talk. */
module Records {
  import opened Wrappers
  import opened Clock

  /** TalkState, in the order of its numeric values 0..5. */
  datatype TalkState = Message | Append | Enter | Leave | Error | Share

  /** Why a line made the pass throw. The exception text itself is not modelled. */
  datatype Failure =
    | MissingCapture     // a capture index past the end of reg's list (ArgumentOutOfRangeException)
    | NotANumber         // a numeric capture the integer parse rejects (FormatException)
    | InvalidDateTime    // a date or time the DateTime constructor rejects
    | UnknownMonth       // a month name outside month_eng (KeyNotFoundException)
    | NoPreviousTalk     // Talks.Last() on an empty list (InvalidOperationException)
    | NotAContinuation   // the explicit throw for an unclassified line after a non-message record

  /** The Content property: null, a text, or the message of the exception of an Error record. */
  datatype Content = Absent | Text(text: string) | Diagnostic(cause: Failure)

  /** A Talk. `name` None is a null Name; `time` is MinValue where the source leaves it unset. */
  datatype Talk = Talk(state: TalkState, index: int, time: DateTime, name: Option<string>, content: Content)

  /** The Error record the catch block appends. */
  function ErrorTalk(index: int, cause: Failure): Talk {
    Talk(Error, index, MinValue, None, Diagnostic(cause))
  }

  /** A membership or sharing record: only state, index and name are set. */
  function NoticeTalk(state: TalkState, index: int, name: string): Talk {
    Talk(state, index, MinValue, Some(name), Absent)
  }

  /** The State of the last record, None for an empty list. */
  function LastState(talks: seq<Talk>): Option<TalkState> {
    if talks == [] then None else Some(talks[|talks| - 1].state)
  }

  /** A line that matches no shape may extend the last record only if it is a Message or an Append. */
  predicate Extendable(last: Option<TalkState>) {
    last == Some(Message) || last == Some(Append)
  }

  predicate NoError(talks: seq<Talk>) {
    forall k :: 0 <= k < |talks| ==> talks[k].state != Error
  }
}
