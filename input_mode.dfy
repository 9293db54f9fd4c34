/**
 * Line-input mode (src/input_mode.rs): read lines until one whose trimmed
 * text is `.`, or until the line reader reports an interrupt, end of input
 * or another error, and return the lines read so far.
 *
 * The interactive line reader is replaced by the sequence of results its
 * successive `readline` calls produce.  Running out of results counts as
 * end of input.
 */
module InputMode {
  import opened Text

  /** One result of `readline`. */
  datatype ReadEvent =
    | Line(text: string)  // a line was read
    | Interrupted         // CTRL-C
    | Eof                 // CTRL-D or end of input
    | Failed              // any other reader error

  /** The line that ends input mode: `.` with optional white space around it. */
  predicate IsTerminator(line: string)
  {
    Trim(line) == "."
  }

  /** What input mode returns after reading `events`. */
  function Collected(events: seq<ReadEvent>): seq<string>
  {
    if events == [] then []
    else match events[0]
      case Line(text) => if IsTerminator(text) then [] else [text] + Collected(events[1..])
      case _ => []
  }

  /** `input_mode()`. */
  method InputMode(events: seq<ReadEvent>) returns (lines: seq<string>)
    ensures lines == Collected(events)
  {
    lines := [];
    var i := 0;
    while i < |events|
      invariant 0 <= i <= |events|
      invariant Collected(events) == lines + Collected(events[i..])
    {
      match events[i] {
        case Line(text) =>
          if Trim(text) == "." {
            return;
          }
          lines := lines + [text];
        case Interrupted =>
          break;
        case Eof =>
          break;
        case Failed =>
          break;
      }
      assert events[i..][1..] == events[i + 1..];
      i := i + 1;
    }
  }

  /**
   * The result is the longest prefix of the events that are lines other than
   * the terminator, taken untrimmed and in order: the next event, if any, is
   * the terminator, an interrupt, end of input or a reader error.
   */
  lemma {:induction false} CollectedIsLeadingLines(events: seq<ReadEvent>)
    ensures var r := Collected(events);
      && |r| <= |events|
      && (forall j :: 0 <= j < |r| ==> events[j] == Line(r[j]) && !IsTerminator(r[j]))
      && (|r| < |events| ==> !events[|r|].Line? || IsTerminator(events[|r|].text))
  {
    if events != [] && events[0].Line? && !IsTerminator(events[0].text) {
      var rest := events[1..];
      CollectedIsLeadingLines(rest);
      var r := Collected(events);
      assert r == [events[0].text] + Collected(rest);
      assert forall j :: 1 <= j < |r| ==> r[j] == Collected(rest)[j - 1] && events[j] == rest[j - 1];
    }
  }

  /** No collected line is a terminator. */
  lemma CollectedHasNoTerminator(events: seq<ReadEvent>)
    ensures forall j :: 0 <= j < |Collected(events)| ==> !IsTerminator(Collected(events)[j])
  {
    CollectedIsLeadingLines(events);
  }

  /** Lines after the stopping event are never read. */
  lemma {:induction false} CollectedIgnoresLaterEvents(pre: seq<ReadEvent>, stop: ReadEvent, post: seq<ReadEvent>)
    requires !stop.Line? || IsTerminator(stop.text)
    ensures Collected(pre + [stop] + post) == Collected(pre + [stop])
  {
    if pre == [] {
      assert ([stop] + post)[0] == stop && [stop][0] == stop;
    } else {
      assert (pre + [stop] + post)[0] == pre[0] && (pre + [stop])[0] == pre[0];
      assert (pre + [stop] + post)[1..] == pre[1..] + [stop] + post;
      assert (pre + [stop])[1..] == pre[1..] + [stop];
      CollectedIgnoresLaterEvents(pre[1..], stop, post);
    }
  }

  /** Running out of events is the same as the reader reporting end of input. */
  lemma {:induction false} ExhaustedIsEof(events: seq<ReadEvent>)
    ensures Collected(events + [Eof]) == Collected(events)
  {
    if events == [] {
      assert [Eof][0] == Eof;
    } else {
      assert (events + [Eof])[0] == events[0];
      assert (events + [Eof])[1..] == events[1..] + [Eof];
      ExhaustedIsEof(events[1..]);
    }
  }

  /** The terminator is exactly a line holding one `.` and otherwise only white space. */
  lemma TerminatorIsDotLine(line: string)
    ensures IsTerminator(line) <==> exists i :: Surrounds(line, ".", i)
  {
    TrimIsSurroundedText(line, ".");
  }
}
