/**
 * What one allocation's stream consumer does with the events of its two log
 * streams (main.go, watcher.watchAllocationLogs), as a function of the
 * order in which the `select` receives them.
 */
module Consumer {
  import opened Strings
  import opened Sequences

  /**
   * An event the `select` loop can receive: a frame of bytes on stdout or
   * stderr, a closed frames channel, or an error on one of the error channels.
   */
  datatype Event =
    | StdoutFrame(data: string)
    | StderrFrame(data: string)
    | StdoutClosed
    | StderrClosed
    | StdoutError(message: string)
    | StderrError(message: string)

  /** The events after which the consumer returns. */
  predicate Terminal(e: Event)
  {
    !e.StdoutFrame? && !e.StderrFrame?
  }

  predicate IsError(e: Event)
  {
    e.StdoutError? || e.StderrError?
  }

  const STDOUT_CLOSED: string := "stdoutFrames closed!"
  const STDERR_CLOSED: string := "stderrFrames closed!"
  /** The error text of a task that has already exited; such an error ends the consumer silently. */
  const UNKNOWN_TASK: string := "unknown task name"

  function ErrorLog(job: string, message: string): string
  {
    job + ": got error (allocation probably shutting down): " + message
  }

  /** The lines of one frame: its pieces between newlines, without the empty ones. */
  function LinesOf(data: string): seq<string>
  {
    DropEmpty(Split(data, '\n'))
  }

  /**
   * The outcome of running the consumer on a sequence of events: the lines it
   * pushes, the lines it logs, and whether it returned (a stream that never
   * ends leaves it blocked in `select`).
   */
  datatype Run = Run(emitted: seq<string>, logged: seq<string>, returned: bool)

  /** What the consumer does on a terminal event before it returns. */
  function Final(job: string, e: Event): Run
    requires Terminal(e)
  {
    match e
    case StdoutClosed => Run([STDOUT_CLOSED], [], true)
    case StderrClosed => Run([STDERR_CLOSED], [], true)
    case StdoutError(message) =>
      Run([], if Contains(message, UNKNOWN_TASK) then [] else [ErrorLog(job, message)], true)
    case StderrError(message) =>
      Run([], if Contains(message, UNKNOWN_TASK) then [] else [ErrorLog(job, message)], true)
  }

  function Consume(job: string, events: seq<Event>): Run
  {
    if events == [] then Run([], [], false)
    else if Terminal(events[0]) then Final(job, events[0])
    else
      var rest := Consume(job, events[1..]);
      Run(LinesOf(events[0].data) + rest.emitted, rest.logged, rest.returned)
  }

  /** A frame first: its lines come before whatever the rest of the events produce. */
  lemma ConsumeFrame(job: string, events: seq<Event>)
    requires events != [] && !Terminal(events[0])
    ensures var rest := Consume(job, events[1..]);
      Consume(job, events) == Run(LinesOf(events[0].data) + rest.emitted, rest.logged, rest.returned)
  {
  }

  /** A terminal event first: the consumer returns with what that event alone produces. */
  lemma ConsumeTerminal(job: string, events: seq<Event>)
    requires events != [] && Terminal(events[0])
    ensures Consume(job, events) == Final(job, events[0]) && Consume(job, events).returned
  {
  }

  /** Reference definition: the lines of all frames, in order, with no notion of stopping. */
  function FrameLines(events: seq<Event>): seq<string>
  {
    if events == [] then []
    else (if Terminal(events[0]) then [] else LinesOf(events[0].data)) + FrameLines(events[1..])
  }

  lemma {:induction false} FrameLinesAppend(a: seq<Event>, b: seq<Event>)
    ensures FrameLines(a + b) == FrameLines(a) + FrameLines(b)
  {
    if a != [] {
      assert (a + b)[0] == a[0] && (a + b)[1..] == a[1..] + b;
      FrameLinesAppend(a[1..], b);
    } else {
      assert a + b == b;
    }
  }

  /** The frame lines of one more event. */
  lemma FrameLinesSnoc(events: seq<Event>, i: int)
    requires 0 <= i < |events|
    ensures FrameLines(events[..i + 1])
      == FrameLines(events[..i]) + (if Terminal(events[i]) then [] else LinesOf(events[i].data))
  {
    assert events[..i + 1] == events[..i] + [events[i]];
    FrameLinesAppend(events[..i], [events[i]]);
  }

  /** Before the first terminal event the consumer only pushes frame lines, then continues with the rest. */
  lemma {:induction false} ConsumeSplit(job: string, events: seq<Event>, i: int)
    requires 0 <= i <= |events|
    requires forall j :: 0 <= j < i ==> !Terminal(events[j])
    ensures var rest := Consume(job, events[i..]);
      Consume(job, events) == Run(FrameLines(events[..i]) + rest.emitted, rest.logged, rest.returned)
    decreases i
  {
    if i > 0 {
      var tail := events[1..];
      forall j | 0 <= j < i - 1 ensures !Terminal(tail[j]) {
        assert tail[j] == events[j + 1];
      }
      ConsumeSplit(job, tail, i - 1);
      ConsumeFrame(job, events);
      assert tail[i - 1..] == events[i..];
      assert events[..i][0] == events[0] && events[..i][1..] == tail[..i - 1];
      assert FrameLines(events[..i]) == LinesOf(events[0].data) + FrameLines(tail[..i - 1]);
      ConcatAssoc(LinesOf(events[0].data), FrameLines(tail[..i - 1]), Consume(job, events[i..]).emitted);
    } else {
      assert events[..0] == [] && events[0..] == events;
    }
  }

  /** `k` is the position of the first terminal event. */
  predicate FirstTerminal(events: seq<Event>, k: int)
  {
    0 <= k < |events| && Terminal(events[k]) && forall j :: 0 <= j < k ==> !Terminal(events[j])
  }

  /**
   * Up to the first terminal event the consumer pushes the lines of the
   * frames; a close then pushes exactly one sentinel line, an error pushes
   * nothing and is logged iff its text does not contain "unknown task name";
   * either way the consumer returns and nothing after that event matters.
   */
  lemma {:induction false} ConsumeUntilTerminal(job: string, events: seq<Event>, k: int)
    requires FirstTerminal(events, k)
    ensures var r := Consume(job, events);
      && r.returned
      && r == Consume(job, events[..k + 1])
      && (events[k].StdoutClosed? ==> r.emitted == FrameLines(events[..k]) + [STDOUT_CLOSED] && r.logged == [])
      && (events[k].StderrClosed? ==> r.emitted == FrameLines(events[..k]) + [STDERR_CLOSED] && r.logged == [])
      && (IsError(events[k]) ==>
            && r.emitted == FrameLines(events[..k])
            && (r.logged != [] <==> !Contains(events[k].message, UNKNOWN_TASK))
            && (r.logged != [] ==> r.logged == [ErrorLog(job, events[k].message)]))
    decreases k
  {
    if k > 0 {
      var tail := events[1..];
      assert FirstTerminal(tail, k - 1) by {
        forall j | 0 <= j < k - 1 ensures !Terminal(tail[j]) {
          assert tail[j] == events[j + 1];
        }
      }
      ConsumeUntilTerminal(job, tail, k - 1);
      assert events[..k + 1][1..] == tail[..k];
      assert events[..k][1..] == tail[..k - 1];
      assert !Terminal(events[0]);
    }
  }

  /** Without a terminal event the consumer pushes the lines of every frame, logs nothing and has not returned. */
  lemma {:induction false} ConsumeWithoutTerminal(job: string, events: seq<Event>)
    requires forall j :: 0 <= j < |events| ==> !Terminal(events[j])
    ensures Consume(job, events) == Run(FrameLines(events), [], false)
  {
    if events != [] {
      assert forall j :: 0 <= j < |events[1..]| ==> events[1..][j] == events[j + 1];
      ConsumeWithoutTerminal(job, events[1..]);
    }
  }

  /** Lines as the output buffer receives them: non-empty, without a newline. */
  predicate WellFormedLines(lines: seq<string>)
  {
    forall i :: 0 <= i < |lines| ==> lines[i] != "" && '\n' !in lines[i]
  }

  /** Every line of a frame is non-empty and holds no newline. */
  lemma LinesOfWellFormed(data: string)
    ensures WellFormedLines(LinesOf(data))
  {
    var pieces := Split(data, '\n');
    forall i | 0 <= i < |LinesOf(data)| ensures '\n' !in LinesOf(data)[i] {
      var j :| 0 <= j < |pieces| && pieces[j] == LinesOf(data)[i];
    }
  }

  /** Every pushed line, sentinels included, is non-empty and holds no newline. */
  lemma {:induction false} EmittedWellFormed(job: string, events: seq<Event>)
    ensures WellFormedLines(Consume(job, events).emitted)
  {
    if events != [] && !Terminal(events[0]) {
      EmittedWellFormed(job, events[1..]);
      LinesOfWellFormed(events[0].data);
      var lines := LinesOf(events[0].data);
      var rest := Consume(job, events[1..]).emitted;
      assert Consume(job, events).emitted == lines + rest;
      forall i | 0 <= i < |lines + rest|
        ensures (lines + rest)[i] != "" && '\n' !in (lines + rest)[i]
      {
        if i >= |lines| {
          assert (lines + rest)[i] == rest[i - |lines|];
        } else {
          assert (lines + rest)[i] == lines[i];
        }
      }
    }
  }

  /** Two frames cut at a newline yield the same lines as the whole. */
  lemma LinesOfAppend(a: string, b: string)
    ensures LinesOf(a + "\n" + b) == LinesOf(a) + LinesOf(b)
  {
    SplitAppend(a, '\n', b);
    DropEmptyAppend(Split(a, '\n'), Split(b, '\n'));
  }

  /** Non-empty, newline-free lines joined by newlines split back into the same lines. */
  lemma LinesOfJoin(lines: seq<string>)
    requires |lines| >= 1
    requires WellFormedLines(lines)
    ensures LinesOf(Join(lines, '\n')) == lines
  {
    SplitJoin(lines, '\n');
    DropEmptyKeepsNonEmpty(lines);
  }
}
