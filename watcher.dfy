/**
 * The watcher of one target (main.go, type watcher): its watched set, the
 * output buffer its consumers push into, and what it logs. One call of Poll
 * is one tick of the discovery loop; RunConsumer is the body of the
 * goroutine a poll spawns, run to the point where its streams stop.
 */
module Watch {
  import opened Wrappers
  import opened Strings
  import opened Nomad
  import opened Discovery
  import opened Consumer
  import opened Sequences

  /** A line pushed into the output buffer, with the watcher's job filter and the allocation it came from. */
  datatype LogLine = LogLine(job: string, allocation: Allocation, line: string)

  /** The texts as lines of one allocation's consumer. */
  function Tag(job: string, alloc: Allocation, texts: seq<string>): seq<LogLine>
  {
    seq(|texts|, i requires 0 <= i < |texts| => LogLine(job, alloc, texts[i]))
  }

  lemma TagAppend(job: string, alloc: Allocation, a: seq<string>, b: seq<string>)
    ensures Tag(job, alloc, a + b) == Tag(job, alloc, a) + Tag(job, alloc, b)
  {
    assert forall i :: 0 <= i < |a| + |b| ==> Tag(job, alloc, a + b)[i] == (Tag(job, alloc, a) + Tag(job, alloc, b))[i];
  }

  /** The tagged frame lines grow by the lines of one more frame. */
  lemma TagFrameStep(job: string, alloc: Allocation, events: seq<Event>, i: int)
    requires 0 <= i < |events| && !Terminal(events[i])
    ensures Tag(job, alloc, FrameLines(events[..i + 1]))
      == Tag(job, alloc, FrameLines(events[..i])) + Tag(job, alloc, LinesOf(events[i].data))
  {
    FrameLinesSnoc(events, i);
    TagAppend(job, alloc, FrameLines(events[..i]), LinesOf(events[i].data));
  }

  class Watcher {
    const job: string
    const task: string
    /** The IDs of the allocations whose consumer is streaming. */
    var allocationsWatched: set<string>
    /** The output channel, as the sequence of everything pushed into it. */
    var lines: seq<LogLine>
    /** What the watcher has written with `log.Printf`. */
    var log: seq<string>

    constructor (job: string, task: string)
      ensures this.job == job && this.task == task
      ensures allocationsWatched == {} && lines == [] && log == []
    {
      this.job := job;
      this.task := task;
      allocationsWatched := {};
      lines := [];
      log := [];
    }

    /**
     * One tick of the discovery loop. A failed list call is logged and
     * changes nothing else. Otherwise each allocation that passes the four
     * tests has its detail fetched; a failed fetch is logged and skipped, a
     * successful one adds the ID to the watched set and starts a consumer
     * (returned in `started`, in list order).
     */
    method Poll(listing: Result<seq<Allocation>, string>, info: InfoLookup) returns (started: seq<Allocation>)
      modifies this
      ensures lines == old(lines)
      ensures listing.Err? ==>
        && started == []
        && allocationsWatched == old(allocationsWatched)
        && log == old(log) + [ListErrorLog(listing.error)]
      ensures listing.Ok? ==>
        var r := Discover(job, task, old(allocationsWatched), listing.value, info);
        && started == r.started
        && allocationsWatched == old(allocationsWatched) + Ids(r.started)
        && log == old(log) + r.logged
    {
      if listing.Err? {
        log := log + [ListErrorLog(listing.error)];
        return [];
      }
      var allocationList := listing.value;
      started := [];
      ghost var logged: seq<string> := [];
      ghost var watchedBefore := allocationsWatched;
      ghost var whole := Discover(job, task, allocationsWatched, allocationList, info);
      for i := 0 to |allocationList|
        invariant whole.started == started + Discover(job, task, allocationsWatched, allocationList[i..], info).started
        invariant whole.logged == logged + Discover(job, task, allocationsWatched, allocationList[i..], info).logged
        invariant allocationsWatched == watchedBefore + Ids(started)
        invariant log == old(log) + logged
        invariant lines == old(lines)
      {
        var alloc := allocationList[i];
        ghost var now := allocationList[i..];
        assert now[0] == alloc && now[1..] == allocationList[i + 1..];
        // the four tests of main.go:223-234, each a `continue`
        if !Selected(job, task, allocationsWatched, alloc) {
          DiscoverSkip(job, task, allocationsWatched, now, info);
          continue;
        }
        var allocation := info(alloc.id);
        if allocation.None? {
          DiscoverInfoFailed(job, task, allocationsWatched, now, info);
          ConcatAssoc(logged, [InfoErrorLog(alloc.id)], Discover(job, task, allocationsWatched, allocationList[i + 1..], info).logged);
          log := log + [InfoErrorLog(alloc.id)];
          logged := logged + [InfoErrorLog(alloc.id)];
          continue;
        }
        DiscoverStart(job, task, allocationsWatched, now, info);
        ConcatAssoc(started, [allocation.value],
          Discover(job, task, allocationsWatched + {allocation.value.id}, allocationList[i + 1..], info).started);
        allocationsWatched := allocationsWatched + {allocation.value.id};
        IdsAppend(started, [allocation.value]);
        assert Ids([allocation.value]) == {allocation.value.id} by {
          assert [allocation.value][0] == allocation.value;
        }
        started := started + [allocation.value];
      }
      assert allocationList[|allocationList|..] == [];
    }

    /** Pushes the non-empty pieces of a frame, split on newlines, in order. */
    method PushFrame(alloc: Allocation, data: string)
      modifies this`lines
      ensures lines == old(lines) + Tag(job, alloc, LinesOf(data))
    {
      var pieces := Split(data, '\n');
      for k := 0 to |pieces|
        invariant lines == old(lines) + Tag(job, alloc, DropEmpty(pieces[..k]))
      {
        assert pieces[..k + 1] == pieces[..k] + [pieces[k]];
        DropEmptyAppend(pieces[..k], [pieces[k]]);
        TagAppend(job, alloc, DropEmpty(pieces[..k]), DropEmpty([pieces[k]]));
        if pieces[k] == "" {
          continue;
        }
        lines := lines + [LogLine(job, alloc, pieces[k])];
      }
      assert pieces[..|pieces|] == pieces;
    }

    /**
     * The `for { select }` loop over the events as received. It returns
     * `true` when a terminal event made it return, `false` when the events
     * ran out with both streams still open.
     */
    method WatchAllocationLogs(alloc: Allocation, events: seq<Event>) returns (returned: bool)
      modifies this`lines, this`log
      ensures var r := Consume(job, events);
        && returned == r.returned
        && lines == old(lines) + Tag(job, alloc, r.emitted)
        && log == old(log) + r.logged
    {
      var i := 0;
      while i < |events|
        invariant 0 <= i <= |events|
        invariant forall j :: 0 <= j < i ==> !Terminal(events[j])
        invariant lines == old(lines) + Tag(job, alloc, FrameLines(events[..i]))
        invariant log == old(log)
        decreases |events| - i
      {
        var done := Select(alloc, events[i]);
        if done {
          ConsumeSplit(job, events, i);
          ConsumeTerminal(job, events[i..]);
          assert events[i..][0] == events[i];
          TagAppend(job, alloc, FrameLines(events[..i]), Final(job, events[i]).emitted);
          return true;
        }
        TagFrameStep(job, alloc, events, i);
        ConcatAssoc(old(lines), Tag(job, alloc, FrameLines(events[..i])), Tag(job, alloc, LinesOf(events[i].data)));
        i := i + 1;
      }
      ConsumeSplit(job, events, i);
      assert events[i..] == [];
      return false;
    }

    /**
     * One case of the `select`: a frame pushes its lines; a closed frames
     * channel pushes its sentinel line; an error is logged unless it reports
     * an unknown task. `done` says whether the loop returns.
     */
    method Select(alloc: Allocation, e: Event) returns (done: bool)
      modifies this`lines, this`log
      ensures done == Terminal(e)
      ensures done ==> lines == old(lines) + Tag(job, alloc, Final(job, e).emitted)
      ensures done ==> log == old(log) + Final(job, e).logged
      ensures !done ==> lines == old(lines) + Tag(job, alloc, LinesOf(e.data)) && log == old(log)
    {
      match e {
        case StdoutFrame(data) =>
          PushFrame(alloc, data);
          return false;
        case StderrFrame(data) =>
          PushFrame(alloc, data);
          return false;
        case StdoutClosed =>
          lines := lines + [LogLine(job, alloc, STDOUT_CLOSED)];
          return true;
        case StderrClosed =>
          lines := lines + [LogLine(job, alloc, STDERR_CLOSED)];
          return true;
        case StdoutError(message) =>
          if Contains(message, UNKNOWN_TASK) {
            return true;
          }
          log := log + [ErrorLog(job, message)];
          return true;
        case StderrError(message) =>
          if Contains(message, UNKNOWN_TASK) {
            return true;
          }
          log := log + [ErrorLog(job, message)];
          return true;
      }
    }

    /**
     * The goroutine spawned for a started allocation: its ID is already in
     * the watched set, stays there while it streams, and is removed once,
     * when the stream loop returns; no other ID changes.
     */
    method RunConsumer(alloc: Allocation, events: seq<Event>) returns (returned: bool)
      requires alloc.id in allocationsWatched
      modifies this
      ensures var r := Consume(job, events);
        && returned == r.returned
        && lines == old(lines) + Tag(job, alloc, r.emitted)
        && log == old(log) + r.logged
      ensures allocationsWatched == if returned then old(allocationsWatched) - {alloc.id} else old(allocationsWatched)
    {
      returned := WatchAllocationLogs(alloc, events);
      assert alloc.id in allocationsWatched;
      if returned {
        allocationsWatched := allocationsWatched - {alloc.id};
      }
    }
  }
}
