/**
 * One pass of the watcher's discovery loop over an allocation list
 * (main.go, watcher.poll): which allocations get a stream consumer, which
 * IDs enter the watched set, and what is logged.
 */
module Discovery {
  import opened Wrappers
  import opened Nomad

  const RUNNING: string := "running"

  /** The allocation-detail lookup `Allocations().Info`: the detail record, or None when the call fails. */
  type InfoLookup = string -> Option<Allocation>

  /** The detail lookup answers with the allocation it was asked about. */
  ghost predicate InfoKeepsId(info: InfoLookup)
  {
    forall id :: info(id).Some? ==> info(id).value.id == id
  }

  /**
   * The four tests of the poll loop: not already watched, has a state for
   * the watcher's task, belongs to the watcher's job (or the watcher takes
   * any job), and is running on its client.
   */
  predicate Selected(job: string, task: string, watched: set<string>, alloc: Allocation)
  {
    && alloc.id !in watched
    && task in alloc.taskStates
    && (job == "" || job == alloc.jobId)
    && alloc.clientStatus == RUNNING
  }

  function ListErrorLog(err: string): string
  {
    "could not list nomad allocations. waiting 5s before trying again: " + err
  }

  function InfoErrorLog(id: string): string
  {
    "could not retrieve allocation " + id + "\n"
  }

  /** The consumers a poll starts (their detail records, in list order) and the lines it logs. */
  datatype PollOutcome = PollOutcome(started: seq<Allocation>, logged: seq<string>)

  function Ids(allocs: seq<Allocation>): set<string>
  {
    set i | 0 <= i < |allocs| :: allocs[i].id
  }

  predicate DistinctIds(allocs: seq<Allocation>)
  {
    forall i, j :: 0 <= i < j < |allocs| ==> allocs[i].id != allocs[j].id
  }

  lemma IdsAppend(a: seq<Allocation>, b: seq<Allocation>)
    ensures Ids(a + b) == Ids(a) + Ids(b)
  {
    forall id | id in Ids(a + b) ensures id in Ids(a) + Ids(b) {
      var i :| 0 <= i < |a + b| && (a + b)[i].id == id;
      if i >= |a| {
        assert b[i - |a|].id == id;
      }
    }
    forall id | id in Ids(a) + Ids(b) ensures id in Ids(a + b) {
      if id in Ids(a) {
        var i :| 0 <= i < |a| && a[i].id == id;
        assert (a + b)[i].id == id;
      } else {
        var i :| 0 <= i < |b| && b[i].id == id;
        assert (a + b)[|a| + i].id == id;
      }
    }
  }

  /**
   * The poll loop over `list` under the intended sequential semantics: an ID
   * joins the watched set as soon as its detail lookup succeeds, before the
   * next entry of the list is examined. A failed lookup is logged and the
   * allocation is skipped without joining the set.
   */
  function Discover(job: string, task: string, watched: set<string>, list: seq<Allocation>, info: InfoLookup)
    : PollOutcome
    decreases |list|
  {
    if list == [] then PollOutcome([], [])
    else
      var alloc := list[0];
      if !Selected(job, task, watched, alloc) then Discover(job, task, watched, list[1..], info)
      else match info(alloc.id)
        case None =>
          var rest := Discover(job, task, watched, list[1..], info);
          PollOutcome(rest.started, [InfoErrorLog(alloc.id)] + rest.logged)
        case Some(detail) =>
          var rest := Discover(job, task, watched + {detail.id}, list[1..], info);
          PollOutcome([detail] + rest.started, rest.logged)
  }

  /** The first entry of the list, when it fails a test, is skipped without a log line. */
  lemma DiscoverSkip(job: string, task: string, watched: set<string>, list: seq<Allocation>, info: InfoLookup)
    requires list != [] && !Selected(job, task, watched, list[0])
    ensures Discover(job, task, watched, list, info) == Discover(job, task, watched, list[1..], info)
  {
  }

  /** The first entry of the list, when its detail lookup fails, is logged and skipped. */
  lemma DiscoverInfoFailed(job: string, task: string, watched: set<string>, list: seq<Allocation>, info: InfoLookup)
    requires list != [] && Selected(job, task, watched, list[0]) && info(list[0].id).None?
    ensures var rest := Discover(job, task, watched, list[1..], info);
      Discover(job, task, watched, list, info) == PollOutcome(rest.started, [InfoErrorLog(list[0].id)] + rest.logged)
  {
  }

  /** The first entry of the list, when its detail lookup succeeds, starts a consumer before the rest is examined. */
  lemma DiscoverStart(job: string, task: string, watched: set<string>, list: seq<Allocation>, info: InfoLookup)
    requires list != [] && Selected(job, task, watched, list[0]) && info(list[0].id).Some?
    ensures var detail := info(list[0].id).value;
      var rest := Discover(job, task, watched + {detail.id}, list[1..], info);
      Discover(job, task, watched, list, info) == PollOutcome([detail] + rest.started, rest.logged)
  {
  }

  /** Every consumer a poll starts is for the detail record of a listed allocation that passed the tests. */
  lemma {:induction false} StartedAreSelected(job: string, task: string, watched: set<string>, list: seq<Allocation>, info: InfoLookup)
    ensures forall d :: d in Discover(job, task, watched, list, info).started ==>
      exists a :: a in list && Selected(job, task, watched, a) && info(a.id) == Some(d)
    decreases |list|
  {
    if list != [] {
      var alloc := list[0];
      assert forall a :: a in list[1..] ==> a in list;
      if !Selected(job, task, watched, alloc) || info(alloc.id).None? {
        StartedAreSelected(job, task, watched, list[1..], info);
      } else {
        var detail := info(alloc.id).value;
        StartedAreSelected(job, task, watched + {detail.id}, list[1..], info);
      }
    }
  }

  /** A poll never starts a consumer for a watched ID, nor two consumers for one ID. */
  lemma {:induction false} NoDoubleStart(job: string, task: string, watched: set<string>, list: seq<Allocation>, info: InfoLookup)
    requires InfoKeepsId(info)
    ensures var r := Discover(job, task, watched, list, info);
      Ids(r.started) !! watched && DistinctIds(r.started)
    decreases |list|
  {
    if list != [] {
      var alloc := list[0];
      if !Selected(job, task, watched, alloc) || info(alloc.id).None? {
        NoDoubleStart(job, task, watched, list[1..], info);
      } else {
        var detail := info(alloc.id).value;
        var rest := Discover(job, task, watched + {detail.id}, list[1..], info);
        NoDoubleStart(job, task, watched + {detail.id}, list[1..], info);
        IdsAppend([detail], rest.started);
        assert Discover(job, task, watched, list, info).started == [detail] + rest.started;
      }
    }
  }

  /**
   * For a list whose IDs are distinct (as Nomad's are), an allocation gets a
   * consumer iff it passes the four tests and its detail lookup succeeds;
   * no other ID gets one.
   */
  lemma {:induction false} StartedIff(job: string, task: string, watched: set<string>, list: seq<Allocation>, info: InfoLookup)
    requires InfoKeepsId(info) && DistinctIds(list)
    ensures var r := Discover(job, task, watched, list, info);
      && Ids(r.started) <= Ids(list)
      && forall a :: a in list ==> (a.id in Ids(r.started) <==> Selected(job, task, watched, a) && info(a.id).Some?)
    decreases |list|
  {
    if list != [] {
      var alloc := list[0];
      var tail := list[1..];
      assert DistinctIds(tail) by {
        forall i, j | 0 <= i < j < |tail| ensures tail[i].id != tail[j].id {
          assert tail[i] == list[i + 1] && tail[j] == list[j + 1];
        }
      }
      assert alloc.id !in Ids(tail) by {
        forall i | 0 <= i < |tail| ensures tail[i].id != alloc.id {
          assert tail[i] == list[i + 1];
        }
      }
      assert Ids(list) == {alloc.id} + Ids(tail) by {
        IdsAppend([alloc], tail);
        assert list == [alloc] + tail;
      }
      forall a | a in tail ensures a.id != alloc.id {
        var i :| 0 <= i < |tail| && tail[i] == a;
        assert list[i + 1] == a;
      }
      assert forall a :: a in list ==> a == alloc || a in tail by {
        assert list == [alloc] + tail;
      }
      if !Selected(job, task, watched, alloc) || info(alloc.id).None? {
        StartedIff(job, task, watched, tail, info);
      } else {
        var detail := info(alloc.id).value;
        var rest := Discover(job, task, watched + {detail.id}, tail, info);
        StartedIff(job, task, watched + {detail.id}, tail, info);
        IdsAppend([detail], rest.started);
        assert detail.id == alloc.id;
        assert Ids([detail]) == {alloc.id} by {
          assert [detail][0] == detail;
        }
        forall a | a in tail ensures Selected(job, task, watched + {detail.id}, a) == Selected(job, task, watched, a) {
        }
        assert Discover(job, task, watched, list, info).started == [detail] + rest.started;
      }
    }
  }

  /** An allocation whose detail lookup fails does not join the watched set, so it stays eligible. */
  lemma FailedInfoNotStarted(job: string, task: string, watched: set<string>, list: seq<Allocation>, info: InfoLookup, id: string)
    requires InfoKeepsId(info) && info(id).None?
    ensures id !in Ids(Discover(job, task, watched, list, info).started)
  {
    var started := Discover(job, task, watched, list, info).started;
    StartedAreSelected(job, task, watched, list, info);
    forall i | 0 <= i < |started| ensures started[i].id != id {
      assert started[i] in started;
    }
  }

  /** Every allocation that passes the tests and has a detail record ends up watched. */
  lemma {:induction false} SelectedAreCovered(job: string, task: string, watched: set<string>, list: seq<Allocation>, info: InfoLookup)
    requires InfoKeepsId(info)
    ensures forall a :: a in list && Selected(job, task, watched, a) && info(a.id).Some? ==>
      a.id in Ids(Discover(job, task, watched, list, info).started)
    decreases |list|
  {
    if list != [] {
      var alloc := list[0];
      var tail := list[1..];
      assert forall a :: a in list ==> a == alloc || a in tail by {
        assert list == [alloc] + tail;
      }
      if !Selected(job, task, watched, alloc) || info(alloc.id).None? {
        SelectedAreCovered(job, task, watched, tail, info);
      } else {
        var detail := info(alloc.id).value;
        var rest := Discover(job, task, watched + {detail.id}, tail, info);
        SelectedAreCovered(job, task, watched + {detail.id}, tail, info);
        IdsAppend([detail], rest.started);
        assert Discover(job, task, watched, list, info).started == [detail] + rest.started;
        assert [detail][0].id == alloc.id;
      }
    }
  }

  /** A poll in which every selected allocation's lookup fails starts nothing. */
  lemma {:induction false} NothingToStart(job: string, task: string, watched: set<string>, list: seq<Allocation>, info: InfoLookup)
    requires forall a :: a in list && Selected(job, task, watched, a) ==> info(a.id).None?
    ensures Discover(job, task, watched, list, info).started == []
    decreases |list|
  {
    if list != [] {
      assert forall a :: a in list[1..] ==> a in list;
      NothingToStart(job, task, watched, list[1..], info);
    }
  }

  /**
   * Idempotence: a second poll over the same list, with no consumer
   * finished in between, starts no consumer and adds no ID.
   */
  lemma PollIdempotent(job: string, task: string, watched: set<string>, list: seq<Allocation>, info: InfoLookup)
    requires InfoKeepsId(info)
    ensures var first := Discover(job, task, watched, list, info);
      Discover(job, task, watched + Ids(first.started), list, info).started == []
  {
    var first := Discover(job, task, watched, list, info);
    var after := watched + Ids(first.started);
    SelectedAreCovered(job, task, watched, list, info);
    forall a | a in list && Selected(job, task, after, a) ensures info(a.id).None? {
      assert Selected(job, task, watched, a);
    }
    NothingToStart(job, task, after, list, info);
  }

  /**
   * The poll loop as main.go:242-253 runs it when the spawned goroutines have
   * not yet been scheduled: the ID is added inside the goroutine, so every
   * test of this poll, and of any poll before those goroutines run, sees the
   * watched set unchanged.
   */
  function DiscoverDeferred(job: string, task: string, watched: set<string>, list: seq<Allocation>, info: InfoLookup)
    : (started: seq<Allocation>)
    ensures forall d :: d in started ==>
      exists a :: a in list && Selected(job, task, watched, a) && info(a.id) == Some(d)
    decreases |list|
  {
    if list == [] then []
    else
      var alloc := list[0];
      var rest := DiscoverDeferred(job, task, watched, list[1..], info);
      if Selected(job, task, watched, alloc) && info(alloc.id).Some? then [info(alloc.id).value] + rest
      else rest
  }

  /**
   * With deferred adds, a running allocation listed by two polls before its
   * first consumer has added its ID gets a consumer from each poll: two
   * consumers stream the same allocation.
   */
  lemma DeferredPollsStartTwice(job: string, task: string, watched: set<string>, alloc: Allocation, info: InfoLookup)
    requires Selected(job, task, watched, alloc) && info(alloc.id) == Some(alloc)
    ensures DiscoverDeferred(job, task, watched, [alloc], info)
      + DiscoverDeferred(job, task, watched, [alloc], info) == [alloc, alloc]
    ensures Discover(job, task, watched, [alloc], info).started == [alloc]
    ensures Discover(job, task, watched + {alloc.id}, [alloc], info).started == []
  {
  }
}
