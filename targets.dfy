/**
 * The `tail` command's positional arguments: each is `job:task` or a bare
 * `task`, and names the allocations one watcher follows (main.go,
 * NewTailCommand).
 */
module Targets {
  import opened Wrappers
  import opened Strings

  /** A watcher's target; `job == ""` means any job. */
  datatype NomadTask = NomadTask(job: string, task: string)

  /** The tail command as the model keeps it: the address its client was configured with and its targets. */
  datatype TailCommand = TailCommand(addr: string, nomadTasks: seq<NomadTask>)

  function ParseError(spec: string): string
  {
    "expecting 'job:task' or 'task', got " + spec
  }

  /**
   * One positional argument. It is split on ':'; more than two pieces is an
   * error, two pieces are the job and the task, one piece is the task of any
   * job.
   */
  function ParseTask(spec: string): (r: Result<NomadTask, string>)
    ensures r.Err? <==> Count(spec, ':') >= 2
    ensures r.Err? ==> r.error == ParseError(spec)
    ensures r.Ok? ==> ':' !in r.value.job && ':' !in r.value.task
  {
    var split := Split(spec, ':');
    if |split| > 2 then Err(ParseError(spec))
    else if |split| == 2 then Ok(NomadTask(split[0], split[1]))
    else Ok(NomadTask("", split[0]))
  }

  /** `"a:b"` is job `a`, task `b`. */
  lemma ParseJobAndTask(job: string, task: string)
    requires ':' !in job && ':' !in task
    ensures ParseTask(job + ":" + task) == Ok(NomadTask(job, task))
  {
    SplitJoin([job, task], ':');
    assert Join([job, task], ':') == job + ":" + task;
  }

  /** `"a"` is task `a` of any job. */
  lemma ParseBareTask(task: string)
    requires ':' !in task
    ensures ParseTask(task) == Ok(NomadTask("", task))
  {
    SplitNoSeparator(task, ':');
  }

  /** A target parsed from `spec` was written as `job:task`, or as the bare task when the job is empty. */
  lemma ParseTaskInverse(spec: string)
    requires ParseTask(spec).Ok?
    ensures var t := ParseTask(spec).value;
      spec == t.job + ":" + t.task || (t.job == "" && spec == t.task)
  {
    JoinSplit(spec, ':');
    var split := Split(spec, ':');
    if |split| == 2 {
      assert Join(split, ':') == split[0] + [':'] + Join(split[1..], ':');
    }
  }

  /** Two or more colons is always an error: `"a:b:c"` is refused. */
  lemma ParseTooManyColons(a: string, b: string, c: string)
    ensures ParseTask(a + ":" + b + ":" + c).Err?
  {
    var spec := a + ":" + b + ":" + c;
    SplitAppend(a, ':', b + ":" + c);
    SplitAppend(b, ':', c);
    assert spec == a + [':'] + (b + [':'] + c);
  }

  /**
   * Builds the tail command: a client-construction failure (`clientError`)
   * is returned first; then the arguments are parsed in order and the first
   * malformed one is the error; otherwise the targets keep the order of the
   * arguments.
   */
  method NewTailCommand(addr: string, tasks: seq<string>, clientError: Option<string>)
    returns (r: Result<TailCommand, string>)
    ensures clientError.Some? ==> r == Err(clientError.value)
    ensures clientError.None? ==> (r.Ok? <==> forall i :: 0 <= i < |tasks| ==> ParseTask(tasks[i]).Ok?)
    ensures r.Ok? ==> r.value.addr == addr && |r.value.nomadTasks| == |tasks|
    ensures r.Ok? ==> forall i :: 0 <= i < |tasks| ==> ParseTask(tasks[i]) == Ok(r.value.nomadTasks[i])
    ensures clientError.None? && r.Err? ==>
      exists i :: 0 <= i < |tasks| && ParseTask(tasks[i]).Err? && r.error == ParseTask(tasks[i]).error
        && forall j :: 0 <= j < i ==> ParseTask(tasks[j]).Ok?
  {
    if clientError.Some? {
      return Err(clientError.value);
    }
    var nomadTasks: seq<NomadTask> := [];
    for i := 0 to |tasks|
      invariant |nomadTasks| == i
      invariant forall j :: 0 <= j < i ==> ParseTask(tasks[j]) == Ok(nomadTasks[j])
    {
      var split := Split(tasks[i], ':');
      if |split| > 2 {
        return Err(ParseError(tasks[i]));
      }
      if |split| == 2 {
        nomadTasks := nomadTasks + [NomadTask(split[0], split[1])];
      }
      if |split| == 1 {
        nomadTasks := nomadTasks + [NomadTask("", split[0])];
      }
    }
    return Ok(TailCommand(addr, nomadTasks));
  }
}
