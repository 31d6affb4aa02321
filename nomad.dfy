/**
 * The parts of Nomad's allocation records that the tool reads. The Nomad
 * HTTP client itself is not modelled; its answers are passed in.
 */
module Nomad {

  /** A task's state inside an allocation; `lastRestart` is a timestamp, kept opaque as an integer. */
  datatype TaskState = TaskState(state: string, lastRestart: int)

  /**
   * An allocation as the list and detail calls return it: its ID, its job,
   * the job's name, its task group, the client status ("running", "pending",
   * "complete", ...) and one task state per task name.
   */
  datatype Allocation = Allocation(
    id: string,
    jobId: string,
    jobName: string,
    taskGroup: string,
    clientStatus: string,
    taskStates: map<string, TaskState>)
}
