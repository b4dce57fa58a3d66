/** The records that travel between client, queue and executor. Wall-clock times are left out. */
module Protocol {

  datatype JobState = Queued | Allocating | Running | Finished | Skipped | HoldingClient {
    predicate Terminal() {
      Finished? || Skipped?
    }
  }

  datatype Result = Result(exitCode: int, diedBySignal: bool, timedOut: bool, skipped: bool)

  const NO_RESULT := Result(0, false, false, false)
  const START_FAILED := Result(-1, false, false, false)
  const SKIP_RESULT := Result(0, false, false, true)

  datatype NewJobRequest = NewJobRequest(
    command: string, commandArgs: seq<string>, storeOutput: bool,
    dependOn: seq<int>, requireElevel: bool, jobLabel: string, session: string,
    numSlots: int, timeoutMS: int, retries: int)

  datatype JobInfo = JobInfo(
    command: string, state: JobState, result: Result, outputFilename: string, storeOutput: bool,
    pid: int, dependOn: seq<int>, jobLabel: string, session: string,
    numSlots: int, timeoutMS: int, retries: int, attempt: int)

  /** A job as a value: what the queue holds under one id. `waiters` are the numbers of the
      result channels handed out for it and not yet answered. */
  datatype Record = Record(
    id: int, info: JobInfo, commandArgs: seq<string>, requireElevel: bool, waiters: seq<nat>)

  /** Channel number `k` was requested for job `id`; `known` tells whether that job existed then. */
  datatype Issue = Issue(id: int, known: bool)

  /** One value sent on a result channel. */
  datatype Delivery = Delivery(channel: nat, result: Result)
}
