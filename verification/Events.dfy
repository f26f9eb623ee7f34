/** The notification events of backend/app/modules/notifications/events.py, as far as the
    ledgers of this project raise them. An event key is the tuple that the source prints
    into a string; the message snapshot keeps the fields that the source freezes. */
module Events {
  import opened Wrappers

  datatype EventKey =
    | ProjectCreated(project: nat)
    | FirstSubmitted(project: nat)
    | FirstSucceeded(project: nat)
    | FailureEpisode(source: nat, startedTask: nat)

  datatype Snapshot =
    | CreationSnapshot(entityName: string, deadlineOn: Option<int>)
    | SubmissionSnapshot(submittedOn: Option<int>)
    | SuccessSnapshot(resultOn: Option<int>, resultNote: Option<string>)
    | EpisodeSnapshot(failureCount: nat, latestTask: nat)

  datatype Event = Event(key: EventKey, objectName: string, snapshot: Snapshot)
}
