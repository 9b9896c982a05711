/** The states of a background job as the platform's job scheduler reports
    them, and the three-valued synchronisation state the avatar and the user
    badge show. */
module WorkInfo {

  datatype WorkState = Enqueued | Running | Succeeded | Failed | Blocked | Cancelled

  datatype SyncState = Good | Bad | InProgress
}
