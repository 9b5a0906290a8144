/** The queue of attachments to release that the multicast fills and the backup server empties: toCleanupAttQueue_. */
module CleanupQueues {
  import opened Sender

  class CleanupQueue {
    var entries: seq<Cleanup>

    constructor ()
      ensures entries == []
    {
      entries := [];
    }
  }
}
