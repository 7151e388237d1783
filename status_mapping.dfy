/**
 * The four provider status vocabularies mapped onto the internal tri-state.
 * Each provider has exactly one word for "finished" and one for "ongoing";
 * every other string, the empty one included, is read as scheduled.
 */
module StatusMapping {
  import opened SyncDomain

  function MapFootballStatus(status: string): (r: Status)
    ensures r == Finished <==> status == "FINISHED"
    ensures r == Ongoing <==> status == "IN_PLAY"
  {
    if status == "FINISHED" then Finished
    else if status == "IN_PLAY" then Ongoing
    else Scheduled
  }

  function MapKboStatus(status: string): (r: Status)
    ensures r == Finished <==> status == "RESULT"
    ensures r == Ongoing <==> status == "RUN"
  {
    if status == "RESULT" then Finished
    else if status == "RUN" then Ongoing
    else Scheduled
  }

  function MapPandaStatus(status: string): (r: Status)
    ensures r == Finished <==> status == "finished"
    ensures r == Ongoing <==> status == "running"
  {
    if status == "finished" then Finished
    else if status == "running" then Ongoing
    else Scheduled
  }

  function MapEspnStatus(status: string): (r: Status)
    ensures r == Finished <==> status == "STATUS_FINAL"
    ensures r == Ongoing <==> status == "STATUS_IN_PROGRESS"
  {
    if status == "STATUS_FINAL" then Finished
    else if status == "STATUS_IN_PROGRESS" then Ongoing
    else Scheduled
  }

  /** The conservative default: an empty or unknown status never reads as finished or ongoing. */
  lemma UnknownStatusIsScheduled(status: string)
    requires status !in {"FINISHED", "IN_PLAY", "RESULT", "RUN", "finished", "running",
                         "STATUS_FINAL", "STATUS_IN_PROGRESS"}
    ensures MapFootballStatus(status) == Scheduled
    ensures MapKboStatus(status) == Scheduled
    ensures MapPandaStatus(status) == Scheduled
    ensures MapEspnStatus(status) == Scheduled
  {
  }
}
