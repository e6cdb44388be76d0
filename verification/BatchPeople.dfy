/**
 Who a batch says was there.
 */
module BatchPeople {
  import opened Text
  import opened Tracker
  import opened TrackerProofs

  /** The batch names everyone seen so far, each by the latest name, and the local participant. */
  ghost predicate Introduces(batch: Batch, obs: seq<Obs>) {
    (forall p: string :: Lookup(batch.participants, p) == LatestName(obs, |obs|, p)) &&
    batch.localParticipantId == LatestLocal(obs, |obs|)
  }

  lemma BatchIntroduces(events: seq<Event>, batch: Batch)
    requires BatchOf(StateAfter(events)) == Some(batch)
    ensures Introduces(batch, Observations(events))
  {
    forall p: string
      ensures Lookup(batch.participants, p) == LatestName(Observations(events), |Observations(events)|, p) {
      PeopleAreLatest(events, p);
    }
    PeopleAreLatest(events, "");
  }

  /** So does the last one, after the finish. */
  lemma LastBatchIntroduces(events: seq<Event>, finish: int, batch: Batch)
    requires BatchOf(Finished(StateAfter(events), finish)) == Some(batch)
    ensures Introduces(batch, Observations(events))
  {
    var s := StateAfter(events);
    CloseAbsentKeepsPeople(s, Keys(s.open), [], finish);
    forall p: string
      ensures Lookup(batch.participants, p) == LatestName(Observations(events), |Observations(events)|, p) {
      PeopleAreLatest(events, p);
    }
    PeopleAreLatest(events, "");
  }
}
