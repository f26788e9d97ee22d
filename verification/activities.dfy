/**
 The fixed catalog of activities the service suggests from. The catalog is
 known at start-up and never changes.
 */
module Activities {

  datatype Activity = Activity(name: string, category: string)

  /** The eight catalog entries, in the order `stats` reports them. */
  const ACTIVITIES: seq<Activity> := [
    Activity("Read Docker Docs", "Learning"),
    Activity("Practice Terminal Commands", "Learning"),
    Activity("Build a Side Project", "Coding"),
    Activity("Take a 10-min Walk", "Health"),
    Activity("Listen to a Podcast", "Relaxation"),
    Activity("Review Code", "Coding"),
    Activity("Learn a New Language Feature", "Learning"),
    Activity("Refactor Old Code", "Coding")
  ]

  /** A catalog entry can be looked up by name: no two entries share one. */
  lemma NamesDistinct()
    ensures |ACTIVITIES| == 8
    ensures forall i, j :: 0 <= i < j < |ACTIVITIES| ==> ACTIVITIES[i].name != ACTIVITIES[j].name
  {
  }
}
