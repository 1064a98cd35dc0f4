/** The MongoDB collections the core handlers read and write, as one
    mutable store: each collection maps a document id to its document. */
module Db {
  import opened Common
  import opened UserModel
  import opened EventModel
  import opened RegistrationModel
  import opened ActivityModel

  class Store {
    var users: map<Id, User>
    var events: map<Id, Event>
    var registrations: map<Id, Registration>
    var activities: map<Id, Activity>

    /** Every document sits under its own id, emails are unique (the unique
        index of the User schema) and so are (event, user) pairs of
        registrations (the compound unique index). */
    ghost predicate Valid()
      reads this
    {
      && KeyedById(users)
      && (forall id :: id in events ==> events[id].id == id)
      && (forall id :: id in registrations ==> registrations[id].id == id)
      && (forall id :: id in activities ==> activities[id].id == id)
      && UniqueEmails(users)
      && UniquePairs(registrations)
    }

    /** An empty database. */
    constructor ()
      ensures Valid()
      ensures users == map[] && events == map[] && registrations == map[] && activities == map[]
    {
      users := map[];
      events := map[];
      registrations := map[];
      activities := map[];
    }
  }
}
