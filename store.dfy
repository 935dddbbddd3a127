/** The database session the endpoints share: one sequence per table, in
    insertion order, and the counter that hands out primary keys. The
    endpoints change these tables in place; `Valid` is what the schema's
    keys and UNIQUE constraints guarantee of them, together with the one
    application per (job, student) pair that only the apply endpoint's
    guard keeps. */
module Store {
  import opened Common
  import opened Models

  /** Every id in `rows` is below `bound`, so `bound` is a fresh key. */
  ghost predicate IdsBelow<T>(rows: seq<T>, id: T -> nat, bound: nat)
  {
    forall i :: 0 <= i < |rows| ==> id(rows[i]) < bound
  }

  ghost predicate KeyedBelow<T>(rows: seq<T>, id: T -> nat, bound: nat)
  {
    DistinctIds(rows, id) && IdsBelow(rows, id, bound)
  }

  /** Appending a row with a fresh key keeps the keys distinct and below the bumped counter. */
  lemma AppendFresh<T>(rows: seq<T>, id: T -> nat, bound: nat, x: T)
    requires KeyedBelow(rows, id, bound)
    requires id(x) == bound
    ensures KeyedBelow(rows + [x], id, bound + 1)
  {
  }

  /** Replacing a row by one with the same key keeps the keys as they were. */
  lemma ReplaceSameKey<T>(rows: seq<T>, id: T -> nat, bound: nat, i: nat, x: T)
    requires KeyedBelow(rows, id, bound)
    requires i < |rows| && id(x) == id(rows[i])
    ensures KeyedBelow(rows[i := x], id, bound)
  {
  }

  class Database {
    var users: seq<User>
    var jobs: seq<Job>
    var applications: seq<Application>
    var resetTokens: seq<ResetToken>
    var profiles: seq<StudentProfile>
    var notifications: seq<Notification>
    var projects: seq<Project>
    /** The next primary key handed out (one counter for all tables). */
    var nextId: nat

    ghost predicate Valid()
      reads this
    {
      && KeyedBelow(users, UserId, nextId)
      && KeyedBelow(jobs, JobId, nextId)
      && KeyedBelow(applications, ApplicationId, nextId)
      && KeyedBelow(resetTokens, ResetTokenId, nextId)
      && KeyedBelow(profiles, ProfileId, nextId)
      && KeyedBelow(notifications, NotificationId, nextId)
      && KeyedBelow(projects, ProjectId, nextId)
      && UniqueEmails(users)
      && OneProfilePerUser(profiles)
      && OneApplicationPerPair(applications)
    }

    constructor()
      ensures Valid()
      ensures users == [] && jobs == [] && applications == [] && resetTokens == []
      ensures profiles == [] && notifications == [] && projects == []
    {
      users := [];
      jobs := [];
      applications := [];
      resetTokens := [];
      profiles := [];
      notifications := [];
      projects := [];
      nextId := 1;
    }
  }
}
