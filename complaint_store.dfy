/**
 * The complaint server's database, as the route handlers see it: a table of
 * users, a table of complaints and an append-only history of status changes.
 * Identifiers and passwords arrive as parameters; the server draws them
 * from the clock and a random source.
 */
module Store {
  import opened Wrappers
  import opened ScoresRules

  datatype User = User(userId: string, name: string, pan: string, email: string, mobile: string, dob: string,
                       password: string)

  datatype Complaint = Complaint(complaintId: string, userId: string, entityType: string, category: string,
                                 description: string, files: seq<string>, status: string, escalationLevel: int)

  /** One row of `complaint_history`. */
  datatype HistoryEntry = HistoryEntry(complaintId: string, status: string, notes: string)

  /** The status of the latest history entry for `id`, if there is one. */
  function LastStatus(history: seq<HistoryEntry>, id: string): (r: Option<string>)
    ensures r.None? <==> forall i :: 0 <= i < |history| ==> history[i].complaintId != id
    ensures r.Some? ==> exists i :: 0 <= i < |history| && history[i].complaintId == id && history[i].status == r.value
  {
    if history == [] then None
    else if history[|history| - 1].complaintId == id then Some(history[|history| - 1].status)
    else
      var r := LastStatus(history[..|history| - 1], id);
      assert forall i :: 0 <= i < |history| - 1 ==> history[..|history| - 1][i] == history[i];
      r
  }

  /** An entry for one complaint leaves the latest status of every other complaint as it was. */
  lemma LastStatusAppend(history: seq<HistoryEntry>, e: HistoryEntry, id: string)
    ensures LastStatus(history + [e], id) == if e.complaintId == id then Some(e.status) else LastStatus(history, id)
  {
    assert (history + [e])[..|history|] == history;
  }

  /** The `escalation_level` column's default, which every complaint keeps. */
  const DefaultEscalationLevel := 1

  class ComplaintStore {
    var users: map<string, User>
    var complaints: map<string, Complaint>
    var history: seq<HistoryEntry>

    /**
     * Every row is filed under its own id; the empty id (a missing request
     * field) names no user; every complaint's level is the column default,
     * since no statement of the server writes it; and the stored status is
     * the status of the complaint's latest history entry.
     */
    ghost predicate Valid()
      reads this
    {
      && "" !in users
      && (forall id :: id in users ==> users[id].userId == id)
      && (forall id :: id in complaints ==>
            && complaints[id].complaintId == id
            && complaints[id].escalationLevel == DefaultEscalationLevel
            && LastStatus(history, id) == Some(complaints[id].status))
    }

    constructor ()
      ensures Valid()
      ensures users == map[] && complaints == map[] && history == []
    {
      users := map[];
      complaints := map[];
      history := [];
    }

    /** `authenticate_user`: the user exists and the password is theirs. */
    predicate Authenticate(userId: string, password: string)
      reads this
    {
      userId in users && users[userId].password == password
    }

    /** `get_complaint`. */
    function GetComplaint(complaintId: string): (r: Option<Complaint>)
      reads this
      ensures r.Some? <==> complaintId in complaints
      ensures r.Some? ==> r.value == complaints[complaintId]
    {
      if complaintId in complaints then Some(complaints[complaintId]) else None
    }

    /** The owner of a stored complaint, as the access checks read it. */
    function OwnerOf(complaintId: string): (r: Option<string>)
      reads this
      ensures r.Some? <==> complaintId in complaints
      ensures r.Some? ==> r.value == complaints[complaintId].userId
    {
      if complaintId in complaints then Some(complaints[complaintId].userId) else None
    }

    /** `create_user`: stores the form as given (the PAN is not normalised) under a new id. */
    method CreateUser(userId: string, password: string, form: RegistrationForm)
      requires Valid()
      requires userId != "" && userId !in users
      modifies this
      ensures Valid()
      ensures users == old(users)[userId := User(userId, form.name, form.pan, form.email, form.mobile, form.dob, password)]
      ensures complaints == old(complaints) && history == old(history)
      ensures Authenticate(userId, password)
    {
      users := users[userId := User(userId, form.name, form.pan, form.email, form.mobile, form.dob, password)];
    }

    /**
     * `create_complaint`: a new complaint with status "submitted" at the
     * default level, and one "submitted" history entry for it.
     */
    method CreateComplaint(complaintId: string, userId: string, entityType: string, category: string,
                           description: string, files: seq<string>)
      requires Valid()
      requires complaintId !in complaints
      modifies this
      ensures Valid()
      ensures complaints == old(complaints)[complaintId :=
        Complaint(complaintId, userId, entityType, category, description, files, "submitted", DefaultEscalationLevel)]
      ensures history == old(history) + [HistoryEntry(complaintId, "submitted", "Complaint submitted")]
      ensures users == old(users)
    {
      var entry := HistoryEntry(complaintId, "submitted", "Complaint submitted");
      forall id | id in complaints
        ensures LastStatus(history + [entry], id) == LastStatus(history, id)
      {
        LastStatusAppend(history, entry, id);
      }
      LastStatusAppend(history, entry, complaintId);
      complaints := complaints[complaintId :=
        Complaint(complaintId, userId, entityType, category, description, files, "submitted", DefaultEscalationLevel)];
      history := history + [entry];
    }

    /**
     * `update_complaint_status`: sets the status of the complaint, if it
     * exists, and appends one history entry whether it exists or not.
     * Nothing else changes, the escalation level included.
     */
    method UpdateComplaintStatus(complaintId: string, status: string, notes: string) returns (ok: bool)
      requires Valid()
      modifies this
      ensures Valid()
      ensures ok
      ensures complaints ==
        if complaintId in old(complaints) then old(complaints)[complaintId := old(complaints)[complaintId].(status := status)]
        else old(complaints)
      ensures history == old(history) + [HistoryEntry(complaintId, status, notes)]
      ensures users == old(users)
    {
      var entry := HistoryEntry(complaintId, status, notes);
      forall id | id in complaints
        ensures LastStatus(history + [entry], id) == if id == complaintId then Some(status) else LastStatus(history, id)
      {
        LastStatusAppend(history, entry, id);
      }
      if complaintId in complaints {
        complaints := complaints[complaintId := complaints[complaintId].(status := status)];
      }
      history := history + [entry];
      return true;
    }
  }
}
