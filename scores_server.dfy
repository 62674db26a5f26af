/**
 * The route handlers of the SCORES complaint server that change or read
 * the store: register, lodge, track, escalate and close. Each returns
 * either its success payload or the HTTP status and error text it answers
 * with.
 */
module ScoresServer {
  import opened Wrappers
  import opened ScoresRules
  import opened Store

  /** An error reply: its HTTP status and its `error` text. */
  datatype Refusal = Refusal(code: int, error: string)

  datatype Credentials = Credentials(userId: string, password: string)

  /** The reply of `track_complaint`. */
  datatype TrackReply = TrackReply(complaint: Complaint, daysElapsed: int, reminders: seq<string>)

  /** The reply of `escalate_complaint`. */
  datatype EscalationReply = EscalationReply(newLevel: int, newStatus: string, message: string)

  const MissingComplaintFields := "Entity type, category, and description are required"

  /**
   * The answer to a refused access: a client error whose status tells the
   * three reasons apart, with the reason's text.
   */
  function DenialRefusal(d: Denial): (r: Refusal)
    ensures 400 <= r.code < 500
    ensures r.code == 401 <==> d == InvalidCredentials
    ensures r.code == 404 <==> d == ComplaintNotFound
    ensures r.code == 403 <==> d == AccessDenied
    ensures d == InvalidCredentials ==> r.error == "Invalid credentials"
    ensures d == ComplaintNotFound ==> r.error == "Complaint not found"
    ensures d == AccessDenied ==> r.error == "Access denied"
  {
    match d
    case InvalidCredentials => Refusal(401, "Invalid credentials")
    case ComplaintNotFound => Refusal(404, "Complaint not found")
    case AccessDenied => Refusal(403, "Access denied")
  }

  function RegistrationRefusal(e: RegistrationError): (r: Refusal)
    ensures r.code == 400
  {
    match e
    case FieldRequired(field) => Refusal(400, field + " is required")
    case BadPanLength => Refusal(400, "PAN must be 10 characters long")
  }

  function UploadRefusal(e: UploadError): (r: Refusal)
    ensures r.code == 400
  {
    match e
    case TooManyFiles => Refusal(400, "Maximum 10 files allowed")
    case TypeNotAllowed(filename) => Refusal(400, "File type not allowed: " + filename)
    case FileTooLarge(filename) => Refusal(400, "File too large: " + filename + " (max 20MB per file)")
  }

  /** The three access checks against the store, in the order the handlers make them. */
  function Access(db: ComplaintStore, userId: string, password: string, complaintId: string): Option<Denial>
    reads db
  {
    CheckAccess(db.Authenticate(userId, password), db.OwnerOf(complaintId), userId)
  }

  /**
   * `register_user`: the first missing field or a PAN of the wrong length is
   * refused with 400 and nothing is stored; otherwise the form is stored as
   * given, under the new id and password, and those are returned.
   */
  method Register(db: ComplaintStore, form: RegistrationForm, userId: string, password: string)
    returns (r: Result<Credentials, Refusal>)
    requires db.Valid() && userId != "" && userId !in db.users
    modifies db
    ensures db.Valid()
    ensures r.Success? <==> RegistrationAcceptable(form)
    ensures r.Success? ==>
      && r.value == Credentials(userId, password)
      && db.users == old(db.users)[userId := User(userId, form.name, form.pan, form.email, form.mobile, form.dob, password)]
    ensures r.Failure? ==> r.error.code == 400 && db.users == old(db.users)
    ensures r.Failure? && AllFieldsPresent(form) ==> r.error.error == "PAN must be 10 characters long"
    ensures r.Failure? && !AllFieldsPresent(form) ==>
      exists i :: 0 <= i < |RequiredFields| && r.error.error == RequiredFields[i] + " is required"
                  && FormValues(form)[i] == "" && forall j :: 0 <= j < i ==> FormValues(form)[j] != ""
    ensures db.complaints == old(db.complaints) && db.history == old(db.history)
  {
    var err := ValidateRegistration(form);
    if err.Some? {
      return Failure(RegistrationRefusal(err.value));
    }
    db.CreateUser(userId, password, form);
    return Success(Credentials(userId, password));
  }

  /**
   * `lodge_complaint`: credentials (401), then the three text fields (400),
   * then the upload gate (400); a request that passes them all is stored as
   * a new "submitted" complaint with the names of the saved files.
   */
  method Lodge(db: ComplaintStore, userId: string, password: string, entityType: string, category: string,
               description: string, files: seq<Upload>, complaintId: string)
    returns (r: Result<string, Refusal>)
    requires db.Valid() && complaintId !in db.complaints
    modifies db
    ensures db.Valid()
    ensures !old(db.Authenticate(userId, password)) ==> r == Failure(Refusal(401, "Invalid credentials"))
    ensures old(db.Authenticate(userId, password)) && (entityType == "" || category == "" || description == "") ==>
      r == Failure(Refusal(400, MissingComplaintFields))
    ensures old(db.Authenticate(userId, password)) && entityType != "" && category != "" && description != "" ==>
      match UploadsVerdict(files)
      case Failure(e) => r == Failure(UploadRefusal(e))
      case Success(names) =>
        && r == Success(complaintId)
        && db.complaints == old(db.complaints)[complaintId :=
             Complaint(complaintId, userId, entityType, category, description, names, "submitted", DefaultEscalationLevel)]
        && db.history == old(db.history) + [HistoryEntry(complaintId, "submitted", "Complaint submitted")]
    ensures r.Failure? ==> db.complaints == old(db.complaints) && db.history == old(db.history)
    ensures db.users == old(db.users)
  {
    if !db.Authenticate(userId, password) {
      return Failure(Refusal(401, "Invalid credentials"));
    }
    if entityType == "" || category == "" || description == "" {
      return Failure(Refusal(400, MissingComplaintFields));
    }
    var uploaded := CheckUploads(files);
    if uploaded.Failure? {
      return Failure(UploadRefusal(uploaded.error));
    }
    db.CreateComplaint(complaintId, userId, entityType, category, description, uploaded.value);
    return Success(complaintId);
  }

  /**
   * `track_complaint`: after the access checks, the stored complaint with
   * its age and the reminders due for it. The store is only read.
   */
  method Track(db: ComplaintStore, userId: string, password: string, complaintId: string, days: int)
    returns (r: Result<TrackReply, Refusal>)
    ensures Access(db, userId, password, complaintId).Some? ==>
      r == Failure(DenialRefusal(Access(db, userId, password, complaintId).value))
    ensures Access(db, userId, password, complaintId).None? ==>
      && complaintId in db.complaints
      && r == Success(TrackReply(db.complaints[complaintId], days, ReminderList(days, db.complaints[complaintId].status)))
  {
    if !db.Authenticate(userId, password) {
      return Failure(DenialRefusal(InvalidCredentials));
    }
    var complaint := db.GetComplaint(complaintId);
    if complaint.None? {
      return Failure(DenialRefusal(ComplaintNotFound));
    }
    if complaint.value.userId != userId {
      return Failure(DenialRefusal(AccessDenied));
    }
    var reminders := Reminders(days, complaint.value.status);
    return Success(TrackReply(complaint.value, days, reminders));
  }

  /** The one step the handler can take from the level every complaint keeps. */
  lemma EscalationFromDefaultLevel()
    ensures NextEscalation(DefaultEscalationLevel) == Escalated(2, "escalated_l2", "Escalated to level 2")
    ensures "Complaint escalated to level " + [('0' as int + 2) as char] == "Complaint escalated to level 2"
  {
  }

  /**
   * `escalate_complaint`: after the access checks, one escalation step from
   * the stored level, written through `update_complaint_status`. Since that
   * writes only the status, the stored level stays at its default and every
   * escalation that gets through is to level 2, "escalated_l2".
   */
  method Escalate(db: ComplaintStore, userId: string, password: string, complaintId: string)
    returns (r: Result<EscalationReply, Refusal>)
    requires db.Valid()
    modifies db
    ensures db.Valid()
    ensures old(Access(db, userId, password, complaintId)).Some? ==>
      && r == Failure(DenialRefusal(old(Access(db, userId, password, complaintId)).value))
      && db.complaints == old(db.complaints) && db.history == old(db.history)
    ensures old(Access(db, userId, password, complaintId)).None? ==>
      && r == Success(EscalationReply(2, "escalated_l2", "Complaint escalated to level 2"))
      && db.complaints == old(db.complaints)[complaintId := old(db.complaints)[complaintId].(status := "escalated_l2")]
      && db.history == old(db.history) + [HistoryEntry(complaintId, "escalated_l2", "Escalated to level 2")]
    ensures db.users == old(db.users)
  {
    if !db.Authenticate(userId, password) {
      return Failure(DenialRefusal(InvalidCredentials));
    }
    var complaint := db.GetComplaint(complaintId);
    if complaint.None? {
      return Failure(DenialRefusal(ComplaintNotFound));
    }
    if complaint.value.userId != userId {
      return Failure(DenialRefusal(AccessDenied));
    }
    EscalationFromDefaultLevel();
    match NextEscalation(complaint.value.escalationLevel)
    case AlreadyAtHighestLevel =>
      return Failure(Refusal(400, "Complaint already at highest escalation level"));
    case NoStatusForLevel(_) =>
      return Failure(Refusal(500, "Failed to escalate complaint"));
    case Escalated(newLevel, newStatus, notes) =>
      var _ := db.UpdateComplaintStatus(complaintId, newStatus, notes);
      return Success(EscalationReply(newLevel, newStatus, "Complaint escalated to level " + [('0' as int + newLevel) as char]));
  }

  /**
   * `close_complaint`: after the access checks, the status becomes "closed"
   * whatever it was, with a note that carries the feedback if any.
   */
  method Close(db: ComplaintStore, userId: string, password: string, complaintId: string, feedback: string)
    returns (r: Option<Refusal>)
    requires db.Valid()
    modifies db
    ensures db.Valid()
    ensures r == (match old(Access(db, userId, password, complaintId))
                  case Some(d) => Some(DenialRefusal(d))
                  case None => None)
    ensures r.Some? ==> db.complaints == old(db.complaints) && db.history == old(db.history)
    ensures r.None? ==>
      && db.complaints == old(db.complaints)[complaintId := old(db.complaints)[complaintId].(status := "closed")]
      && db.history == old(db.history) + [HistoryEntry(complaintId, "closed", CloseNotes(feedback))]
    ensures db.users == old(db.users)
  {
    if !db.Authenticate(userId, password) {
      return Some(DenialRefusal(InvalidCredentials));
    }
    var complaint := db.GetComplaint(complaintId);
    if complaint.None? {
      return Some(DenialRefusal(ComplaintNotFound));
    }
    if complaint.value.userId != userId {
      return Some(DenialRefusal(AccessDenied));
    }
    var _ := db.UpdateComplaintStatus(complaintId, "closed", CloseNotes(feedback));
    return None;
  }

  /**
   * A complainant escalating the same complaint twice: both requests are
   * answered with level 2 and "escalated_l2", and the complaint never
   * reaches "escalated_sebi".
   */
  method EscalateTwice(db: ComplaintStore, userId: string, password: string, complaintId: string)
    returns (first: Result<EscalationReply, Refusal>, second: Result<EscalationReply, Refusal>)
    requires db.Valid() && Access(db, userId, password, complaintId).None?
    modifies db
    ensures first == second == Success(EscalationReply(2, "escalated_l2", "Complaint escalated to level 2"))
    ensures complaintId in db.complaints && db.complaints[complaintId].status == "escalated_l2"
    ensures db.complaints[complaintId].escalationLevel == DefaultEscalationLevel
  {
    first := Escalate(db, userId, password, complaintId);
    second := Escalate(db, userId, password, complaintId);
  }
}
