/**
 * The decision rules of the SCORES complaint server: which uploaded file
 * names are accepted, what registration and lodging demand of a request,
 * the day-based reminders, the escalation step and the order in which a
 * request on an existing complaint is refused.
 */
module ScoresRules {
  import opened Wrappers
  import opened Text
  import opened Collections

  // ------------------------------------------------------------------
  // File names
  // ------------------------------------------------------------------

  const AllowedExtensions: seq<string> :=
    ["txt", "pdf", "png", "jpg", "jpeg", "gif", "doc", "docx", "xls", "xlsx"]

  /** Membership in a list of names, checked one entry at a time. */
  predicate InList(x: string, list: seq<string>) {
    list != [] && (x == list[0] || InList(x, list[1..]))
  }

  lemma {:induction false} InListIff(x: string, list: seq<string>)
    ensures InList(x, list) <==> x in list
  {
    if list != [] {
      InListIff(x, list[1..]);
      assert list == [list[0]] + list[1..];
    }
  }

  /** The position of the last `c` in `s`, if `s` has one. */
  function LastIndexOf(s: string, c: char): (r: Option<nat>)
    ensures r.None? <==> c !in s
    ensures r.Some? ==> r.value < |s| && s[r.value] == c && c !in s[r.value + 1..]
  {
    if s == [] then None
    else if s[|s| - 1] == c then Some(|s| - 1)
    else
      var r := LastIndexOf(s[..|s| - 1], c);
      assert s == s[..|s| - 1] + [s[|s| - 1]];
      if r.Some? then
        assert s[r.value + 1..] == s[..|s| - 1][r.value + 1..] + [s[|s| - 1]];
        r
      else r
  }

  /** `filename.rsplit('.', 1)[1]`: the text after the last dot, if there is a dot. */
  function Extension(filename: string): Option<string> {
    match LastIndexOf(filename, '.')
    case None => None
    case Some(k) => Some(filename[k + 1..])
  }

  /** An extension that, lower-cased, is on the allow-list. */
  predicate IsAllowedExtension(ext: string) {
    InList(ToLower(ext), AllowedExtensions)
  }

  /** `allowed_file`: the name has a dot and its lower-cased extension is on the allow-list. */
  predicate AllowedFile(filename: string) {
    var e := Extension(filename);
    e.Some? && IsAllowedExtension(e.value)
  }

  /** The allow-list test is Python's `in` on the lower-cased extension. */
  lemma AllowedExtensionIff(ext: string)
    ensures IsAllowedExtension(ext) <==> ToLower(ext) in AllowedExtensions
  {
    InListIff(ToLower(ext), AllowedExtensions);
  }

  /** The last dot is the only dot with no dot after it. */
  lemma LastDotUnique(filename: string, j: nat)
    requires LastIndexOf(filename, '.') == Some(j)
    ensures forall k :: 0 <= k < |filename| && filename[k] == '.' && '.' !in filename[k + 1..] ==> k == j
  {
  }

  /** An accepted name's extension starts after a dot that no other dot follows. */
  lemma AllowedFileWitness(filename: string)
    requires AllowedFile(filename)
    ensures exists k :: 0 <= k < |filename| && filename[k] == '.' && '.' !in filename[k + 1..]
                        && IsAllowedExtension(filename[k + 1..])
  {
    var j := LastIndexOf(filename, '.').value;
    assert IsAllowedExtension(filename[j + 1..]);
  }

  /** A dot that no other dot follows is the last dot, so what follows it is the extension. */
  lemma AllowedFileFromDot(filename: string, k: nat)
    requires k < |filename| && filename[k] == '.' && '.' !in filename[k + 1..]
    requires IsAllowedExtension(filename[k + 1..])
    ensures AllowedFile(filename)
  {
    assert filename[k] in filename;
    LastDotUnique(filename, LastIndexOf(filename, '.').value);
  }

  /**
   * A name is accepted exactly when it has a dot after which there is no
   * further dot and the text after it, lower-cased, is an allowed extension.
   */
  lemma AllowedFileIff(filename: string)
    ensures AllowedFile(filename) <==>
      exists k :: 0 <= k < |filename| && filename[k] == '.' && '.' !in filename[k + 1..]
                  && IsAllowedExtension(filename[k + 1..])
  {
    if AllowedFile(filename) {
      AllowedFileWitness(filename);
    } else {
      forall k | 0 <= k < |filename| && filename[k] == '.' && '.' !in filename[k + 1..]
        ensures !IsAllowedExtension(filename[k + 1..])
      {
        if IsAllowedExtension(filename[k + 1..]) {
          AllowedFileFromDot(filename, k);
        }
      }
    }
  }

  lemma PdfListed()
    ensures InList("pdf", AllowedExtensions)
  {
  }

  lemma GzNotListed()
    ensures !InList("gz", AllowedExtensions)
  {
  }

  lemma ExeNotListed()
    ensures !InList("exe", AllowedExtensions)
  {
  }

  lemma AcceptsUpperCaseExtension()
    ensures AllowedFile("a.PDF")
  {
    assert LastIndexOf("a.PDF", '.') == Some(1);
    assert ToLower("PDF") == "pdf";
    PdfListed();
  }

  lemma ChecksOnlyLastExtension()
    ensures !AllowedFile("a.tar.gz")
  {
    assert LastIndexOf("a.tar.gz", '.') == Some(5);
    assert ToLower("gz") == "gz";
    GzNotListed();
  }

  lemma RejectsNameWithoutDot()
    ensures !AllowedFile("pdf")
  {
    assert LastIndexOf("pdf", '.') == None;
  }

  lemma AcceptsReportPdf()
    ensures AllowedFile("report.pdf")
  {
    assert LastIndexOf("report.pdf", '.') == Some(6);
    assert ToLower("pdf") == "pdf";
    PdfListed();
  }

  lemma RejectsExe()
    ensures !AllowedFile("tool.exe")
  {
    assert LastIndexOf("tool.exe", '.') == Some(4);
    assert ToLower("exe") == "exe";
    ExeNotListed();
  }

  // ------------------------------------------------------------------
  // Registration
  // ------------------------------------------------------------------

  /** The JSON body of `/api/register`; a missing field is the empty string (both are falsy). */
  datatype RegistrationForm = RegistrationForm(name: string, pan: string, email: string, mobile: string, dob: string)

  datatype RegistrationError = FieldRequired(field: string) | BadPanLength

  /** The required fields, in the order the handler checks them. */
  const RequiredFields: seq<string> := ["name", "pan", "email", "mobile", "dob"]

  function FormValues(form: RegistrationForm): (r: seq<string>)
    ensures |r| == |RequiredFields|
  {
    [form.name, form.pan, form.email, form.mobile, form.dob]
  }

  /** Every required field has a non-empty value. */
  predicate AllFieldsPresent(form: RegistrationForm) {
    forall i :: 0 <= i < |RequiredFields| ==> FormValues(form)[i] != ""
  }

  /** The first required field, in the checking order, whose value is empty. */
  method FirstMissingField(form: RegistrationForm) returns (missing: Option<string>)
    ensures missing.None? <==> AllFieldsPresent(form)
    ensures missing.Some? ==>
      exists i :: 0 <= i < |RequiredFields| && missing.value == RequiredFields[i] && FormValues(form)[i] == ""
                  && forall j :: 0 <= j < i ==> FormValues(form)[j] != ""
  {
    var values := FormValues(form);
    for i := 0 to |RequiredFields|
      invariant forall j :: 0 <= j < i ==> values[j] != ""
    {
      if values[i] == "" {
        return Some(RequiredFields[i]);
      }
    }
    return None;
  }

  /** The PAN check: `len(pan.upper().strip()) == 10`. */
  predicate PanAccepted(pan: string) {
    |Strip(ToUpper(pan))| == 10
  }

  /** Upper-casing never changes the outcome: only the stripped length counts. */
  lemma PanAcceptedIgnoresCase(pan: string)
    ensures PanAccepted(pan) <==> |Strip(pan)| == 10
  {
    StripUpper(pan);
  }

  /** A registration request that passes every check. */
  predicate RegistrationAcceptable(form: RegistrationForm) {
    AllFieldsPresent(form) && |Strip(form.pan)| == 10
  }

  /** The checks of `register_user` before anything is stored. */
  method ValidateRegistration(form: RegistrationForm) returns (err: Option<RegistrationError>)
    ensures err.None? <==> RegistrationAcceptable(form)
    ensures err == Some(BadPanLength) <==> AllFieldsPresent(form) && |Strip(form.pan)| != 10
    ensures err.Some? && err.value.FieldRequired? ==>
      exists i :: 0 <= i < |RequiredFields| && err.value.field == RequiredFields[i] && FormValues(form)[i] == ""
                  && forall j :: 0 <= j < i ==> FormValues(form)[j] != ""
  {
    var missing := FirstMissingField(form);
    if missing.Some? {
      return Some(FieldRequired(missing.value));
    }
    PanAcceptedIgnoresCase(form.pan);
    if !PanAccepted(form.pan) {
      return Some(BadPanLength);
    }
    return None;
  }

  // ------------------------------------------------------------------
  // Uploads on lodging
  // ------------------------------------------------------------------

  /** One uploaded file: its client-side name and its size in bytes. */
  datatype Upload = Upload(filename: string, size: nat)

  datatype UploadError = TooManyFiles | TypeNotAllowed(filename: string) | FileTooLarge(filename: string)

  const MaxFiles := 10
  const MaxFileSize := 20 * 1024 * 1024

  /** The verdict of the per-file check; files with an empty name are skipped. */
  function UploadProblem(u: Upload): Option<UploadError> {
    if u.filename == "" then None
    else if !AllowedFile(u.filename) then Some(TypeNotAllowed(u.filename))
    else if u.size > MaxFileSize then Some(FileTooLarge(u.filename))
    else None
  }

  /** The names of the files that are saved, in upload order. */
  function SavedNames(files: seq<Upload>): seq<string> {
    if files == [] then []
    else
      var last := files[|files| - 1];
      SavedNames(files[..|files| - 1]) + (if last.filename != "" then [last.filename] else [])
  }

  /** Whether a batch of uploads passes the whole gate. */
  predicate UploadsAcceptable(files: seq<Upload>) {
    |files| <= MaxFiles && forall i :: 0 <= i < |files| ==> UploadProblem(files[i]).None?
  }

  /** The per-file checks: a file type outside the allow-list is reported before a size over 20 MB. */
  lemma UploadBoundaries()
    ensures UploadProblem(Upload("report.pdf", MaxFileSize)) == None
    ensures UploadProblem(Upload("report.pdf", MaxFileSize + 1)) == Some(FileTooLarge("report.pdf"))
    ensures UploadProblem(Upload("tool.exe", MaxFileSize + 1)) == Some(TypeNotAllowed("tool.exe"))
    ensures UploadProblem(Upload("", MaxFileSize + 1)) == None
  {
    AcceptsReportPdf();
    RejectsExe();
  }

  /** The problem of the first file, in upload order, that has one. */
  function FirstUploadProblem(files: seq<Upload>): (r: Option<UploadError>)
  {
    if files == [] then None
    else if UploadProblem(files[0]).Some? then UploadProblem(files[0])
    else FirstUploadProblem(files[1..])
  }

  /** The first problem found is the problem of a file that every earlier file passes. */
  lemma {:induction false} FirstUploadProblemIff(files: seq<Upload>)
    ensures FirstUploadProblem(files).None? <==> forall i :: 0 <= i < |files| ==> UploadProblem(files[i]).None?
    ensures FirstUploadProblem(files).Some? ==>
      exists k :: 0 <= k < |files| && UploadProblem(files[k]) == FirstUploadProblem(files)
                  && forall j :: 0 <= j < k ==> UploadProblem(files[j]).None?
  {
    if files != [] {
      FirstUploadProblemIff(files[1..]);
      if UploadProblem(files[0]).None? {
        assert forall i :: 1 <= i < |files| ==> files[i] == files[1..][i - 1];
        if FirstUploadProblem(files).Some? {
          var k :| 0 <= k < |files[1..]| && UploadProblem(files[1..][k]) == FirstUploadProblem(files[1..])
                   && forall j :: 0 <= j < k ==> UploadProblem(files[1..][j]).None?;
          assert UploadProblem(files[k + 1]) == FirstUploadProblem(files);
        }
      }
    }
  }

  /** One more file checked and, if it has a name, saved. */
  lemma UploadStep(files: seq<Upload>, i: nat)
    requires i < |files|
    ensures FirstUploadProblem(files[i..]) ==
      if UploadProblem(files[i]).Some? then UploadProblem(files[i]) else FirstUploadProblem(files[i + 1..])
    ensures SavedNames(files[..i + 1]) ==
      SavedNames(files[..i]) + (if files[i].filename != "" then [files[i].filename] else [])
  {
    assert files[i..][1..] == files[i + 1..];
    assert files[..i + 1][..i] == files[..i];
  }

  /**
   * What the upload gate decides for a batch: too many files, the first
   * file's problem, or the names saved.
   */
  function UploadsVerdict(files: seq<Upload>): Result<seq<string>, UploadError> {
    if |files| > MaxFiles then Failure(TooManyFiles)
    else match FirstUploadProblem(files)
      case None => Success(SavedNames(files))
      case Some(e) => Failure(e)
  }

  /**
   * The upload part of `lodge_complaint`: more than ten files are refused
   * outright; otherwise the files are checked in order and the first bad
   * one refuses the whole request.
   */
  method CheckUploads(files: seq<Upload>) returns (r: Result<seq<string>, UploadError>)
    ensures r == UploadsVerdict(files)
  {
    if |files| > MaxFiles {
      return Failure(TooManyFiles);
    }
    var uploaded: seq<string> := [];
    var i := 0;
    while i < |files|
      invariant 0 <= i <= |files|
      invariant FirstUploadProblem(files) == FirstUploadProblem(files[i..])
      invariant uploaded == SavedNames(files[..i])
    {
      var f := files[i];
      // the type, then the size, of every file with a name
      var problem := UploadProblem(f);
      assert f == files[i];
      if problem.Some? {
        return Failure(problem.value);
      }
      if f.filename != "" {
        uploaded := uploaded + [f.filename];
      }
      UploadStep(files, i);
      i := i + 1;
    }
    assert files[..i] == files;
    return Success(uploaded);
  }

  /**
   * The gate accepts exactly the batches of at most ten files that each pass
   * the per-file check; a refusal is either the count or the problem of a
   * file that every earlier file passes.
   */
  lemma UploadsVerdictIff(files: seq<Upload>)
    ensures UploadsVerdict(files).Success? <==> UploadsAcceptable(files)
    ensures UploadsVerdict(files).Success? ==> UploadsVerdict(files).value == SavedNames(files)
    ensures |files| <= MaxFiles && UploadsVerdict(files).Failure? ==>
      exists k :: 0 <= k < |files| && UploadProblem(files[k]) == Some(UploadsVerdict(files).error)
                  && forall j :: 0 <= j < k ==> UploadProblem(files[j]).None?
  {
    FirstUploadProblemIff(files);
  }

  // ------------------------------------------------------------------
  // Reminders on tracking
  // ------------------------------------------------------------------

  const Day10Reminder := "Day 10: Initial response period completed"
  const Day15Reminder := "Day 15: First escalation trigger"
  const Day21Reminder := "Day 21: Second escalation available"

  /** The reminders `track_complaint` reports for a complaint `days` old with the given status. */
  function ReminderList(days: int, status: string): (r: seq<string>)
    ensures Day10Reminder in r <==> days >= 10 && status == "submitted"
    ensures Day15Reminder in r <==> days >= 15 && (status == "submitted" || status == "under_review")
    ensures Day21Reminder in r <==> days >= 21 && status != "resolved"
    ensures IsSubsequence(r, [Day10Reminder, Day15Reminder, Day21Reminder])
  {
    var d10 := if days >= 10 && status == "submitted" then [Day10Reminder] else [];
    var d15 := if days >= 15 && (status == "submitted" || status == "under_review") then [Day15Reminder] else [];
    var d21 := if days >= 21 && status != "resolved" then [Day21Reminder] else [];
    SubsequenceOfOne(Day10Reminder, d10);
    SubsequenceOfOne(Day15Reminder, d15);
    SubsequenceOfOne(Day21Reminder, d21);
    SubsequenceConcat(d15, [Day15Reminder], d21, [Day21Reminder]);
    SubsequenceConcat(d10, [Day10Reminder], d15 + d21, [Day15Reminder, Day21Reminder]);
    assert d10 + (d15 + d21) == d10 + d15 + d21;
    d10 + d15 + d21
  }

  /** The reminder list as the handler builds it, by conditional appends. */
  method Reminders(days: int, status: string) returns (reminders: seq<string>)
    ensures reminders == ReminderList(days, status)
  {
    reminders := [];
    if days >= 10 && status == "submitted" {
      reminders := reminders + [Day10Reminder];
    }
    if days >= 15 && (status == "submitted" || status == "under_review") {
      reminders := reminders + [Day15Reminder];
    }
    if days >= 21 && status != "resolved" {
      reminders := reminders + [Day21Reminder];
    }
  }

  lemma ReminderExamples()
    ensures ReminderList(14, "under_review") == []
    ensures ReminderList(15, "under_review") == [Day15Reminder]
    ensures ReminderList(30, "resolved") == []
    ensures ReminderList(21, "closed") == [Day21Reminder]
  {
  }

  /** A reminder, once due, stays due as the complaint ages with the same status. */
  lemma RemindersMonotone(d1: int, d2: int, status: string)
    requires d1 <= d2
    ensures forall x :: x in ReminderList(d1, status) ==> x in ReminderList(d2, status)
  {
  }

  // ------------------------------------------------------------------
  // Escalation
  // ------------------------------------------------------------------

  /** The handler's `status_map` from the new level to the new status. */
  const EscalationStatus: map<int, string> := map[2 := "escalated_l2", 3 := "escalated_sebi"]

  datatype Escalation =
    | AlreadyAtHighestLevel
    | NoStatusForLevel(level: int)
    | Escalated(newLevel: int, newStatus: string, notes: string)

  /** One escalation step from the stored `escalation_level`. */
  function NextEscalation(level: int): (r: Escalation)
    ensures r == AlreadyAtHighestLevel <==> level >= 3
    ensures r.Escalated? <==> level == 1 || level == 2
    ensures r.Escalated? ==> r.newLevel == level + 1
    ensures r.Escalated? ==> (r.newStatus == "escalated_l2" <==> level == 1)
    ensures r.Escalated? ==> (r.newStatus == "escalated_sebi" <==> level == 2)
    ensures r.Escalated? ==> r.notes == "Escalated to level " + [('0' as int + level + 1) as char]
  {
    if level >= 3 then AlreadyAtHighestLevel
    else
      var newLevel := level + 1;
      if newLevel in EscalationStatus then
        Escalated(newLevel, EscalationStatus[newLevel], "Escalated to level " + [('0' as int + newLevel) as char])
      else
        NoStatusForLevel(newLevel)
  }

  // ------------------------------------------------------------------
  // Access to an existing complaint
  // ------------------------------------------------------------------

  /** Why an access to a complaint is refused. */
  datatype Denial = InvalidCredentials | ComplaintNotFound | AccessDenied

  /**
   * The checks shared by track, escalate and close, in their order:
   * credentials, then existence, then ownership. `owner` is the stored
   * complaint's `user_id`, if the complaint exists.
   */
  function CheckAccess(authenticated: bool, owner: Option<string>, userId: string): (r: Option<Denial>)
    ensures r == Some(InvalidCredentials) <==> !authenticated
    ensures r == Some(ComplaintNotFound) <==> authenticated && owner.None?
    ensures r == Some(AccessDenied) <==> authenticated && owner.Some? && owner.value != userId
    ensures r.None? <==> authenticated && owner == Some(userId)
  {
    if !authenticated then Some(InvalidCredentials)
    else if owner.None? then Some(ComplaintNotFound)
    else if owner.value != userId then Some(AccessDenied)
    else None
  }

  // ------------------------------------------------------------------
  // Closing
  // ------------------------------------------------------------------

  const ClosedNote := "Closed by user"
  const FeedbackNotePrefix := "Closed by user. Feedback: "

  /** The history note `close_complaint` records. */
  function CloseNotes(feedback: string): (r: string)
    ensures ClosedNote <= r
    ensures feedback == "" ==> r == ClosedNote
    ensures feedback != "" ==> r == FeedbackNotePrefix + feedback
  {
    if feedback != "" then FeedbackNotePrefix + feedback else ClosedNote
  }

  /** The feedback a close note carries. */
  function FeedbackOf(notes: string): string {
    if |notes| > |FeedbackNotePrefix| && FeedbackNotePrefix <= notes then notes[|FeedbackNotePrefix|..] else ""
  }

  /** No feedback is lost: the note determines the feedback given. */
  lemma CloseNotesRoundTrip(feedback: string)
    ensures FeedbackOf(CloseNotes(feedback)) == feedback
  {
    if feedback != "" {
      var n := FeedbackNotePrefix + feedback;
      assert n[|FeedbackNotePrefix|..] == feedback;
    }
  }

  // ------------------------------------------------------------------
  // Knowledge queries forwarded by the complaint server
  // ------------------------------------------------------------------

  datatype QueryCheck = QuestionRequired | KnowledgeUnavailable | ForwardQuestion(question: string)

  /**
   * `/api/query` of the complaint server: the stripped question is checked
   * before the availability of the knowledge system.
   */
  function CheckQuery(question: string, ragAvailable: bool): (r: QueryCheck)
    ensures r == QuestionRequired <==> Strip(question) == ""
    ensures r == KnowledgeUnavailable <==> Strip(question) != "" && !ragAvailable
    ensures r.ForwardQuestion? ==> r.question == Strip(question) && r.question != ""
  {
    var q := Strip(question);
    if q == "" then QuestionRequired
    else if !ragAvailable then KnowledgeUnavailable
    else ForwardQuestion(q)
  }
}
