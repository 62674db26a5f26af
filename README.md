# SEBI assistant and SCORES complaint server, modelled in Dafny

The system has two web applications. One answers questions about the
regulations of SEBI (the Securities and Exchange Board of India) from a
corpus of chunked SEBI documents. The other is a SCORES-style complaint
server where investors register, lodge complaints with attachments, track
them, escalate them and close them. This project models the decision logic
of both, and proves properties of that model:

- `ScoresRules` (`scores_rules.dfy`) holds the complaint server's rules:
  - the attachment-name test, which reads only the text after the last dot, in any letter case;
  - the registration checks: the first empty field in a fixed order, then a PAN of ten characters once stripped;
  - the upload gate: at most 10 files, then file by file the type and the 20 MiB limit, skipping nameless files;
  - the three day-based reminders;
  - the escalation step;
  - the shared credentials → existence → ownership checks;
  - the closing note;
  - the order of checks on a forwarded question.
- `Store` (`complaint_store.dfy`) is the server's database as a class:
  - a user table, a complaint table and an append-only status history;
  - an invariant that every complaint's status is the status of its latest history entry.
- `ScoresServer` (`scores_server.dfy`) holds the handlers that read or change the store:
  - register, lodge, track, escalate and close;
  - each with its exact HTTP status and error text.
- `WebApp` (`web_app.dfy`) holds the main application's decisions:
  - the keyword fallback answer;
  - the order of checks on a `/api/query` request.
- `SebiDocuments` (`sebi_documents.dfy`) is the JSON-lines chunk loader:
  - the word-count filter and the blank-text rule;
  - the document-type and year extraction from the PDF path;
  - the three selectors over the loaded documents.
- `SebiRag` (`sebi_rag.dfy`) is the post-processing of the question-answering system:
  - the document-type selection;
  - source records with the 200-character preview;
  - error replies;
  - the statistics.
- `Text`, `Collections` and `Wrappers` are helpers. They provide Python's ASCII `lower`/`upper`/`strip`, substring tests, string order, comprehensions and sorted keys, and `Option`/`Result`.

Escalation never passes level 2. The handler reads `escalation_level` from the stored complaint, which is 1 by the column default or by `get`'s default. It then writes the new status through `update_complaint_status`, which never writes the level. So every escalation that passes the access checks goes to level 2 and "escalated_l2". The "escalated_sebi" status and the "already at highest escalation level" refusal are unreachable. The model keeps this behaviour as written:
- the store invariant `Valid` states that every complaint's level is the default;
- `ScoresServer.Escalate` and `ScoresServer.EscalateTwice` prove the consequence;
- `ScoresRules.NextEscalation` gives the step the handler would take from any level.

## Model

| member | source | states |
|---|---|---|
| ScoresRules.AllowedFileIff | scores/app_scores.py:289-291 | a file name is accepted exactly when it has a dot and the text after its last dot, lower-cased, is one of the ten allowed extensions |
| ScoresRules.LastIndexOf | scores/app_scores.py:291 | the position `rsplit('.', 1)` splits at: absent exactly when there is no dot, otherwise a dot with no dot after it |
| ScoresRules.AllowedExtensionIff | scores/app_scores.py:291 | the allow-list test is membership of the lower-cased extension in the ten allowed extensions |
| ScoresRules.AcceptsUpperCaseExtension | scores/app_scores.py:291 | "a.PDF" is accepted: the extension is compared lower-cased |
| ScoresRules.ChecksOnlyLastExtension | scores/app_scores.py:291 | "a.tar.gz" is refused: only the last extension counts |
| ScoresRules.RejectsNameWithoutDot | scores/app_scores.py:291 | "pdf" without a dot is refused |
| ScoresRules.AcceptsReportPdf | scores/app_scores.py:291 | "report.pdf" is accepted |
| ScoresRules.RejectsExe | scores/app_scores.py:291 | "tool.exe" is refused |
| ScoresRules.FirstMissingField | scores/app_scores.py:361-368 | no field is reported exactly when all five are non-empty; otherwise the reported one is the first empty field in the order name, pan, email, mobile, dob |
| ScoresRules.PanAcceptedIgnoresCase | scores/app_scores.py:371-372 | upper-casing before stripping does not change the length test: the PAN passes exactly when its stripped length is 10 |
| ScoresRules.ValidateRegistration | scores/app_scores.py:361-376 | a form is accepted exactly when every field is present and the stripped PAN has 10 characters; a missing field is reported before a bad PAN, and it is the first missing one |
| ScoresRules.UploadBoundaries | scores/app_scores.py:440-453 | a file of exactly 20 MiB passes, one byte more is too large, the type is checked before the size, and a file without a name is skipped |
| ScoresRules.FirstUploadProblemIff | scores/app_scores.py:440-453 | the per-file checks find no problem exactly when every file passes; a problem found is that of a file all of whose predecessors pass |
| ScoresRules.CheckUploads | scores/app_scores.py:432-460 | the upload loop returns the verdict of the upload rules: too many files, else the first failing file's error, else the names of the files with a name, in order |
| ScoresRules.UploadsVerdictIff | scores/app_scores.py:432-460 | the uploads are accepted exactly when there are at most 10 and every file passes; accepted uploads yield the saved names; a refusal of at most 10 files names a file whose predecessors all pass |
| ScoresRules.ReminderList | scores/app_scores.py:529-535 | each reminder is present exactly under its own day and status condition, and the reminders keep the order day 10, day 15, day 21 |
| ScoresRules.Reminders | scores/app_scores.py:529-535 | the handler's conditional appends build exactly that reminder list |
| ScoresRules.ReminderExamples | scores/app_scores.py:529-535 | day 14 "under_review" has no reminder, day 15 has the day-15 one, a resolved complaint never has one, day 21 "closed" has only the day-21 one |
| ScoresRules.RemindersMonotone | scores/app_scores.py:529-535 | a reminder once due stays due as the complaint ages with the same status |
| ScoresRules.NextEscalation | scores/app_scores.py:593-607 | levels 3 and above are refused; levels 1 and 2 step to the next level, with "escalated_l2" exactly from 1 and "escalated_sebi" exactly from 2, and the note names the new level |
| ScoresRules.CheckAccess | scores/app_scores.py:502-522 | credentials are checked first, then existence, then ownership; access is granted exactly to the authenticated owner |
| ScoresRules.CloseNotes | scores/app_scores.py:659 | every closing note starts with "Closed by user"; without feedback it is exactly "Closed by user", with feedback it is "Closed by user. Feedback: " followed by the feedback |
| ScoresRules.CloseNotesRoundTrip | scores/app_scores.py:659 | the feedback can be read back from the note: no feedback is lost |
| ScoresRules.CheckQuery | scores/app_scores.py:680-693 | the complaint server refuses a blank question before it looks at the availability of the knowledge system, and forwards the stripped question |
| Store.LastStatus | scores/app_scores.py:236-264 | the latest history status of a complaint is absent exactly when it has no history entry, and otherwise is the status of one of its entries |
| Store.LastStatusAppend | scores/app_scores.py:255-259 | appending a history entry changes the latest status of its own complaint only |
| Store.ComplaintStore.constructor | scores/app_scores.py:96-141 | a new database is empty and satisfies the invariant |
| Store.ComplaintStore.GetComplaint | scores/app_scores.py:219-234 | the complaint is returned exactly when it is stored |
| Store.ComplaintStore.OwnerOf | scores/app_scores.py:219-234 | the owner is known exactly when the complaint is stored, and is its `user_id` |
| Store.ComplaintStore.CreateUser | scores/app_scores.py:143-165 | the user is stored with the form's fields as given, the PAN included, and can then authenticate; nothing else changes |
| Store.ComplaintStore.CreateComplaint | scores/app_scores.py:180-217 | the complaint is stored as "submitted" at the default level, with one "Complaint submitted" history entry; the invariant is kept |
| Store.ComplaintStore.UpdateComplaintStatus | scores/app_scores.py:236-264 | only the status of an existing complaint changes, a history entry is appended even for an unknown id, the level is not written, and the call reports success |
| ScoresServer.Register | scores/app_scores.py:356-395 | registration succeeds exactly for an acceptable form and then stores it unnormalised; every refusal is 400 with the missing field's or the PAN's message and stores nothing |
| ScoresServer.Lodge | scores/app_scores.py:397-486 | 401 for bad credentials, then 400 for a missing text field, then the upload refusal; otherwise a "submitted" complaint with the saved file names and its history entry; a refusal changes nothing |
| ScoresServer.Track | scores/app_scores.py:493-559 | a denied request gets the denial's status and text; otherwise the stored complaint, its age and exactly the reminders due, with the store unchanged |
| ScoresServer.EscalationFromDefaultLevel | scores/app_scores.py:593-613 | from the default level the step is to level 2, "escalated_l2", with the note and message naming level 2 |
| ScoresServer.Escalate | scores/app_scores.py:561-624 | a denied request changes nothing; any other escalation answers level 2 and "escalated_l2", sets that status and appends its history entry, and leaves the level at its default |
| ScoresServer.Close | scores/app_scores.py:626-674 | a denied request changes nothing; otherwise the status becomes "closed" whatever it was, with the feedback note in the history |
| ScoresServer.EscalateTwice | scores/app_scores.py:593-609 | escalating the same complaint twice answers "escalated_l2" both times and never reaches "escalated_sebi" |
| ScoresServer.DenialRefusal | scores/app_scores.py:502-522 | a denial is a client error whose status tells the reasons apart: 401 exactly for bad credentials ("Invalid credentials"), 404 exactly for a missing complaint ("Complaint not found"), 403 exactly for another user's complaint ("Access denied") |
| WebApp.FallbackTopicIsFirstMatch | app.py:216-232 | the chain of keyword tests is the keyword table read top to bottom on the lower-cased question |
| WebApp.FallbackPriority | app.py:216-232 | registration or apply decides first, then compliance or reporting, then eligibility; an empty question gets the unavailable answer, in both directions |
| WebApp.FallbackIgnoresCase | app.py:221 | the letter case of the question never changes the answer |
| WebApp.RegistrationWins | app.py:223-224 | a registration keyword decides the answer whatever else the question says |
| WebApp.ComplianceBeforeEligibility | app.py:226-230 | without a registration keyword, compliance and reporting win over eligibility |
| WebApp.FallbackRegistrationCompliance | app.py:223-224 | "Registration compliance" in any case gets the registration answer |
| WebApp.FallbackReapply | app.py:223-224 | keywords match inside words: "reapply" gets the registration answer |
| WebApp.FallbackEligibilityReporting | app.py:226-227 | "Eligibility reporting" gets the compliance answer |
| WebApp.QueryRagGate | app.py:141-168 | an unavailable system answers 503 with `get_fallback_response`'s answer for the raw question before any check; then a body without a question, then a blank question, each exactly in its case; otherwise the stripped question is forwarded |
| WebApp.CheckOrderDiffers | app.py:143-150 | with the system down, an empty question gets 503 here but 400 from the complaint server |
| SebiDocuments.ExtractDocType | src/sebi_document_loader.py:102-113 | the type is one of four, and each is chosen exactly when its marker is the first of annual_report, mastercircular, faq found in the lower-cased path |
| SebiDocuments.ExtractDocTypeIgnoresCase | src/sebi_document_loader.py:104 | the letter case of the path never changes the type |
| SebiDocuments.SearchFrom | src/sebi_document_loader.py:127 | a pattern search finds the leftmost position where the pattern matches, or reports that it matches nowhere |
| SebiDocuments.FirstPatternMatch | src/sebi_document_loader.py:126-129 | the patterns are tried in order and the first that matches anywhere decides |
| SebiDocuments.ExtractYearIff | src/sebi_document_loader.py:115-131 | a year is found exactly when the path has four consecutive digits, and it is four digits taken from the path |
| SebiDocuments.ExtractYearLeftmost | src/sebi_document_loader.py:120-129 | when the first pattern that matches anywhere matches first at a position, the year is the four digits there |
| SebiDocuments.ExtractYearExample | src/sebi_document_loader.py:120-129 | in "x1999_2020-21" the short range wins over the earlier lone year: the year is "2020" |
| SebiDocuments.CreateDocument | src/sebi_document_loader.py:70-100 | a chunk gives no document exactly when its stripped text is empty; otherwise the stripped text, with the path, type, year and word count as metadata, and the chunk id, index, character count, quality score and file size copied from the record, each 0 or the empty string when absent |
| SebiDocuments.LoadAccounting | src/sebi_document_loader.py:37-57 | every decoded line is exactly one of: kept, below the word count, blank, or failing; together they make the decoded-line count |
| SebiDocuments.LoadedDocumentsAppend | src/sebi_document_loader.py:37-57 | loading lines one after another gives the two loads concatenated |
| SebiDocuments.LoadedDocumentsSound | src/sebi_document_loader.py:43-50 | every loaded document has non-empty content, at least the minimum word count, and comes from a chunk of the input |
| SebiDocuments.DocumentLoader.constructor | src/sebi_document_loader.py:17-22 | a loader starts with its file, its word-count floor (30 unless given) and no documents |
| SebiDocuments.DocumentLoader.Load | src/sebi_document_loader.py:24-68 | a missing file, and a file whose reading raises, are each their own error and change nothing; otherwise the documents of the lines in order, kept as the loader's documents, with the decoded-line and filtered counts |
| SebiDocuments.DocumentLoader.DocumentsByType | src/sebi_document_loader.py:133-135 | the loaded documents of that type, in order, each as many times as it was loaded, and no others |
| SebiDocuments.DocumentLoader.DocumentsByYear | src/sebi_document_loader.py:137-139 | the loaded documents with that year, in order, each as many times as it was loaded; those without a year never match |
| SebiDocuments.DocumentLoader.HighQualityDocuments | src/sebi_document_loader.py:141-144 | the loaded documents whose quality score is at least the threshold (70 unless given), in order, each as many times as it was loaded |
| SebiDocuments.HighQualityDefault | src/sebi_document_loader.py:141-144 | without a threshold the selection keeps exactly the loaded documents scoring at least 70 |
| SebiDocuments.HighQualityMonotone | src/sebi_document_loader.py:141-144 | a higher threshold keeps a subsequence of what a lower one keeps |
| SebiRag.SelectDocTypes | src/sebi_rag_system.py:76-84 | with a non-empty type list, exactly the documents of those types in order, each as many times as it occurs; with none or an empty list, all documents |
| SebiRag.SelectNarrower | src/sebi_rag_system.py:76-84 | selecting by a list and then by a narrower one is selecting by the narrower one |
| SebiRag.Preview | src/sebi_rag_system.py:238 | the preview is the content up to 200 characters, otherwise its first 200 characters and "...", so never longer than 203 |
| SebiRag.PreviewIdempotent | src/sebi_rag_system.py:238 | a preview of a preview is the same preview |
| SebiRag.PreviewUnchangedIff | src/sebi_rag_system.py:238 | the preview equals the content exactly when the content is short or already cut with "..." at 200 |
| SebiRag.SourceOf | src/sebi_rag_system.py:231-238 | a source record carries the document's path, type, year, chunk id, word count and quality score, and its preview |
| SebiRag.BuildSources | src/sebi_rag_system.py:229-239 | one source record per source document, in order |
| SebiRag.RagSystem.constructor | src/sebi_rag_system.py:27-40 | a new system has no documents, no vector store and no chain |
| SebiRag.RagSystem.LoadDocuments | src/sebi_rag_system.py:62-87 | the system's documents become the file's documents, with a word-count floor of 50 unless given, after the type selection; a missing or unreadable file is the loader's error and changes nothing |
| SebiRag.RagSystem.CreateVectorStore | src/sebi_rag_system.py:103-104 | the store can be built exactly when documents are loaded |
| SebiRag.RagSystem.Query | src/sebi_rag_system.py:209-257 | with neither a chain nor a store the query fails; a failing chain gives the error text with no sources; otherwise the answer or "No answer generated", one record per source, and a count equal to the sources |
| SebiRag.TypeCountsKeys | src/sebi_rag_system.py:269-272 | the types counted are exactly the types of the documents |
| SebiRag.YearCountsKeys | src/sebi_rag_system.py:275-277 | the years counted are exactly the years the documents have, None and "unknown" aside |
| SebiRag.TypeCountsValue | src/sebi_rag_system.py:269-272 | each type's count is the number of documents of that type, the length of `get_documents_by_type`'s answer for it |
| SebiRag.TypeCountsSum | src/sebi_rag_system.py:269-283 | the per-type counts add up to the number of documents |
| SebiRag.TotalWordsAppend | src/sebi_rag_system.py:279-280 | word totals add over concatenation |
| SebiRag.RagSystem.GetStats | src/sebi_rag_system.py:259-290 | an error exactly when nothing is loaded; otherwise the document count (the sum of the type counts), the word total, the type counts, and the years with documents in strictly increasing order, plus the readiness flags |
| Collections.SortedKeys | src/sebi_rag_system.py:287 | the keys in strictly increasing string order, each exactly once |
| Collections.Filter | src/sebi_document_loader.py:133-144 | a comprehension keeps exactly the elements that pass, in order |
| Collections.FilterMultiset | src/sebi_document_loader.py:133-144 | a comprehension keeps each passing element as many times as it occurs, and no failing one |
| Collections.FilterAppend | src/sebi_document_loader.py:133-144 | a comprehension over two lists joined is the two comprehensions joined |
| Collections.FilterCountLast | src/sebi_rag_system.py:269-272 | counting the elements that pass grows by one exactly when the next element passes |

## Left out

- Web plumbing is not modelled: routing, request parsing, JSON encoding, static files, CORS, health and log endpoints, and error handlers. Handlers take their request fields as parameters. A field missing from the request is the empty string.
- Exceptions that reach a handler's generic 500 reply are not modelled. This includes fields of the wrong JSON type, a `null` body, or a non-string question. Every handler is modelled only on well-typed input.
- ScoresServer.Lodge: the 200 MiB cap on a whole request (`MAX_CONTENT_LENGTH`) is not modelled. The server refuses a larger request when it first reads the form, before authentication, and answers with its generic error reply. The cap is exactly ten times the 20 MiB file limit, so ten files each at the limit, with the multipart overhead, are refused by the server, while ScoresRules.UploadsVerdictIff and ScoresRules.CheckUploads accept them.
- ScoresServer.Lodge, ScoresServer.Track, ScoresServer.Escalate and ScoresServer.Close: a missing `password` field is read as the empty string. For a known user id the server passes `None` to the password check, which raises, so it answers 500; the model answers 401 "Invalid credentials", which the server gives only for a password that is present and wrong, the empty one included.
- Store.ComplaintStore.CreateUser: the database drivers are not modelled, and neither is the schema's UNIQUE constraint on `pan`. A second user with the same PAN would make the server answer 500; the model stores it.
- User ids, complaint ids and passwords come from the clock and a random source, so they are parameters. Store.ComplaintStore.CreateComplaint and ScoresServer.Lodge require a complaint id not yet in use, and ScoresServer.Register a user id not yet in use. In the server a clashing id would end in the 500 reply. Password hashing with werkzeug is a foreign library, so authentication is modelled as password equality.
- ScoresServer.Track takes the age of the complaint in days as a parameter, because it comes from the wall clock. The `created_at` and `updated_at` timestamps are not modelled.
- ScoresRules.CheckUploads: saving files is not modelled. The saved name is the uploaded name, without `secure_filename` and the timestamp prefix. The files saved before a later file is refused stay on disk in the server; the model keeps no disk.
- The retrieval chain is outside the model: embeddings, the vector store, the language model, the prompt and the batch insertion. SebiRag.RagSystem.Query receives the chain's outcome as a parameter. SebiRag.RagSystem.CreateVectorStore models only the guard and readiness.
- Floating-point values are not modelled: `avg_words_per_doc` and the response times. The quality score is a `real`.
- Text handling is simplified:
  - Case mapping and `\d` are ASCII only. Python also maps non-ASCII letters and matches non-ASCII digits.
  - Strings are sequences of characters.
  - File reading and JSON decoding are not modelled. The input file arrives as missing, unreadable (an encoding or I/O error while reading), or its lines, and each line arrives already classified as undecodable, failing, or a chunk record.
- SebiDocuments.DocumentLoader.Load: the two counters are returned; the loader only logs them. A read failure part-way through the file is one outcome, whatever line it happens at, and the counters reached before it are not kept, since the loader raises and returns nothing.
- ScoresRules.PanAcceptedIgnoresCase: holds for the ASCII case mapping of the model only. Python's `upper()` can lengthen a non-ASCII string ("ß" becomes "SS"), so the server refuses "ABCDE1234ß" (eleven characters once upper-cased) and accepts "ABCDEFGHß", while the model does the opposite. ScoresRules.ValidateRegistration and ScoresServer.Register share this gap.
- SebiRag.SourceOf: source documents are modelled with every metadata key the loader sets. A retrieved document from an earlier, already populated vector-store collection may lack keys; the server then records "Unknown" (or 0) for them, which the model does not represent.
- Query logging, the interactive chat, the setup script, the launcher and the integration tests are not part of this model.
