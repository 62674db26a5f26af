/**
 * The main web application's own decisions: the keyword fallback answer
 * given when the knowledge system cannot answer, and the order of the
 * checks on a `/api/query` request before it is forwarded.
 */
module WebApp {
  import opened Wrappers
  import opened Text
  import ScoresRules

  // ------------------------------------------------------------------
  // Fallback answers
  // ------------------------------------------------------------------

  /** Which of the fixed fallback answers a question gets. */
  datatype Topic = NoQuestion | Registration | Compliance | Eligibility | General

  const UnavailableAnswer :=
    "I'm sorry, but the system is currently unavailable. Please try again later or contact SEBI directly."
  const RegistrationAnswer :=
    "For SEBI registration information, please visit the official SEBI website at www.sebi.gov.in or contact SEBI's intermediary registration department. The registration process typically involves eligibility verification, document submission, and approval from SEBI."
  const ComplianceAnswer :=
    "SEBI compliance requirements are detailed in various master circulars available on the official SEBI website. Intermediaries must maintain proper records, submit periodic reports, and adhere to regulatory guidelines. Please refer to the latest SEBI circulars for specific requirements."
  const EligibilityAnswer :=
    "Eligibility criteria for SEBI registration vary by intermediary type. Please check the specific requirements for your category on the SEBI website or consult with a regulatory expert. Common requirements include minimum net worth, qualified personnel, and proper infrastructure."
  const GeneralAnswer :=
    "I'm currently unable to access detailed regulatory information. Please visit the official SEBI website (www.sebi.gov.in) for the most current regulations and guidelines, or consult with qualified regulatory professionals for specific advice."

  /** `get_fallback_response`'s answer for each classification. */
  function TopicAnswer(t: Topic): string {
    match t
    case NoQuestion => UnavailableAnswer
    case Registration => RegistrationAnswer
    case Compliance => ComplianceAnswer
    case Eligibility => EligibilityAnswer
    case General => GeneralAnswer
  }

  /**
   * The classification of `get_fallback_response`: no question, or the first
   * keyword group, in priority order, with a keyword inside the lower-cased
   * question.
   */
  function FallbackTopic(question: string): Topic {
    if question == "" then NoQuestion
    else
      var q := ToLower(question);
      if Contains(q, "registration") || Contains(q, "apply") then Registration
      else if Contains(q, "compliance") || Contains(q, "reporting") then Compliance
      else if Contains(q, "eligibility") then Eligibility
      else General
  }

  /** The keyword groups with their answers, highest priority first. */
  const KeywordRules: seq<(seq<string>, Topic)> := [
    (["registration", "apply"], Registration),
    (["compliance", "reporting"], Compliance),
    (["eligibility"], Eligibility)
  ]

  /** Some keyword of the group occurs in `q`. */
  predicate AnyKeyword(q: string, keywords: seq<string>) {
    exists k :: 0 <= k < |keywords| && Contains(q, keywords[k])
  }

  /** A rule table read top to bottom: the first group that matches decides. */
  function FirstMatch(q: string, rules: seq<(seq<string>, Topic)>): Topic {
    if rules == [] then General
    else if AnyKeyword(q, rules[0].0) then rules[0].1
    else FirstMatch(q, rules[1..])
  }

  /** The chain of tests is the keyword table read in priority order. */
  lemma FallbackTopicIsFirstMatch(question: string)
    ensures FallbackTopic(question) == if question == "" then NoQuestion else FirstMatch(ToLower(question), KeywordRules)
  {
    if question != "" {
      var q := ToLower(question);
      var rules := KeywordRules;
      assert rules[1..][0] == rules[1] && rules[2..][0] == rules[2] && rules[1..][1..] == rules[2..];
      assert rules[2..][1..] == [];
      assert AnyKeyword(q, rules[0].0) <==> Contains(q, "registration") || Contains(q, "apply") by {
        assert rules[0].0[0] == "registration" && rules[0].0[1] == "apply";
      }
      assert AnyKeyword(q, rules[1].0) <==> Contains(q, "compliance") || Contains(q, "reporting") by {
        assert rules[1].0[0] == "compliance" && rules[1].0[1] == "reporting";
      }
      assert AnyKeyword(q, rules[2].0) <==> Contains(q, "eligibility") by {
        assert rules[2].0[0] == "eligibility";
      }
      assert FirstMatch(q, rules[2..]) == if AnyKeyword(q, rules[2].0) then Eligibility else General;
      assert FirstMatch(q, rules[1..]) == if AnyKeyword(q, rules[1].0) then Compliance else FirstMatch(q, rules[2..]);
    }
  }

  /**
   * The priority order: a registration keyword anywhere decides the topic
   * whatever else the question says; compliance and reporting come before
   * eligibility; the generic answer is given when no keyword occurs.
   */
  lemma FallbackPriority(question: string)
    ensures var q := ToLower(question);
      && (FallbackTopic(question) == Registration <==>
            question != "" && (Contains(q, "registration") || Contains(q, "apply")))
      && (FallbackTopic(question) == Compliance <==>
            question != "" && !Contains(q, "registration") && !Contains(q, "apply")
            && (Contains(q, "compliance") || Contains(q, "reporting")))
      && (FallbackTopic(question) == Eligibility <==>
            question != "" && !Contains(q, "registration") && !Contains(q, "apply")
            && !Contains(q, "compliance") && !Contains(q, "reporting") && Contains(q, "eligibility"))
      && (FallbackTopic(question) == NoQuestion <==> question == "")
  {
  }

  /** Matching is on the lower-cased text, so the letter case of the question never matters. */
  lemma FallbackIgnoresCase(question: string)
    ensures FallbackTopic(ToLower(question)) == FallbackTopic(question)
  {
    ToLowerIdempotent(question);
  }

  /** A registration keyword anywhere decides the topic, whatever else the question says. */
  lemma RegistrationWins(question: string)
    requires Contains(ToLower(question), "registration") || Contains(ToLower(question), "apply")
    ensures FallbackTopic(question) == Registration
  {
  }

  /** Without a registration keyword, compliance and reporting are tested before eligibility. */
  lemma ComplianceBeforeEligibility(question: string)
    requires !Contains(ToLower(question), "registration") && !Contains(ToLower(question), "apply")
    requires Contains(ToLower(question), "compliance") || Contains(ToLower(question), "reporting")
    ensures FallbackTopic(question) == Compliance
  {
  }

  lemma RegistrationComplianceKeywords(q: string)
    requires q == "registration compliance"
    ensures Contains(q, "registration")
  {
    ContainsAt(q, "registration", 0);
  }

  lemma ReapplyKeywords(q: string)
    requires q == "how do i reapply?"
    ensures Contains(q, "apply")
  {
    ContainsAt(q, "apply", 11);
  }

  lemma EligibilityReportingKeywords(q: string)
    requires q == "eligibility reporting"
    ensures !Contains(q, "registration") && !Contains(q, "apply") && Contains(q, "reporting")
  {
    NotContainsMissingChar(q, "registration", 's');
    NotContainsMissingChar(q, "apply", 'a');
    ContainsAt(q, "reporting", 12);
  }

  /** "Registration compliance", in any letter case, gets the registration answer. */
  lemma FallbackRegistrationCompliance(question: string)
    requires ToLower(question) == "registration compliance"
    ensures FallbackTopic(question) == Registration
  {
    RegistrationComplianceKeywords(ToLower(question));
    RegistrationWins(question);
  }

  /** Keywords match inside words: "reapply" contains "apply". */
  lemma FallbackReapply(question: string)
    requires ToLower(question) == "how do i reapply?"
    ensures FallbackTopic(question) == Registration
  {
    ReapplyKeywords(ToLower(question));
    RegistrationWins(question);
  }

  /** "Eligibility reporting", in any letter case, gets the compliance answer. */
  lemma FallbackEligibilityReporting(question: string)
    requires ToLower(question) == "eligibility reporting"
    ensures FallbackTopic(question) == Compliance
  {
    EligibilityReportingKeywords(ToLower(question));
    ComplianceBeforeEligibility(question);
  }

  // ------------------------------------------------------------------
  // Checks on a query request
  // ------------------------------------------------------------------

  /** How `/api/query` answers before, or instead of, querying the knowledge system. */
  datatype QueryGate =
    | Unavailable(fallbackResponse: string)
    | InvalidRequest
    | EmptyQuestion
    | Forward(question: string)

  function GateStatusCode(g: QueryGate): int {
    match g
    case Unavailable(_) => 503
    case InvalidRequest => 400
    case EmptyQuestion => 400
    case Forward(_) => 200
  }

  /** `request.json.get('question', '')` when the body is JSON, otherwise the empty question. */
  function RequestQuestion(body: Option<map<string, string>>): string {
    if body.Some? && "question" in body.value then body.value["question"] else ""
  }

  /**
   * `query_rag`: an unavailable knowledge system is reported first, with
   * the fallback answer to whatever question came; then a body without a
   * question, then a question that is empty once stripped.
   */
  function QueryRagGate(ragAvailable: bool, body: Option<map<string, string>>): (r: QueryGate)
    ensures r.Unavailable? <==> !ragAvailable
    ensures r.Unavailable? ==> r.fallbackResponse == TopicAnswer(FallbackTopic(RequestQuestion(body)))
    ensures r == InvalidRequest <==> ragAvailable && (body.None? || "question" !in body.value)
    ensures r == EmptyQuestion <==>
      ragAvailable && body.Some? && "question" in body.value && Strip(body.value["question"]) == ""
    ensures r.Forward? ==>
      body.Some? && "question" in body.value && r.question == Strip(body.value["question"]) && r.question != ""
  {
    if !ragAvailable then Unavailable(TopicAnswer(FallbackTopic(RequestQuestion(body))))
    else if body.None? || "question" !in body.value then InvalidRequest
    else
      var question := Strip(body.value["question"]);
      if question == "" then EmptyQuestion else Forward(question)
  }

  /**
   * The two servers order their checks differently: with the knowledge
   * system down, an empty question gets 503 here but 400 from the
   * complaint server, which checks the question first.
   */
  lemma CheckOrderDiffers()
    ensures GateStatusCode(QueryRagGate(false, Some(map["question" := ""]))) == 503
    ensures ScoresRules.CheckQuery("", false) == ScoresRules.QuestionRequired
  {
  }
}
