/** The canned answer `answer_question` gives when no model is configured:
    a keyword classifier on the lower-cased question. */
module MockAnswers {
  import opened PyStrings

  /** The keys of the handler's `mock_answers` table. */
  datatype Topic = Risk | Terminate | Financial | Default

  const RiskWords: seq<string> := ["risk", "danger"]
  const TerminateWords: seq<string> := ["terminate", "exit", "leave"]
  const FinancialWords: seq<string> := ["financial", "money", "cost", "pay"]

  /** Some word of `words` occurs in `text`. */
  predicate MentionsAny(text: string, words: seq<string>) {
    exists i :: 0 <= i < |words| && Contains(text, words[i])
  }

  /** The topic the handler picks for a (stripped) question: risk words win
      over termination words, which win over money words; a question with
      none of them gets the default answer. Matching is on the lower-cased
      question. */
  function Route(question: string): (t: Topic)
    ensures var q := Lower(question);
      && (t == Risk <==> MentionsAny(q, RiskWords))
      && (t == Terminate <==> !MentionsAny(q, RiskWords) && MentionsAny(q, TerminateWords))
      && (t == Financial <==>
            !MentionsAny(q, RiskWords) && !MentionsAny(q, TerminateWords) && MentionsAny(q, FinancialWords))
      && (t == Default <==>
            !MentionsAny(q, RiskWords) && !MentionsAny(q, TerminateWords) && !MentionsAny(q, FinancialWords))
  {
    var q := Lower(question);
    assert MentionsAny(q, RiskWords) <==> Contains(q, "risk") || Contains(q, "danger") by {
      assert RiskWords[0] == "risk" && RiskWords[1] == "danger";
    }
    assert MentionsAny(q, TerminateWords) <==>
      Contains(q, "terminate") || Contains(q, "exit") || Contains(q, "leave") by {
      assert TerminateWords[0] == "terminate" && TerminateWords[1] == "exit" && TerminateWords[2] == "leave";
    }
    assert MentionsAny(q, FinancialWords) <==>
      Contains(q, "financial") || Contains(q, "money") || Contains(q, "cost") || Contains(q, "pay") by {
      assert FinancialWords[0] == "financial" && FinancialWords[1] == "money";
      assert FinancialWords[2] == "cost" && FinancialWords[3] == "pay";
    }
    if Contains(q, "risk") || Contains(q, "danger") then Risk
    else if Contains(q, "terminate") || Contains(q, "exit") || Contains(q, "leave") then Terminate
    else if Contains(q, "financial") || Contains(q, "money") || Contains(q, "cost") || Contains(q, "pay") then Financial
    else Default
  }

  /** A priority list of keyword groups, as an independent reference for
      the routing: the first group with a word in the text decides. */
  datatype Rule = Rule(words: seq<string>, topic: Topic)

  const Rules: seq<Rule> := [Rule(RiskWords, Risk), Rule(TerminateWords, Terminate), Rule(FinancialWords, Financial)]

  function FirstMatch(rules: seq<Rule>, text: string): Topic {
    if rules == [] then Default
    else if MentionsAny(text, rules[0].words) then rules[0].topic
    else FirstMatch(rules[1..], text)
  }

  /** The handler's if/elif chain is the first-match reading of the
      priority list. */
  lemma RouteIsFirstMatch(question: string)
    ensures Route(question) == FirstMatch(Rules, Lower(question))
  {
    var q := Lower(question);
    var rest := [Rule(TerminateWords, Terminate), Rule(FinancialWords, Financial)];
    assert Rules[1..] == rest && rest[1..] == [Rule(FinancialWords, Financial)];
    assert FirstMatch([], q) == Default;
    assert FirstMatch([Rule(FinancialWords, Financial)], q) ==
      if MentionsAny(q, FinancialWords) then Financial else Default;
    assert FirstMatch(rest, q) ==
      if MentionsAny(q, TerminateWords) then Terminate else FirstMatch(rest[1..], q);
    assert FirstMatch(Rules, q) ==
      if MentionsAny(q, RiskWords) then Risk else FirstMatch(rest, q);
  }

  /** Routing is case-insensitive: questions that differ only in the case of
      their letters get the same answer, and lower-casing the question first
      changes nothing. */
  lemma RouteIgnoresCase(a: string, b: string)
    requires SameIgnoringCase(a, b)
    ensures Route(a) == Route(b)
    ensures Route(Lower(a)) == Route(a)
  {
    LowerIgnoresCase(a, b);
    LowerIdempotent(a);
  }

  /** The answer text stored under each key of `mock_answers`. */
  function AnswerText(t: Topic): string {
    match t
    case Risk => "Based on the rental agreement, the main risks include: high daily late fees (₹500/day), significant early termination penalty (₹60,000), annual rent increases of 15%, and tenant responsibility for repairs up to ₹10,000."
    case Terminate => "You can terminate this contract early, but there are penalties: 3 months notice is required, and if you terminate within the first 12 months, you must pay a penalty of ₹60,000. After 18 months (lock-in period), you can exit with just the 3 months notice."
    case Financial => "Your financial obligations include: Monthly rent of ₹30,000, security deposit of ₹90,000, society maintenance charges of ₹2,500/month, electricity and water bills, potential repair costs up to ₹10,000, and possible parking fees of ₹3,000/month for a second vehicle."
    case Default => "I can help you understand any aspect of your legal document. Please ask specific questions about clauses, terms, risks, or obligations."
  }
}
