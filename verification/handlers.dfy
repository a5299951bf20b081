/** The five POST handlers of app.py, put together from the validation
    prefix, the reply cleaning, the mock answers, the history context and
    the mock rewrite. The model client and `json.loads` are parameters. */
module Handlers {
  import opened PyJson
  import opened Validation
  import opened ModelReply
  import opened MockAnswers
  import opened HistoryContext
  import MockImprove

  /** The variable parts of the five prompts; the wording around them is
      not part of this model. */
  datatype Prompt =
    | SimplifyPrompt(document: string)
    | RedFlagsPrompt(document: string)
    | QaPrompt(document: string, context: string, question: string)
    | ImprovePrompt(contract: string)
    | SuggestionsPrompt(contract: string)

  /** The module-level `model`: None when no API key was found, otherwise a
      client whose `generate_content(prompt).text` gives the reply or
      raises. */
  datatype Model = Unconfigured | Configured(generate: Prompt -> Eval<string>)

  /** The handlers that answer with a fixed demo payload when no model is
      configured. */
  datatype Endpoint = SimplifyEndpoint | RedFlagsEndpoint | SuggestionsEndpoint

  datatype Response =
    | Ok(body: Value)                     // 200 with a JSON body
    | Canned(endpoint: Endpoint)          // 200 with the endpoint's demo payload
    | Error(status: int, message: string) // the status with {"error": message}

  const SimplifyFailed := "Failed to process document. Please try again."
  const RedFlagsFailed := "Failed to analyze document. Please try again."
  const QaFailed := "Failed to process question. Please try again."
  const ImproveFailed := "Failed to improve contract. Please try again."
  const SuggestionsFailed := "Failed to generate suggestions. Please try again."

  /** The answer of a validation prefix that did not accept: 400 with its
      message, or the catch-all's 500. */
  function Refuse<T>(c: Checked<T>, failed: string): Response
    requires !c.Accepted?
  {
    if c.Rejected? then Error(400, c.message) else Error(500, failed)
  }

  /** `simplify_document`. */
  function SimplifyDocument(body: Value, model: Model): (r: Response)
    ensures var c := ValidateText(body, DocumentWording);
      && (r.Error? && r.status == 400 <==> c.Rejected?)
      && (c.Rejected? ==> r.message == c.message)
      && (c.Accepted? && model.Unconfigured? ==> r == Canned(SimplifyEndpoint))
      && (c.Accepted? && model.Configured? && model.generate(SimplifyPrompt(c.value)).Returns? ==>
            r == Ok(Object(map["simplified_text" := Str(model.generate(SimplifyPrompt(c.value)).value)])))
      && (c.Faulted? ==> r == Error(500, SimplifyFailed))
      && (c.Accepted? && model.Configured? && model.generate(SimplifyPrompt(c.value)).Raises? ==>
            r == Error(500, SimplifyFailed))
      && (r.Error? && r.status != 400 ==> r == Error(500, SimplifyFailed))
  {
    match ValidateText(body, DocumentWording)
    case Accepted(document) =>
      (match model
       case Unconfigured => Canned(SimplifyEndpoint)
       case Configured(generate) =>
         match generate(SimplifyPrompt(document))
         case Returns(text) => Ok(Object(map["simplified_text" := Str(text)]))
         case Raises => Error(500, SimplifyFailed))
    case c => Refuse(c, SimplifyFailed)
  }

  /** `analyze_red_flags`: the cleaned reply parsed, or the one-entry
      fallback; a parsed value without a length makes the log line raise. */
  function AnalyzeRedFlags(body: Value, model: Model, parse: string -> Eval<Value>): (r: Response)
    ensures var c := ValidateText(body, DocumentWording);
      && (r.Error? && r.status == 400 <==> c.Rejected?)
      && (c.Rejected? ==> r.message == c.message)
      && (c.Accepted? && model.Unconfigured? ==> r == Canned(RedFlagsEndpoint))
      && (c.Accepted? && model.Configured? && model.generate(RedFlagsPrompt(c.value)).Returns? ==>
            var flags := RedFlags(parse, model.generate(RedFlagsPrompt(c.value)).value);
            r == if HasLen(flags) then Ok(flags) else Error(500, RedFlagsFailed))
      && (r.Ok? ==> HasLen(r.body))
      && (c.Faulted? ==> r == Error(500, RedFlagsFailed))
      && (c.Accepted? && model.Configured? && model.generate(RedFlagsPrompt(c.value)).Raises? ==>
            r == Error(500, RedFlagsFailed))
      && (r.Error? && r.status != 400 ==> r == Error(500, RedFlagsFailed))
  {
    match ValidateText(body, DocumentWording)
    case Accepted(document) =>
      (match model
       case Unconfigured => Canned(RedFlagsEndpoint)
       case Configured(generate) =>
         match generate(RedFlagsPrompt(document))
         case Returns(reply) =>
           var flags := RedFlags(parse, reply);
           if HasLen(flags) then Ok(flags) else Error(500, RedFlagsFailed)
         case Raises => Error(500, RedFlagsFailed))
    case c => Refuse(c, RedFlagsFailed)
  }

  /** `answer_question`: without a model, the canned answer for the
      question's topic, whatever the history; with one, the reply to a
      prompt carrying the context of the last three turns. */
  function AnswerQuestion(body: Value, model: Model, format: Value -> string): (r: Response)
    ensures var c := ValidateQa(body);
      && (r.Error? && r.status == 400 <==> c.Rejected?)
      && (c.Rejected? ==> r.message == c.message)
      && (c.Accepted? && model.Unconfigured? ==>
            r == Ok(Object(map["answer" := Str(AnswerText(Route(c.value.question)))])))
      && (c.Accepted? && model.Configured? && ContextOf(c.value.history, format).Returns? ==>
            var prompt := QaPrompt(c.value.document, ContextOf(c.value.history, format).value, c.value.question);
            r == match model.generate(prompt)
                 case Returns(answer) => Ok(Object(map["answer" := Str(answer)]))
                 case Raises => Error(500, QaFailed))
      && (c.Faulted? ==> r == Error(500, QaFailed))
      && (c.Accepted? && model.Configured? && ContextOf(c.value.history, format).Raises? ==>
            r == Error(500, QaFailed))
      && (r.Error? && r.status != 400 ==> r == Error(500, QaFailed))
  {
    match ValidateQa(body)
    case Accepted(request) =>
      (match model
       case Unconfigured => Ok(Object(map["answer" := Str(AnswerText(Route(request.question)))]))
       case Configured(generate) =>
         match ContextOf(request.history, format)
         case Raises => Error(500, QaFailed)
         case Returns(context) =>
           match generate(QaPrompt(request.document, context, request.question))
           case Returns(answer) => Ok(Object(map["answer" := Str(answer)]))
           case Raises => Error(500, QaFailed))
    case c => Refuse(c, QaFailed)
  }

  /** `improve_contract`: without a model, the three fixed substitutions on
      the stripped contract. */
  function ImproveContract(body: Value, model: Model): (r: Response)
    ensures var c := ValidateText(body, ContractWording);
      && (r.Error? && r.status == 400 <==> c.Rejected?)
      && (c.Rejected? ==> r.message == c.message)
      && (c.Accepted? && model.Unconfigured? ==>
            r == Ok(Object(map["improved_text" := Str(MockImprove.Improve(c.value))])))
      && (c.Accepted? && model.Configured? && model.generate(ImprovePrompt(c.value)).Returns? ==>
            r == Ok(Object(map["improved_text" := Str(model.generate(ImprovePrompt(c.value)).value)])))
      && (c.Faulted? ==> r == Error(500, ImproveFailed))
      && (c.Accepted? && model.Configured? && model.generate(ImprovePrompt(c.value)).Raises? ==>
            r == Error(500, ImproveFailed))
      && (r.Error? && r.status != 400 ==> r == Error(500, ImproveFailed))
  {
    match ValidateText(body, ContractWording)
    case Accepted(contract) =>
      (match model
       case Unconfigured => Ok(Object(map["improved_text" := Str(MockImprove.Improve(contract))]))
       case Configured(generate) =>
         match generate(ImprovePrompt(contract))
         case Returns(text) => Ok(Object(map["improved_text" := Str(text)]))
         case Raises => Error(500, ImproveFailed))
    case c => Refuse(c, ImproveFailed)
  }

  /** `get_suggestions`: the cleaned reply parsed, or the one-entry
      fallback, under the key "suggestions". */
  function GetSuggestions(body: Value, model: Model, parse: string -> Eval<Value>): (r: Response)
    ensures var c := ValidateText(body, ContractWording);
      && (r.Error? && r.status == 400 <==> c.Rejected?)
      && (c.Rejected? ==> r.message == c.message)
      && (c.Accepted? && model.Unconfigured? ==> r == Canned(SuggestionsEndpoint))
      && (c.Accepted? && model.Configured? && model.generate(SuggestionsPrompt(c.value)).Returns? ==>
            var suggestions := Suggestions(parse, model.generate(SuggestionsPrompt(c.value)).value);
            r == if HasLen(suggestions) then Ok(Object(map["suggestions" := suggestions]))
                 else Error(500, SuggestionsFailed))
      && (c.Faulted? ==> r == Error(500, SuggestionsFailed))
      && (c.Accepted? && model.Configured? && model.generate(SuggestionsPrompt(c.value)).Raises? ==>
            r == Error(500, SuggestionsFailed))
      && (r.Error? && r.status != 400 ==> r == Error(500, SuggestionsFailed))
  {
    match ValidateText(body, ContractWording)
    case Accepted(contract) =>
      (match model
       case Unconfigured => Canned(SuggestionsEndpoint)
       case Configured(generate) =>
         match generate(SuggestionsPrompt(contract))
         case Returns(reply) =>
           var suggestions := Suggestions(parse, reply);
           if HasLen(suggestions) then Ok(Object(map["suggestions" := suggestions]))
           else Error(500, SuggestionsFailed)
         case Raises => Error(500, SuggestionsFailed))
    case c => Refuse(c, SuggestionsFailed)
  }
}
