/** The validation prefix shared by the five POST handlers: each one either
    answers 400 with a fixed message, or goes on with the stripped text. */
module Validation {
  import opened PyStrings
  import opened PyJson

  /** The single-text handlers speak of a "document" (simplify, red flags)
      or of a "contract" (improve, suggestions). */
  datatype Wording = DocumentWording | ContractWording

  function MissingText(wording: Wording): string {
    match wording
    case DocumentWording => "No document text provided"
    case ContractWording => "No contract text provided"
  }

  function EmptyText(wording: Wording): string {
    match wording
    case DocumentWording => "Empty document text"
    case ContractWording => "Empty contract text"
  }

  const QaMissing := "Document text and question are required"
  const QaEmpty := "Both document text and question must be provided"

  /** How a validation prefix ends: a 400 answer with its message, an
      exception that the handler's catch-all turns into a 500, or the
      values the handler goes on with. */
  datatype Checked<T> = Rejected(message: string) | Faulted | Accepted(value: T)

  /** The Q&A handler's inputs once validated. */
  datatype QaRequest = QaRequest(document: string, question: string, history: Value)

  /** `key not in body` answers True without raising: a dict without the
      key, a list without the string, a str without the substring. */
  predicate Lacks(body: Value, key: string) {
    || (body.Object? && key !in body.fields)
    || (body.Array? && Str(key) !in body.items)
    || (body.Str? && !Contains(body.s, key))
  }

  /** `body[key]` is a str. */
  predicate StringField(body: Value, key: string) {
    body.Object? && key in body.fields && body.fields[key].Str?
  }

  /** The prefix of `simplify_document`, `analyze_red_flags`,
      `improve_contract` and `get_suggestions`: a falsy body or one without
      `text` is "missing"; a `text` that is only whitespace is "empty";
      otherwise the handler works on the stripped text. A `text` that is not
      a str, or a body that is a number, a boolean, a list or a str holding
      "text", raises. The missing check comes first, so a body without
      `text` is never reported as empty. */
  function ValidateText(body: Value, wording: Wording): (c: Checked<string>)
    ensures c == Rejected(MissingText(wording)) <==> !Truthy(body) || Lacks(body, "text")
    ensures c == Rejected(EmptyText(wording)) <==>
      StringField(body, "text") && AllSpace(body.fields["text"].s)
    ensures c.Accepted? <==> StringField(body, "text") && !AllSpace(body.fields["text"].s)
    ensures c.Accepted? ==> c.value == Strip(body.fields["text"].s) && c.value != []
    ensures c.Faulted? <==> Truthy(body) && !Lacks(body, "text") && !StringField(body, "text")
  {
    if !Truthy(body) then Rejected(MissingText(wording))
    else match In("text", body)
      case Raises => Faulted
      case Returns(present) =>
        if !present then Rejected(MissingText(wording))
        else match Subscript(body, "text")
          case Raises => Faulted
          case Returns(field) =>
            match StripValue(field)
            case Raises => Faulted
            case Returns(text) =>
              if text == [] then Rejected(EmptyText(wording)) else Accepted(text)
  }

  /** The prefix of `answer_question`: both `text` and `question` must be
      present, then both must be non-blank once stripped; `history`
      defaults to the empty list. */
  function ValidateQa(body: Value): (c: Checked<QaRequest>)
    ensures c == Rejected(QaMissing) <==>
      !Truthy(body) || Lacks(body, "text") || Lacks(body, "question")
    ensures c == Rejected(QaEmpty) <==>
      && StringField(body, "text") && StringField(body, "question")
      && (AllSpace(body.fields["text"].s) || AllSpace(body.fields["question"].s))
    ensures c.Accepted? <==>
      && StringField(body, "text") && StringField(body, "question")
      && !AllSpace(body.fields["text"].s) && !AllSpace(body.fields["question"].s)
    ensures c.Accepted? ==>
      && c.value.document == Strip(body.fields["text"].s)
      && c.value.question == Strip(body.fields["question"].s)
      && c.value.history == (if "history" in body.fields then body.fields["history"] else Array([]))
    ensures c.Faulted? <==>
      && Truthy(body) && !Lacks(body, "text") && !Lacks(body, "question")
      && !(StringField(body, "text") && StringField(body, "question"))
  {
    if !Truthy(body) then Rejected(QaMissing)
    else match In("text", body)
      case Raises => Faulted
      case Returns(hasText) =>
        if !hasText then Rejected(QaMissing)
        else match In("question", body)
          case Raises => Faulted
          case Returns(hasQuestion) =>
            if !hasQuestion then Rejected(QaMissing)
            else match (Subscript(body, "text"), Subscript(body, "question"))
              case (Returns(t), Returns(q)) =>
                (match (StripValue(t), StripValue(q))
                 case (Returns(document), Returns(question)) =>
                   var history := if "history" in body.fields then body.fields["history"] else Array([]);
                   if document == [] || question == [] then Rejected(QaEmpty)
                   else Accepted(QaRequest(document, question, history))
                 case _ => Faulted)
              case _ => Faulted
  }

  /** The body the client sends: `{"text": t}`. */
  function TextBody(t: string): Value {
    Object(map["text" := Str(t)])
  }

  /** A text the handler accepted passes again, unchanged, when it is sent
      on its own: validation is a normalisation. */
  lemma AcceptedTextRevalidates(body: Value, wording: Wording)
    requires ValidateText(body, wording).Accepted?
    ensures var text := ValidateText(body, wording).value;
      ValidateText(TextBody(text), wording) == Accepted(text)
  {
    var text := ValidateText(body, wording).value;
    StripIdempotent(body.fields["text"].s);
    assert !AllSpace(text) by { assert !IsSpace(text[0]); }
    assert TextBody(text).fields["text"].s == text;
  }

  /** The body the client sends for a question. */
  function QaBody(document: string, question: string, history: Value): Value {
    Object(map["text" := Str(document), "question" := Str(question), "history" := history])
  }

  lemma QaBodyFields(document: string, question: string, history: Value)
    ensures var body := QaBody(document, question, history);
      && StringField(body, "text") && body.fields["text"].s == document
      && StringField(body, "question") && body.fields["question"].s == question
      && "history" in body.fields && body.fields["history"] == history
  {
  }

  /** The same for the Q&A handler: the stripped document and question pass
      again unchanged, with the same history. */
  lemma AcceptedQaRevalidates(body: Value)
    requires ValidateQa(body).Accepted?
    ensures var r := ValidateQa(body).value;
      ValidateQa(QaBody(r.document, r.question, r.history)) == Accepted(r)
  {
    var r := ValidateQa(body).value;
    StripIdempotent(body.fields["text"].s);
    StripIdempotent(body.fields["question"].s);
    assert !AllSpace(r.document) by { assert !IsSpace(r.document[0]); }
    assert !AllSpace(r.question) by { assert !IsSpace(r.question[0]); }
    QaBodyFields(r.document, r.question, r.history);
  }
}
