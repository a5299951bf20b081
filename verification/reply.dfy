/** What `analyze_red_flags` and `get_suggestions` do with the model's reply
    before they answer: strip whitespace, strip a Markdown code fence, parse
    it as JSON, and fall back to a fixed list when it does not parse. */
module ModelReply {
  import opened PyStrings
  import opened PyJson

  /** The opening fence the handlers look for, and the closing one. */
  const JsonFence := "```json"
  const Fence := "```"

  /** `body` wrapped in an opening and/or a closing fence. */
  function Fenced(body: string, opening: bool, closing: bool): string {
    (if opening then JsonFence else "") + body + (if closing then Fence else "")
  }

  /** Adding an opening fence cannot make a short text end with a closing
      fence: the last letters of "json" are in the way. */
  lemma {:induction false} SuffixAfterOpening(a: string)
    ensures HasSuffix(JsonFence + a, Fence) <==> HasSuffix(a, Fence)
  {
    var s := JsonFence + a;
    if |a| >= 3 {
      assert s[|s| - 3..] == a[|a| - 3..];
    } else {
      assert s[|s| - 3] == JsonFence[4 + |a|];
    }
  }

  /** Likewise a closing fence cannot complete an opening one. */
  lemma {:induction false} PrefixBeforeClosing(a: string)
    ensures HasPrefix(a + Fence, JsonFence) <==> HasPrefix(a, JsonFence)
  {
    var s := a + Fence;
    if |a| >= 7 {
      assert s[..7] == a[..7];
    } else if |a| >= 4 {
      assert s[|a|] == '`';
      assert JsonFence[|a|] != '`';
    }
  }

  /** The fence stripping of app.py: drop the first 7 characters when the
      text starts with "```json", then the last 3 when what is left ends
      with "```". The text is exactly the result with an opening fence put
      back iff it started with one and a closing fence put back iff it ended
      with one, so nothing but those fences is ever removed. */
  function StripFences(reply: string): (r: string)
    ensures reply == Fenced(r, HasPrefix(reply, JsonFence), HasSuffix(reply, Fence))
    ensures |reply| - 10 <= |r| <= |reply|
    ensures !HasPrefix(reply, JsonFence) && !HasSuffix(reply, Fence) ==> r == reply
  {
    var afterOpening := if HasPrefix(reply, JsonFence) then reply[7..] else reply;
    assert HasPrefix(reply, JsonFence) ==> reply == JsonFence + afterOpening;
    SuffixAfterOpening(afterOpening);
    if HasSuffix(afterOpening, Fence) then
      var r := afterOpening[..|afterOpening| - 3];
      assert afterOpening == r + Fence;
      r
    else afterOpening
  }

  lemma {:induction false} FencedPrefix(body: string, opening: bool, closing: bool)
    ensures HasPrefix(Fenced(body, opening, closing), JsonFence) <==> opening || HasPrefix(body, JsonFence)
  {
    var s := Fenced(body, opening, closing);
    if opening {
      assert s == JsonFence + (body + (if closing then Fence else ""));
    } else if closing {
      assert s == body + Fence;
      PrefixBeforeClosing(body);
    } else {
      assert s == body;
    }
  }

  lemma {:induction false} FencedSuffix(body: string, opening: bool, closing: bool)
    ensures HasSuffix(Fenced(body, opening, closing), Fence) <==> closing || HasSuffix(body, Fence)
  {
    var s := Fenced(body, opening, closing);
    if closing {
      assert s == ((if opening then JsonFence else "") + body) + Fence;
    } else if opening {
      assert s == JsonFence + body;
      SuffixAfterOpening(body);
    } else {
      assert s == body;
    }
  }

  /** Stripping undoes fencing exactly when the body does not itself carry
      a fence where none was added: the round trip of the reply format the
      prompts ask the model for. */
  lemma StripFencesOfFenced(body: string, opening: bool, closing: bool)
    ensures StripFences(Fenced(body, opening, closing)) == body <==>
      (opening || !HasPrefix(body, JsonFence)) && (closing || !HasSuffix(body, Fence))
  {
    var s := Fenced(body, opening, closing);
    FencedPrefix(body, opening, closing);
    FencedSuffix(body, opening, closing);
    var r := StripFences(s);
    var p, q := HasPrefix(s, JsonFence), HasSuffix(s, Fence);
    assert |s| == (if opening then 7 else 0) + |body| + (if closing then 3 else 0);
    assert |s| == (if p then 7 else 0) + |r| + (if q then 3 else 0);
    if p == opening && q == closing {
      var lead := if opening then 7 else 0;
      assert r == s[lead..lead + |r|];
      assert body == s[lead..lead + |body|];
    }
  }

  /** The text handed to `json.loads`: `response.text.strip()` with its
      fences removed. */
  function Cleaned(reply: string): string {
    StripFences(Strip(reply))
  }

  /** A reply that is a fenced JSON text, with any whitespace around it,
      reaches the parser as that text alone. */
  lemma CleanedFencedReply(before: string, body: string, after: string)
    requires AllSpace(before) && AllSpace(after)
    ensures Cleaned(before + Fenced(body, true, true) + after) == body
  {
    var fenced := Fenced(body, true, true);
    assert fenced[0] == '`' && fenced[|fenced| - 1] == '`';
    StripPadded(before, fenced, after);
    StripFencesOfFenced(body, true, true);
  }

  /** A reply the parser accepts is used as it is; one it rejects is
      replaced by the handler's fixed fallback. */
  function ParseOr(parse: string -> Eval<Value>, reply: string, fallback: Value): Value {
    match parse(Cleaned(reply))
    case Returns(v) => v
    case Raises => fallback
  }

  /** The risk levels a red flag can carry. */
  predicate IsRiskLevel(v: Value) {
    v == Str("safe") || v == Str("moderate") || v == Str("dangerous")
  }

  /** One entry of the red-flag list: a clause, its risk and why. */
  predicate IsRedFlag(v: Value) {
    && v.Object?
    && "clause" in v.fields && v.fields["clause"].Str?
    && "explanation" in v.fields && v.fields["explanation"].Str?
    && "risk" in v.fields && IsRiskLevel(v.fields["risk"])
  }

  /** One entry of the suggestion list: a title and a description. */
  predicate IsSuggestion(v: Value) {
    && v.Object?
    && "title" in v.fields && v.fields["title"].Str?
    && "description" in v.fields && v.fields["description"].Str?
  }

  const RedFlagsFallback: Value := Array([Object(map[
    "clause" := Str("Unable to parse contract clauses"),
    "risk" := Str("moderate"),
    "explanation" := Str("There was an issue analyzing your contract. Please try uploading again or contact support.")
  ])])

  const SuggestionsFallback: Value := Array([Object(map[
    "title" := Str("Review Contract Terms"),
    "description" := Str("There was an issue analyzing your contract. Please try again or contact support.")
  ])])

  /** The red flags `analyze_red_flags` answers with, given the reply: the
      parsed value unchanged, or exactly one moderate-risk entry saying the
      clauses could not be parsed. */
  function RedFlags(parse: string -> Eval<Value>, reply: string): (flags: Value)
    ensures parse(Cleaned(reply)).Returns? ==> flags == parse(Cleaned(reply)).value
    ensures parse(Cleaned(reply)).Raises? ==>
      && flags.Array? && |flags.items| == 1
      && IsRedFlag(flags.items[0])
      && flags.items[0].fields["risk"] == Str("moderate")
      && flags.items[0].fields["clause"] == Str("Unable to parse contract clauses")
    ensures parse(Cleaned(reply)).Raises? ==> flags == RedFlagsFallback
  {
    ParseOr(parse, reply, RedFlagsFallback)
  }

  /** The suggestions `get_suggestions` answers with, given the reply: the
      parsed value unchanged, or exactly one fixed "Review Contract Terms"
      suggestion. */
  function Suggestions(parse: string -> Eval<Value>, reply: string): (suggestions: Value)
    ensures parse(Cleaned(reply)).Returns? ==> suggestions == parse(Cleaned(reply)).value
    ensures parse(Cleaned(reply)).Raises? ==>
      && suggestions.Array? && |suggestions.items| == 1
      && IsSuggestion(suggestions.items[0])
      && suggestions.items[0].fields["title"] == Str("Review Contract Terms")
    ensures parse(Cleaned(reply)).Raises? ==> suggestions == SuggestionsFallback
  {
    ParseOr(parse, reply, SuggestionsFallback)
  }
}
