/** The conversation context `answer_question` puts into its prompt: the
    last three turns of the history the client sent, as Q:/A: blocks. */
module HistoryContext {
  import opened PyJson

  const Header := "\n\nPrevious conversation:\n"

  /** One earlier exchange, as the client stores it. */
  datatype Turn = Turn(question: string, answer: string)

  /** The block appended for one turn. */
  function Block(t: Turn): (b: string)
    ensures |b| == |t.question| + |t.answer| + 9
  {
    "Q: " + t.question + "\nA: " + t.answer + "\n\n"
  }

  /** The blocks of several turns, in order. */
  function Blocks(turns: seq<Turn>): string {
    if turns == [] then "" else Blocks(turns[..|turns| - 1]) + Block(turns[|turns| - 1])
  }

  /** `xs[-3:]`: the last three elements, or all of them when there are
      fewer. */
  function LastThree<T>(xs: seq<T>): (r: seq<T>)
    ensures |r| == if |xs| < 3 then |xs| else 3
    ensures r == xs[|xs| - |r|..]
  {
    if |xs| <= 3 then xs else xs[|xs| - 3..]
  }

  /** The context for a history of well-formed turns: empty when there is
      no history, otherwise the header and the blocks of the last three
      turns in their original order. */
  function Transcript(turns: seq<Turn>): (context: string)
    ensures context == [] <==> turns == []
  {
    if turns == [] then ""
    else
      var recent := LastThree(turns);
      assert |Blocks(recent)| >= |Block(recent[|recent| - 1])|;
      Header + Blocks(recent)
  }

  /** Blocks are laid out front to back. */
  lemma {:induction false} BlocksCons(t: Turn, rest: seq<Turn>)
    ensures Blocks([t] + rest) == Block(t) + Blocks(rest)
    decreases |rest|
  {
    if rest != [] {
      var init := rest[..|rest| - 1];
      assert ([t] + rest)[..|rest|] == [t] + init;
      BlocksCons(t, init);
    }
  }

  lemma BlocksSnoc(turns: seq<Turn>, t: Turn)
    ensures Blocks(turns + [t]) == Blocks(turns) + Block(t)
  {
    assert (turns + [t])[..|turns|] == turns;
  }

  /** With three turns or more, the context is exactly the three most recent
      blocks, oldest first. */
  lemma TranscriptOfMany(turns: seq<Turn>)
    requires |turns| >= 3
    ensures var n := |turns|;
      Transcript(turns) == Header + Block(turns[n - 3]) + Block(turns[n - 2]) + Block(turns[n - 1])
  {
    var n := |turns|;
    var a, b, c := turns[n - 3], turns[n - 2], turns[n - 1];
    assert LastThree(turns) == [a, b, c];
    assert [a, b, c][..2] == [a, b] && [a, b][..1] == [a] && [a][..0] == [];
    assert Blocks([a]) == Block(a);
    assert Blocks([a, b]) == Block(a) + Block(b);
    assert Blocks([a, b, c]) == Block(a) + Block(b) + Block(c);
  }

  /** Turns older than the last three never reach the prompt. */
  lemma TranscriptIgnoresOlderTurns(older: seq<Turn>, recent: seq<Turn>)
    requires |recent| >= 3
    ensures Transcript(older + recent) == Transcript(recent)
  {
    var all := older + recent;
    assert LastThree(all) == LastThree(recent) by {
      assert all[|all| - 3..] == recent[|recent| - 3..];
    }
    TranscriptOfRecent(all);
    TranscriptOfRecent(recent);
  }

  lemma TranscriptOfRecent(turns: seq<Turn>)
    requires turns != []
    ensures Transcript(turns) == Header + Blocks(LastThree(turns))
  {
  }

  /** Python's formatting of a field inside an f-string: a str is itself,
      None and booleans have fixed spellings, and other values are rendered
      by `format` (Python's `str()` of a number, list or dict). */
  function Render(v: Value, format: Value -> string): string {
    match v
    case Str(s) => s
    case Null => "None"
    case Bool(b) => if b then "True" else "False"
    case _ => format(v)
  }

  /** `item['question']` and `item['answer']`: only a dict holding both
      keys gives a turn; anything else raises. */
  function TurnOf(item: Value, format: Value -> string): Eval<Turn> {
    if item.Object? && "question" in item.fields && "answer" in item.fields then
      Returns(Turn(Render(item.fields["question"], format), Render(item.fields["answer"], format)))
    else Raises
  }

  /** The turns read from `items` in order, or `Raises` when one of them is
      malformed. */
  function DecodeTurns(items: seq<Value>, format: Value -> string): (r: Eval<seq<Turn>>)
    ensures r.Returns? ==> |r.value| == |items|
  {
    if items == [] then Returns([])
    else
      match (DecodeTurns(items[..|items| - 1], format), TurnOf(items[|items| - 1], format))
      case (Returns(turns), Returns(t)) => Returns(turns + [t])
      case _ => Raises
  }

  /** Decoding reads item by item: each decoded turn is the turn of the
      item at the same place, and one malformed item spoils the lot. */
  lemma {:induction false} DecodeTurnsItems(items: seq<Value>, format: Value -> string)
    ensures DecodeTurns(items, format).Returns? <==>
      forall k :: 0 <= k < |items| ==> TurnOf(items[k], format).Returns?
    ensures DecodeTurns(items, format).Returns? ==>
      forall k :: 0 <= k < |items| ==> TurnOf(items[k], format) == Returns(DecodeTurns(items, format).value[k])
  {
    if items != [] {
      var init := items[..|items| - 1];
      DecodeTurnsItems(init, format);
      assert forall k :: 0 <= k < |init| ==> init[k] == items[k];
    }
  }

  /** Once a prefix of the items fails to decode, so do the items. */
  lemma {:induction false} DecodePrefixRaises(items: seq<Value>, format: Value -> string, n: nat)
    requires n <= |items| && DecodeTurns(items[..n], format).Raises?
    ensures DecodeTurns(items, format).Raises?
    decreases |items| - n
  {
    if n == |items| {
      assert items[..n] == items;
    } else {
      assert items[..n + 1][..n] == items[..n];
      DecodePrefixRaises(items, format, n + 1);
    }
  }

  /** Decoding one more item extends the decoded turns by its turn. */
  lemma DecodeStep(items: seq<Value>, format: Value -> string, n: nat, turns: seq<Turn>)
    requires n < |items| && DecodeTurns(items[..n], format) == Returns(turns)
    ensures DecodeTurns(items[..n + 1], format) ==
      match TurnOf(items[n], format)
      case Returns(t) => Returns(turns + [t])
      case Raises => Raises
  {
    assert items[..n + 1][..n] == items[..n];
  }

  /** Appending one block to a context extends it by that turn. */
  lemma AppendBlock(turns: seq<Turn>, t: Turn)
    ensures Header + Blocks(turns + [t]) == Header + Blocks(turns) + Block(t)
  {
    BlocksSnoc(turns, t);
  }

  /** The context the handler builds from the `history` value of the
      request, or `Raises` when one of the items it reads is malformed. */
  function ContextOf(history: Value, format: Value -> string): Eval<string> {
    if !Truthy(history) then Returns("")
    else if !history.Array? then Raises
    else
      match DecodeTurns(LastThree(history.items), format)
      case Returns(turns) => Returns(Header + Blocks(turns))
      case Raises => Raises
  }

  /** The loop of `answer_question`: start from "", and if the history is
      non-empty, append the header and then one block per item of
      `history[-3:]`. Slicing or subscripting something that is not a list
      of dicts raises. */
  method BuildContext(history: Value, format: Value -> string) returns (context: Eval<string>)
    ensures context == ContextOf(history, format)
  {
    var text := "";
    if Truthy(history) {
      text := Header;
      if !history.Array? {
        return Raises;
      }
      var recent := LastThree(history.items);
      ghost var turns: seq<Turn> := [];
      var i := 0;
      while i < |recent|
        invariant 0 <= i <= |recent|
        invariant DecodeTurns(recent[..i], format) == Returns(turns)
        invariant text == Header + Blocks(turns)
      {
        var turn := TurnOf(recent[i], format);
        DecodeStep(recent, format, i, turns);
        if turn.Raises? {
          DecodePrefixRaises(recent, format, i + 1);
          return Raises;
        }
        AppendBlock(turns, turn.value);
        text := text + Block(turn.value);
        turns := turns + [turn.value];
        i := i + 1;
      }
      assert recent[..i] == recent;
    }
    return Returns(text);
  }

  /** The history as the client sends it: a list of
      `{"question": ..., "answer": ...}` objects. */
  function Encode(turns: seq<Turn>): Value {
    Array(seq(|turns|, k requires 0 <= k < |turns| =>
      Object(map["question" := Str(turns[k].question), "answer" := Str(turns[k].answer)])))
  }

  /** For a history the client encoded, the handler's context is the
      transcript of the decoded turns: empty iff there are none, otherwise
      the header and the last three turns in order. */
  lemma ContextOfEncoded(turns: seq<Turn>, format: Value -> string)
    ensures ContextOf(Encode(turns), format) == Returns(Transcript(turns))
  {
    var history := Encode(turns);
    assert |history.items| == |turns|;
    if turns != [] {
      assert Truthy(history);
      EncodedTurnsDecode(turns, format);
      TranscriptOfRecent(turns);
    }
  }

  /** The encoding the client sends decodes back to its turns. */
  lemma {:induction false} DecodeEncoded(turns: seq<Turn>, format: Value -> string)
    ensures DecodeTurns(Encode(turns).items, format) == Returns(turns)
  {
    if turns != [] {
      var n := |turns| - 1;
      var items := Encode(turns).items;
      assert items[..n] == Encode(turns[..n]).items;
      DecodeEncoded(turns[..n], format);
      assert TurnOf(items[n], format) == Returns(turns[n]);
      assert turns[..n] + [turns[n]] == turns;
    }
  }

  /** The items of the last three encoded turns decode to those turns. */
  lemma EncodedTurnsDecode(turns: seq<Turn>, format: Value -> string)
    ensures DecodeTurns(LastThree(Encode(turns).items), format) == Returns(LastThree(turns))
  {
    assert LastThree(Encode(turns).items) == Encode(LastThree(turns)).items;
    DecodeEncoded(LastThree(turns), format);
  }
}
