/**
 * The checks the web page performs around the pipeline: the blank-input
 * guards of both tabs and the consistency check of a generated item.
 * `json.loads` is a parameter returning `None` when it raises.
 */
module App {
  import opened Options
  import opened PyText
  import opened Documents
  import opened Rag

  /** A decoded JSON document as `json.loads` returns it (floats are not distinguished from integers). */
  datatype Json =
    | JNull
    | JBool(b: bool)
    | JNumber(n: int)
    | JString(s: string)
    | JArray(items: seq<Json>)
    | JObject(fields: map<string, Json>)

  /** The exception a failing step raises. */
  datatype Failure = DecodeError | AttributeError | TypeError

  /** The three outcomes of the item check: `ok` true, `ok` false, or the `except` branch. */
  datatype Verdict = ItemValid | ItemInconsistent | ItemError(cause: Failure)

  /** `not text.strip()`: the guard that refuses a blank input. */
  predicate IsBlank(text: string): (blank: bool)
    ensures blank <==> AllSpace(text)
  {
    StripEmptyIff(text);
    Strip(text) == ""
  }

  /** `"".join(items)`: defined only when every item is a string, otherwise a TypeError. */
  function JoinStrings(items: seq<Json>): (r: Option<string>)
    ensures r.Some? <==> AllStrings(items)
    ensures r.Some? && |items| >= 1 ==> |r.value| == TotalLength(StringsOf(items))
  {
    if AllStrings(items) then
      if |items| >= 1 then
        JoinLength("", StringsOf(items));
        Some(Join("", StringsOf(items)))
      else Some(Join("", StringsOf(items)))
    else None
  }

  predicate AllStrings(items: seq<Json>) {
    forall i :: 0 <= i < |items| ==> items[i].JString?
  }

  /** The texts of a list of JSON strings. */
  function StringsOf(items: seq<Json>): (texts: seq<string>)
    requires AllStrings(items)
    ensures |texts| == |items|
  {
    seq(|items|, i requires 0 <= i < |items| => items[i].s)
  }

  /**
   * The body of the `try` at the end of the generate tab, evaluated in Python's
   * order: `obj.get` fails unless `obj` is a dict; `isinstance(..., list)`
   * short-circuits on a missing or non-list `options`; the join fails on a
   * non-string option; `in` fails on a missing or non-string `answer_key`.
   */
  function CheckItem(parsed: Option<Json>): (v: Verdict)
    ensures parsed.None? <==> v == ItemError(DecodeError)
    ensures v == ItemValid ==> parsed.Some? && WellTyped(parsed.value)
    ensures parsed.Some? && !parsed.value.JObject? ==> v == ItemError(AttributeError)
  {
    match parsed
    case None => ItemError(DecodeError)
    case Some(obj) =>
      if !obj.JObject? then ItemError(AttributeError)
      else if !("options" in obj.fields && obj.fields["options"].JArray?) then ItemInconsistent
      else
        var key := if "answer_key" in obj.fields then Some(obj.fields["answer_key"]) else None;
        match JoinStrings(obj.fields["options"].items)
        case None => ItemError(TypeError)
        case Some(joined) =>
          if key.Some? && key.value.JString? then
            if IsSubstring(key.value.s, joined) then ItemValid else ItemInconsistent
          else ItemError(TypeError)
  }

  /** A dict whose `options` is a list of strings and whose `answer_key` is a string. */
  predicate WellTyped(obj: Json) {
    && obj.JObject?
    && "options" in obj.fields
    && obj.fields["options"].JArray?
    && AllStrings(obj.fields["options"].items)
    && "answer_key" in obj.fields
    && obj.fields["answer_key"].JString?
  }

  /** The options of a well-typed item concatenated with no separator. */
  function OptionsText(obj: Json): string
    requires WellTyped(obj)
  {
    Join("", StringsOf(obj.fields["options"].items))
  }

  /** The item is valid exactly when it is well typed and its key occurs in the joined options. */
  lemma CheckItemValidIff(parsed: Option<Json>)
    ensures CheckItem(parsed) == ItemValid <==>
      parsed.Some? && WellTyped(parsed.value)
      && IsSubstring(parsed.value.fields["answer_key"].s, OptionsText(parsed.value))
  {
  }

  /** "Inconsistent" means: a dict without a list of options, or a well-typed item whose key does not occur. */
  lemma CheckItemInconsistentIff(parsed: Option<Json>)
    ensures CheckItem(parsed) == ItemInconsistent <==>
      parsed.Some? && parsed.value.JObject?
      && (|| !("options" in parsed.value.fields && parsed.value.fields["options"].JArray?)
          || (WellTyped(parsed.value)
              && !IsSubstring(parsed.value.fields["answer_key"].s, OptionsText(parsed.value))))
  {
  }

  /** The error branch is taken on a decode failure, a non-dict, or a list of options that is not well typed. */
  lemma CheckItemErrorIff(parsed: Option<Json>)
    ensures CheckItem(parsed).ItemError? <==>
      || parsed.None?
      || !parsed.value.JObject?
      || ("options" in parsed.value.fields && parsed.value.fields["options"].JArray?
          && !WellTyped(parsed.value))
  {
  }

  function ExampleOptions(): seq<Json> {
    [JString("A) 1"), JString("B) 2"), JString("C) 3"), JString("D) 4"), JString("E) 5")]
  }

  function Item(options: seq<Json>, key: string): Json {
    JObject(map["options" := JArray(options), "answer_key" := JString(key)])
  }

  /** The verdict for a dict holding just `options` and `answer_key`. */
  lemma CheckItemOfItem(options: seq<Json>, key: string)
    ensures CheckItem(Some(Item(options, key))) ==
      if !AllStrings(options) then ItemError(TypeError)
      else if IsSubstring(key, Join("", StringsOf(options))) then ItemValid
      else ItemInconsistent
  {
  }

  const EXAMPLE_TEXTS: seq<string> := ["A) 1", "B) 2", "C) 3", "D) 4", "E) 5"]

  lemma ExampleOptionsTexts()
    ensures AllStrings(ExampleOptions()) && StringsOf(ExampleOptions()) == EXAMPLE_TEXTS
  {
  }

  /** With the example options, key "B" passes. */
  lemma CheckItemKeyB()
    ensures CheckItem(Some(Item(ExampleOptions(), "B"))) == ItemValid
  {
    CheckItemOfItem(ExampleOptions(), "B");
    ExampleOptionsTexts();
    var joined := Join("", EXAMPLE_TEXTS);
    assert joined == "A) 1" + "" + Join("", EXAMPLE_TEXTS[1..]);
    JoinStartsWithFirst("", EXAMPLE_TEXTS[1..]);
    assert joined[4] == 'B';
    OneCharSubstring('B', joined);
  }

  /** With the example options, key "F" is flagged as inconsistent. */
  lemma CheckItemKeyF()
    ensures CheckItem(Some(Item(ExampleOptions(), "F"))) == ItemInconsistent
  {
    CheckItemOfItem(ExampleOptions(), "F");
    ExampleOptionsTexts();
    var joined := Join("", EXAMPLE_TEXTS);
    if 'F' in joined {
      JoinChars("", EXAMPLE_TEXTS, 'F');
      assert false;
    }
    OneCharSubstring('F', joined);
  }

  /** The empty key passes against any list of string options. */
  lemma CheckItemEmptyKey(options: seq<Json>)
    requires AllStrings(options)
    ensures CheckItem(Some(Item(options, ""))) == ItemValid
  {
    CheckItemOfItem(options, "");
    EmptyIsSubstring(Join("", StringsOf(options)));
  }

  /** Neither the number of options nor the form of the key is checked: "2" passes against two options. */
  lemma CheckItemIgnoresShape()
    ensures CheckItem(Some(Item([JString("A) 1"), JString("B) 2")], "2"))) == ItemValid
  {
    var two := [JString("A) 1"), JString("B) 2")];
    CheckItemOfItem(two, "2");
    var texts := ["A) 1", "B) 2"];
    assert StringsOf(two) == texts;
    assert Join("", texts) == "A) 1" + "" + "B) 2";
    assert Join("", texts)[7] == '2';
    OneCharSubstring('2', Join("", texts));
  }

  /** Missing options give "inconsistent"; a list at top level or a numeric option gives an error. */
  lemma CheckItemFailureExamples()
    ensures CheckItem(Some(JObject(map["answer_key" := JString("B")]))) == ItemInconsistent
    ensures CheckItem(Some(JArray(ExampleOptions()))) == ItemError(AttributeError)
    ensures CheckItem(Some(Item([JString("A) 1"), JNumber(2)], "A"))) == ItemError(TypeError)
    ensures CheckItem(None) == ItemError(DecodeError)
  {
    var bad := [JString("A) 1"), JNumber(2)];
    assert !bad[1].JString?;
  }

  /** What the solve tab shows after the button is pressed. */
  datatype SolveView = SolveWarning(warning: string) | Answered(answer: string, sources: seq<Document>)

  /** What the generate tab shows after the button is pressed. */
  datatype GenerateView =
    | GenerateWarning(warning: string)
    | Generated(itemJson: string, verdict: Verdict, sources: seq<Document>)

  const QUESTION_WARNING: string := "Isi dulu soalnya."
  const TOPIC_WARNING: string := "Isi dulu topik/kata kunci."

  /** The solve tab: a blank question is refused, anything else is passed on unstripped. */
  function SolveTab(q: string, retriever: string -> seq<Document>, llm: seq<Message> -> string): (v: SolveView)
    ensures v.SolveWarning? <==> AllSpace(q)
    ensures v.SolveWarning? ==> v.warning == QUESTION_WARNING
    ensures v.Answered? ==>
      v.sources == retriever(q) && v.answer == llm(SolveMessages(q, retriever(q)))
  {
    if IsBlank(q) then SolveWarning(QUESTION_WARNING)
    else
      var reply := SolveQuestion(q, retriever, llm);
      Answered(reply.content, reply.docs)
  }

  /** The generate tab: a blank topic is refused, otherwise the item is generated and checked. */
  function GenerateTab(t: string, retriever: string -> seq<Document>, llm: seq<Message> -> string,
                       parse: string -> Option<Json>): (v: GenerateView)
    ensures v.GenerateWarning? <==> AllSpace(t)
    ensures v.GenerateWarning? ==> v.warning == TOPIC_WARNING
    ensures v.Generated? ==>
      && v.sources == retriever(t)
      && v.itemJson == llm(GenerateMessages(t, retriever(t)))
      && v.verdict == CheckItem(parse(v.itemJson))
  {
    if IsBlank(t) then GenerateWarning(TOPIC_WARNING)
    else
      var reply := GenerateItem(t, retriever, llm);
      Generated(reply.content, CheckItem(parse(reply.content)), reply.docs)
  }

  /** A blank question never reaches the pipeline: retriever and model cannot affect what is shown. */
  lemma BlankQuestionSkipsPipeline(q: string,
                                   r1: string -> seq<Document>, l1: seq<Message> -> string,
                                   r2: string -> seq<Document>, l2: seq<Message> -> string)
    requires AllSpace(q)
    ensures SolveTab(q, r1, l1) == SolveTab(q, r2, l2) == SolveWarning(QUESTION_WARNING)
  {
  }

  /** A blank topic never reaches the pipeline nor the parser. */
  lemma BlankTopicSkipsPipeline(t: string,
                                r1: string -> seq<Document>, l1: seq<Message> -> string, p1: string -> Option<Json>,
                                r2: string -> seq<Document>, l2: seq<Message> -> string, p2: string -> Option<Json>)
    requires AllSpace(t)
    ensures GenerateTab(t, r1, l1, p1) == GenerateTab(t, r2, l2, p2) == GenerateWarning(TOPIC_WARNING)
  {
  }
}
