/** The body of a create-question request, and each of its options. */
module CreateQuestionDto {
  import opened Wrappers
  import opened ClassValidator
  import opened Surveys

  /** `CreateOptionDto`: `text` a non-empty string. */
  predicate OptionValid(option: map<string, Json>)
  {
    IsNotEmpty(Field(option, "text")) && IsString(Field(option, "text"))
  }

  /** `CreateQuestionDto`: `text` and `type` non-empty strings; `options`
      optional, else an array of valid options. */
  predicate Valid(body: map<string, Json>)
  {
    var options := Field(body, "options");
    IsNotEmpty(Field(body, "text")) && IsString(Field(body, "text")) &&
    IsNotEmpty(Field(body, "type")) && IsString(Field(body, "type")) &&
    (Skipped(options) || (IsArray(options) && Nested(options, OptionValid)))
  }

  /** The service's view of a valid body: null or absent options are none. */
  function ToQuestionInput(body: map<string, Json>): (q: QuestionInput)
    requires Valid(body)
    ensures q.text != "" && q.kind != ""
    ensures q.options.None? <==> Skipped(Field(body, "options"))
    ensures q.options.Some? ==> |q.options.value| == |body["options"].items|
    ensures q.options.Some? ==> forall j :: 0 <= j < |q.options.value| ==> q.options.value[j] != ""
  {
    var options := Field(body, "options");
    QuestionInput(body["text"].s, body["type"].s,
      if Skipped(options) then None
      else Some(seq(|options.value.items|, j requires 0 <= j < |options.value.items| =>
                  options.value.items[j].fields["text"].s)))
  }

  /** A question built from a valid body passes the schema's `required`
      checks, and so do its options. */
  lemma ValidBodyMeetsSchema(body: map<string, Json>, id: string, optionIds: seq<string>)
    requires Valid(body)
    requires |optionIds| == |OptionTexts(ToQuestionInput(body))|
    ensures Schema.QuestionRequired(NewQuestionFrom(id, ToQuestionInput(body), optionIds))
    ensures forall j :: 0 <= j < |optionIds| ==>
              Schema.ChoiceRequired(NewQuestionFrom(id, ToQuestionInput(body), optionIds).options[j])
  {
  }

  /** Options are optional, but an empty text is refused. */
  lemma NoOptionsAccepted(text: string, kind: string)
    requires text != "" && kind != ""
    ensures Valid(map["text" := JString(text), "type" := JString(kind)])
    ensures !Valid(map["text" := JString(""), "type" := JString(kind)])
  {
  }
}
