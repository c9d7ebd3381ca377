/** The bodies of answer requests. */
module AnswersDto {
  import opened Wrappers
  import opened ClassValidator

  /** `AnswerDto`: `questionId` a non-empty string; `textAnswer` and
      `optionId` optional strings; `optionIds` an optional array of strings. */
  predicate AnswerValid(body: map<string, Json>)
  {
    var optionIds := Field(body, "optionIds");
    IsNotEmpty(Field(body, "questionId")) && IsString(Field(body, "questionId")) &&
    (Skipped(Field(body, "textAnswer")) || IsString(Field(body, "textAnswer"))) &&
    (Skipped(Field(body, "optionId")) || IsString(Field(body, "optionId"))) &&
    (Skipped(optionIds) || (IsArray(optionIds) && EachString(optionIds)))
  }

  /** `SubmitAnswersDto`: `questionId` and `optionId` non-empty Mongo ids. */
  predicate SubmitValid(body: map<string, Json>)
  {
    IsMongoId(Field(body, "questionId")) && IsNotEmpty(Field(body, "questionId")) &&
    IsMongoId(Field(body, "optionId")) && IsNotEmpty(Field(body, "optionId"))
  }

  /** Both ids of a valid submission are strings of 24 characters. */
  lemma SubmitIdsShape(body: map<string, Json>)
    requires SubmitValid(body)
    ensures "questionId" in body && body["questionId"].JString? && |body["questionId"].s| == 24
    ensures "optionId" in body && body["optionId"].JString? && |body["optionId"].s| == 24
  {
  }

  /** Only `questionId` is required of an answer; an array of option ids
      must hold strings only. */
  lemma AnswerShapes(q: string)
    requires q != ""
    ensures AnswerValid(map["questionId" := JString(q)])
    ensures !AnswerValid(map["questionId" := JString(q), "optionIds" := JArray([JNumber(1)])])
    ensures !AnswerValid(map["questionId" := JString("")])
  {
    var body := map["questionId" := JString(q), "optionIds" := JArray([JNumber(1)])];
    assert Field(body, "optionIds") == Some(JArray([JNumber(1)]));
    assert !EachString(Field(body, "optionIds")) by {
      assert !JArray([JNumber(1)]).items[0].JString?;
    }
  }
}
