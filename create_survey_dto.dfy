/** The body of a create-survey request. */
module CreateSurveyDto {
  import opened Wrappers
  import opened ClassValidator
  import CreateQuestionDto

  /** `CreateSurveyDto`: `title` a non-empty string of at most 100
      characters; `description` optional, else a string; `questions`
      optional, else valid questions. */
  predicate Valid(body: map<string, Json>)
  {
    var title := Field(body, "title");
    var description := Field(body, "description");
    var questions := Field(body, "questions");
    IsNotEmpty(title) && IsString(title) && MaxLength(title, 100) &&
    (Skipped(description) || IsString(description)) &&
    (Skipped(questions) || Nested(questions, CreateQuestionDto.Valid))
  }

  /** A valid title is a non-empty string of at most 100 characters. */
  lemma ValidTitle(body: map<string, Json>)
    requires Valid(body)
    ensures "title" in body && body["title"].JString?
    ensures body["title"].s != "" && ValidatorLength(body["title"].s) <= 100
  {
  }

  /** 100 letters pass; 101 do not. */
  lemma TitleLimit()
    ensures Valid(map["title" := JString(seq(100, _ => 'a'))])
    ensures !Valid(map["title" := JString(seq(101, _ => 'a'))])
  {
    var ok := seq(100, _ => 'a');
    var long := seq(101, _ => 'a');
    assert forall i :: 0 <= i < |ok| ==> !IsPresentationSelector(ok[i]);
    assert forall i :: 0 <= i < |long| ==> !IsPresentationSelector(long[i]);
    assert ok != [];
  }
}
