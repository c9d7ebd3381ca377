/** The body of an edit-survey request. */
module UpdateSurveyDto {
  import opened Wrappers
  import opened ClassValidator

  /** `UpdateSurveyDto`: `title` optional, else a string of at most 100
      characters; `description` optional, else a string. */
  predicate Valid(body: map<string, Json>)
  {
    var title := Field(body, "title");
    var description := Field(body, "description");
    (Skipped(title) || (IsString(title) && MaxLength(title, 100))) &&
    (Skipped(description) || IsString(description))
  }

  /** A title present in a valid patch is a string of at most 100
      characters, and may be empty. */
  lemma ValidTitle(body: map<string, Json>)
    requires Valid(body) && "title" in body && body["title"] != JNull
    ensures body["title"].JString? && ValidatorLength(body["title"].s) <= 100
  {
  }

  /** The empty patch is valid, and so is an empty title. */
  lemma EmptyPatchAccepted()
    ensures Valid(map[])
    ensures Valid(map["title" := JString("")])
  {
  }

  /** A title over the limit is refused, as is a title that is not a string. */
  lemma BadTitleRefused()
    ensures !Valid(map["title" := JString(seq(101, _ => 'a'))])
    ensures !Valid(map["title" := JNumber(1)])
  {
    var long := seq(101, _ => 'a');
    assert forall i :: 0 <= i < |long| ==> !IsPresentationSelector(long[i]);
  }
}
