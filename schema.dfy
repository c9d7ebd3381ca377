/** The survey documents: a Survey embeds an ordered list of Questions, and a
    Question embeds an ordered list of Options, each with a running vote count. */
module Schema {
  import opened Wrappers

  /** Document ids (ObjectIds), compared as their string form. */
  type UserId = string
  type SurveyId = string
  type QuestionId = string
  type OptionId = string

  /** The schema's Option sub-document: one answer choice and its tally. */
  datatype Choice = Choice(id: OptionId, text: string, count: nat)

  /** A Question sub-document; `kind` is the schema's free-form `type` tag. */
  datatype Question = Question(id: QuestionId, text: string, kind: string, options: seq<Choice>)

  /** A Survey document, without its `_id` (the store's key). `createdAt` is
      a time in milliseconds. */
  datatype Survey = Survey(
    title: string,
    description: Option<string>,
    creator: UserId,
    imageUrl: Option<string>,
    questions: seq<Question>,
    createdAt: int,
    isPublic: bool)

  /** A new Option takes the default count. */
  function NewChoice(id: OptionId, text: string): (c: Choice)
    ensures c.count == 0 && c.id == id && c.text == text
  {
    Choice(id, text, 0)
  }

  /** A new Question takes the default (empty) option list. */
  function NewQuestion(id: QuestionId, text: string, kind: string): (q: Question)
    ensures q.options == [] && q.id == id && q.text == text && q.kind == kind
  {
    Question(id, text, kind, [])
  }

  /** A new Survey takes the defaults: no questions, public, created now. */
  function NewSurvey(title: string, description: Option<string>, creator: UserId,
                     imageUrl: Option<string>, now: int): (s: Survey)
    ensures s.questions == [] && s.isPublic && s.createdAt == now
    ensures s.title == title && s.description == description
    ensures s.creator == creator && s.imageUrl == imageUrl
  {
    Survey(title, description, creator, imageUrl, [], now, true)
  }

  /** The `required: true` validators, which Mongoose runs when a document
      is created or saved; a required string must also be non-empty. */
  predicate ChoiceRequired(c: Choice) { c.text != "" }
  predicate QuestionRequired(q: Question) { q.text != "" && q.kind != "" }
  predicate SurveyRequired(s: Survey) { s.title != "" && s.creator != "" }

  /** Options built from `texts`, with the given fresh ids and count 0. */
  function ChoicesFrom(ids: seq<OptionId>, texts: seq<string>): (r: seq<Choice>)
    requires |ids| == |texts|
    ensures |r| == |texts|
    ensures forall j :: 0 <= j < |r| ==> r[j] == NewChoice(ids[j], texts[j])
  {
    seq(|texts|, j requires 0 <= j < |texts| => NewChoice(ids[j], texts[j]))
  }

  predicate DistinctIds(ids: seq<string>)
  {
    forall i, j :: 0 <= i < j < |ids| ==> ids[i] != ids[j]
  }

  function ChoiceIds(os: seq<Choice>): (r: seq<OptionId>)
    ensures |r| == |os| && forall j :: 0 <= j < |os| ==> r[j] == os[j].id
  {
    seq(|os|, j requires 0 <= j < |os| => os[j].id)
  }

  function QuestionIds(qs: seq<Question>): (r: seq<QuestionId>)
    ensures |r| == |qs| && forall i :: 0 <= i < |qs| ==> r[i] == qs[i].id
  {
    seq(|qs|, i requires 0 <= i < |qs| => qs[i].id)
  }

  /** Sub-document ids are ObjectIds, unique among their siblings. */
  predicate WellFormedQuestions(qs: seq<Question>)
  {
    DistinctIds(QuestionIds(qs)) && forall i :: 0 <= i < |qs| ==> DistinctIds(ChoiceIds(qs[i].options))
  }

  predicate WellFormed(s: Survey)
  {
    WellFormedQuestions(s.questions)
  }

  /** Some question of `qs` has id `qid`. */
  predicate HasQuestion(qs: seq<Question>, qid: QuestionId)
  {
    exists i :: 0 <= i < |qs| && qs[i].id == qid
  }

  /** Some option of `os` has id `oid`. */
  predicate HasChoiceIn(os: seq<Choice>, oid: OptionId)
  {
    exists j :: 0 <= j < |os| && os[j].id == oid
  }

  /** Question `qid` of `qs` has an option with id `oid`. */
  predicate HasChoice(qs: seq<Question>, qid: QuestionId, oid: OptionId)
  {
    exists i :: 0 <= i < |qs| && qs[i].id == qid && HasChoiceIn(qs[i].options, oid)
  }

  /** The votes cast on a list of options. */
  function ChoiceVotes(os: seq<Choice>): nat
  {
    if os == [] then 0 else os[0].count + ChoiceVotes(os[1..])
  }

  /** The votes cast on a list of questions. */
  function QuestionVotes(qs: seq<Question>): nat
  {
    if qs == [] then 0 else ChoiceVotes(qs[0].options) + QuestionVotes(qs[1..])
  }

  /** Every vote cast in a survey. */
  function TotalVotes(s: Survey): nat
  {
    QuestionVotes(s.questions)
  }

  /** Fresh options carry no votes. */
  lemma {:induction false} FreshChoicesHaveNoVotes(ids: seq<OptionId>, texts: seq<string>)
    requires |ids| == |texts|
    ensures ChoiceVotes(ChoicesFrom(ids, texts)) == 0
  {
    if texts != [] {
      FreshChoicesHaveNoVotes(ids[1..], texts[1..]);
      assert ChoicesFrom(ids, texts)[1..] == ChoicesFrom(ids[1..], texts[1..]);
    }
  }

  /** A survey built with the defaults holds no votes. */
  lemma NewSurveyHasNoVotes(title: string, description: Option<string>, creator: UserId,
                            imageUrl: Option<string>, now: int)
    ensures TotalVotes(NewSurvey(title, description, creator, imageUrl, now)) == 0
    ensures WellFormed(NewSurvey(title, description, creator, imageUrl, now))
  {
  }

  lemma {:induction false} QuestionVotesAppend(qs: seq<Question>, q: Question)
    ensures QuestionVotes(qs + [q]) == QuestionVotes(qs) + ChoiceVotes(q.options)
  {
    if qs != [] {
      QuestionVotesAppend(qs[1..], q);
      assert (qs + [q])[1..] == qs[1..] + [q];
    }
  }
}
