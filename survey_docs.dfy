/** The document-store updates the survey service issues on a survey's
    embedded questions, as functions on the question list: `$push` appends,
    `$pull` filters, `$set` and `$inc` with `arrayFilters` rewrite the
    matching elements. Also the two outcomes of an anonymous vote: the one
    the service computes as written and the one it evidently intends. */
module SurveyDocs {
  import opened Wrappers
  import opened Schema

  // ---------------------------------------------------------------- $inc

  /** `$inc` of `options.$[option].count` for every option with `_id == oid`. */
  function BumpChoices(os: seq<Choice>, oid: OptionId): (r: seq<Choice>)
    ensures |r| == |os|
    ensures forall j :: 0 <= j < |os| ==> r[j].id == os[j].id && r[j].text == os[j].text
    ensures forall j :: 0 <= j < |os| ==>
              r[j].count == if os[j].id == oid then os[j].count + 1 else os[j].count
  {
    if os == [] then []
    else
      var head := if os[0].id == oid then os[0].(count := os[0].count + 1) else os[0];
      [head] + BumpChoices(os[1..], oid)
  }

  /** `$inc` of `questions.$[question].options.$[option].count` with the
      array filters `question._id == qid` and `option._id == oid`. */
  function IncVote(qs: seq<Question>, qid: QuestionId, oid: OptionId): (r: seq<Question>)
    ensures |r| == |qs|
    ensures forall i :: 0 <= i < |qs| ==>
              r[i].id == qs[i].id && r[i].text == qs[i].text && r[i].kind == qs[i].kind
    ensures forall i :: 0 <= i < |qs| ==>
              r[i].options == if qs[i].id == qid then BumpChoices(qs[i].options, oid) else qs[i].options
  {
    if qs == [] then []
    else
      var head := if qs[0].id == qid then qs[0].(options := BumpChoices(qs[0].options, oid)) else qs[0];
      [head] + IncVote(qs[1..], qid, oid)
  }

  /** How many options of `os` the option filter matches. */
  function ChoiceHits(os: seq<Choice>, oid: OptionId): nat
  {
    if os == [] then 0 else (if os[0].id == oid then 1 else 0) + ChoiceHits(os[1..], oid)
  }

  /** How many (question, option) pairs the two array filters match. */
  function QuestionHits(qs: seq<Question>, qid: QuestionId, oid: OptionId): nat
  {
    if qs == [] then 0
    else (if qs[0].id == qid then ChoiceHits(qs[0].options, oid) else 0) + QuestionHits(qs[1..], qid, oid)
  }

  /** The increment adds one vote per matched option. */
  lemma {:induction false} BumpChoicesVotes(os: seq<Choice>, oid: OptionId)
    ensures ChoiceVotes(BumpChoices(os, oid)) == ChoiceVotes(os) + ChoiceHits(os, oid)
  {
    if os != [] {
      BumpChoicesVotes(os[1..], oid);
      assert BumpChoices(os, oid)[1..] == BumpChoices(os[1..], oid);
    }
  }

  lemma {:induction false} IncVoteVotes(qs: seq<Question>, qid: QuestionId, oid: OptionId)
    ensures QuestionVotes(IncVote(qs, qid, oid)) == QuestionVotes(qs) + QuestionHits(qs, qid, oid)
  {
    if qs != [] {
      IncVoteVotes(qs[1..], qid, oid);
      BumpChoicesVotes(qs[0].options, oid);
      assert IncVote(qs, qid, oid)[1..] == IncVote(qs[1..], qid, oid);
    }
  }

  lemma DistinctTail(ids: seq<string>)
    requires ids != [] && DistinctIds(ids)
    ensures DistinctIds(ids[1..])
    ensures forall k :: 0 <= k < |ids| - 1 ==> ids[1..][k] != ids[0]
  {
  }

  /** Among options with distinct ids the filter matches at most one. */
  lemma {:induction false} ChoiceHitsDistinct(os: seq<Choice>, oid: OptionId)
    requires DistinctIds(ChoiceIds(os))
    ensures ChoiceHits(os, oid) == if HasChoiceIn(os, oid) then 1 else 0
  {
    if os != [] {
      assert ChoiceIds(os[1..]) == ChoiceIds(os)[1..];
      DistinctTail(ChoiceIds(os));
      ChoiceHitsDistinct(os[1..], oid);
      if os[0].id == oid {
        assert !HasChoiceIn(os[1..], oid) by {
          forall j | 0 <= j < |os| - 1 ensures os[1..][j].id != oid {
            assert ChoiceIds(os)[1..][j] != ChoiceIds(os)[0];
          }
        }
      } else {
        assert HasChoiceIn(os, oid) <==> HasChoiceIn(os[1..], oid) by {
          if HasChoiceIn(os, oid) {
            var j :| 0 <= j < |os| && os[j].id == oid;
            assert os[1..][j - 1].id == oid;
          }
          if HasChoiceIn(os[1..], oid) {
            var j :| 0 <= j < |os| - 1 && os[1..][j].id == oid;
            assert os[j + 1].id == oid;
          }
        }
      }
    }
  }

  /** In a well-formed survey the two filters match at most one option:
      exactly one when question `qid` has option `oid`. */
  lemma {:induction false} QuestionHitsWellFormed(qs: seq<Question>, qid: QuestionId, oid: OptionId)
    requires WellFormedQuestions(qs)
    ensures QuestionHits(qs, qid, oid) == if HasChoice(qs, qid, oid) then 1 else 0
  {
    if qs != [] {
      assert QuestionIds(qs[1..]) == QuestionIds(qs)[1..];
      DistinctTail(QuestionIds(qs));
      assert WellFormedQuestions(qs[1..]) by {
        forall i | 0 <= i < |qs| - 1 ensures DistinctIds(ChoiceIds(qs[1..][i].options)) {
          assert qs[1..][i] == qs[i + 1];
        }
      }
      QuestionHitsWellFormed(qs[1..], qid, oid);
      ChoiceHitsDistinct(qs[0].options, oid);
      if qs[0].id == qid {
        assert !HasChoice(qs[1..], qid, oid) by {
          forall i | 0 <= i < |qs| - 1 ensures qs[1..][i].id != qid {
            assert QuestionIds(qs)[1..][i] != QuestionIds(qs)[0];
          }
        }
        assert HasChoice(qs, qid, oid) <==> HasChoiceIn(qs[0].options, oid) by {
          if HasChoice(qs, qid, oid) {
            var i :| 0 <= i < |qs| && qs[i].id == qid && HasChoiceIn(qs[i].options, oid);
            if i > 0 { assert qs[1..][i - 1].id == qid; }
          }
        }
      } else {
        assert HasChoice(qs, qid, oid) <==> HasChoice(qs[1..], qid, oid) by {
          if HasChoice(qs, qid, oid) {
            var i :| 0 <= i < |qs| && qs[i].id == qid && HasChoiceIn(qs[i].options, oid);
            assert qs[1..][i - 1] == qs[i];
          }
          if HasChoice(qs[1..], qid, oid) {
            var i :| 0 <= i < |qs| - 1 && qs[1..][i].id == qid && HasChoiceIn(qs[1..][i].options, oid);
            assert qs[i + 1] == qs[1..][i];
          }
        }
      }
    }
  }

  /** A vote in a well-formed survey adds exactly one vote to the total when
      question `qid` has option `oid`, and none otherwise. */
  lemma VoteAddsOneOrNothing(s: Survey, qid: QuestionId, oid: OptionId)
    requires WellFormed(s)
    ensures TotalVotes(s.(questions := IncVote(s.questions, qid, oid))) ==
            TotalVotes(s) + if HasChoice(s.questions, qid, oid) then 1 else 0
  {
    IncVoteVotes(s.questions, qid, oid);
    QuestionHitsWellFormed(s.questions, qid, oid);
  }

  /** What the increment does to one option: its id and text stay, its
      count goes up by one exactly when both filters match it. */
  lemma IncVoteAt(qs: seq<Question>, qid: QuestionId, oid: OptionId, a: nat, b: nat)
    requires a < |qs| && b < |qs[a].options|
    ensures |IncVote(qs, qid, oid)| == |qs|
    ensures |IncVote(qs, qid, oid)[a].options| == |qs[a].options|
    ensures IncVote(qs, qid, oid)[a].options[b] ==
            if qs[a].id == qid && qs[a].options[b].id == oid
            then qs[a].options[b].(count := qs[a].options[b].count + 1)
            else qs[a].options[b]
  {
    var os := qs[a].options;
    var r := IncVote(qs, qid, oid);
    if qs[a].id == qid {
      assert r[a].options == BumpChoices(os, oid);
    } else {
      assert r[a].options == os;
    }
  }

  /** The count of option `j` of question `i` goes up by one and every other
      option of every question is unchanged. */
  lemma VoteChangesExactlyOne(qs: seq<Question>, qid: QuestionId, oid: OptionId, i: nat, j: nat)
    requires WellFormedQuestions(qs)
    requires i < |qs| && qs[i].id == qid
    requires j < |qs[i].options| && qs[i].options[j].id == oid
    ensures |IncVote(qs, qid, oid)| == |qs|
    ensures IncVote(qs, qid, oid)[i].options[j] == qs[i].options[j].(count := qs[i].options[j].count + 1)
    ensures forall a, b :: 0 <= a < |qs| && 0 <= b < |qs[a].options| && (a != i || b != j) ==>
              |IncVote(qs, qid, oid)[a].options| == |qs[a].options| &&
              IncVote(qs, qid, oid)[a].options[b] == qs[a].options[b]
  {
    IncVoteAt(qs, qid, oid, i, j);
    forall a, b | 0 <= a < |qs| && 0 <= b < |qs[a].options| && (a != i || b != j)
      ensures |IncVote(qs, qid, oid)[a].options| == |qs[a].options|
      ensures IncVote(qs, qid, oid)[a].options[b] == qs[a].options[b]
    {
      IncVoteAt(qs, qid, oid, a, b);
      if a != i {
        assert QuestionIds(qs)[a] != QuestionIds(qs)[i];
      } else {
        assert ChoiceIds(qs[i].options)[b] != ChoiceIds(qs[i].options)[j];
      }
    }
  }

  /** When question `qid` has no option `oid`, the increment changes nothing. */
  lemma IncVoteNoMatch(qs: seq<Question>, qid: QuestionId, oid: OptionId)
    requires !HasChoice(qs, qid, oid)
    ensures IncVote(qs, qid, oid) == qs
  {
    var r := IncVote(qs, qid, oid);
    forall i | 0 <= i < |qs| ensures r[i] == qs[i] {
      if qs[i].id == qid {
        assert !HasChoiceIn(qs[i].options, oid);
        var b := BumpChoices(qs[i].options, oid);
        assert b == qs[i].options by {
          forall j | 0 <= j < |b| ensures b[j] == qs[i].options[j] {
            assert qs[i].options[j].id != oid;
          }
        }
      }
    }
  }

  lemma IncVoteWellFormed(qs: seq<Question>, qid: QuestionId, oid: OptionId)
    requires WellFormedQuestions(qs)
    ensures WellFormedQuestions(IncVote(qs, qid, oid))
  {
    var r := IncVote(qs, qid, oid);
    assert QuestionIds(r) == QuestionIds(qs);
    forall i | 0 <= i < |r| ensures DistinctIds(ChoiceIds(r[i].options)) {
      assert ChoiceIds(r[i].options) == ChoiceIds(qs[i].options);
    }
  }

  // --------------------------------------------------------------- $push

  /** Appending a question with a fresh id and distinct option ids keeps the
      survey well formed, and adds no votes when its options are new. */
  lemma PushWellFormed(qs: seq<Question>, q: Question)
    requires WellFormedQuestions(qs)
    requires !HasQuestion(qs, q.id)
    requires DistinctIds(ChoiceIds(q.options))
    ensures WellFormedQuestions(qs + [q])
    ensures QuestionVotes(qs + [q]) == QuestionVotes(qs) + ChoiceVotes(q.options)
  {
    var r := qs + [q];
    forall a, b | 0 <= a < b < |r| ensures QuestionIds(r)[a] != QuestionIds(r)[b] {
      if b == |qs| {
        assert qs[a].id != q.id;
      } else {
        assert QuestionIds(qs)[a] != QuestionIds(qs)[b];
      }
    }
    forall i | 0 <= i < |r| ensures DistinctIds(ChoiceIds(r[i].options)) {
      if i < |qs| { assert r[i] == qs[i]; }
    }
    QuestionVotesAppend(qs, q);
  }

  // --------------------------------------------------------------- $pull

  /** `$pull` of every question with `_id == qid`. */
  function PullQuestion(qs: seq<Question>, qid: QuestionId): (r: seq<Question>)
    ensures |r| <= |qs|
    ensures forall i :: 0 <= i < |r| ==> r[i].id != qid
    ensures forall q :: q in r ==> q in qs
    ensures forall q :: q in qs && q.id != qid ==> q in r
    ensures !HasQuestion(qs, qid) ==> r == qs
  {
    if qs == [] then []
    else if qs[0].id == qid then PullQuestion(qs[1..], qid)
    else
      assert !HasQuestion(qs, qid) ==> !HasQuestion(qs[1..], qid) by {
        if HasQuestion(qs[1..], qid) {
          var i :| 0 <= i < |qs| - 1 && qs[1..][i].id == qid;
          assert qs[i + 1].id == qid;
        }
      }
      [qs[0]] + PullQuestion(qs[1..], qid)
  }

  /** `a` is `b` with some elements left out, order kept. */
  predicate IsSubsequence<T(==)>(a: seq<T>, b: seq<T>)
    decreases |b|
  {
    if a == [] then true
    else if b == [] then false
    else if a[0] == b[0] then IsSubsequence(a[1..], b[1..])
    else IsSubsequence(a, b[1..])
  }

  /** The questions that remain keep their relative order. */
  lemma {:induction false} PullKeepsOrder(qs: seq<Question>, qid: QuestionId)
    ensures IsSubsequence(PullQuestion(qs, qid), qs)
  {
    if qs != [] {
      PullKeepsOrder(qs[1..], qid);
      var r := PullQuestion(qs, qid);
      if qs[0].id == qid {
        if r != [] { assert r[0] != qs[0]; }
      } else {
        assert r[1..] == PullQuestion(qs[1..], qid);
      }
    }
  }

  lemma {:induction false} PullWellFormed(qs: seq<Question>, qid: QuestionId)
    requires WellFormedQuestions(qs)
    ensures WellFormedQuestions(PullQuestion(qs, qid))
  {
    if qs != [] {
      assert QuestionIds(qs[1..]) == QuestionIds(qs)[1..];
      DistinctTail(QuestionIds(qs));
      assert WellFormedQuestions(qs[1..]) by {
        forall i | 0 <= i < |qs| - 1 ensures DistinctIds(ChoiceIds(qs[1..][i].options)) {
          assert qs[1..][i] == qs[i + 1];
        }
      }
      PullWellFormed(qs[1..], qid);
      if qs[0].id != qid {
        var t := PullQuestion(qs[1..], qid);
        var r := [qs[0]] + t;
        forall a, b | 0 <= a < b < |r| ensures QuestionIds(r)[a] != QuestionIds(r)[b] {
          if a == 0 {
            assert r[b] in qs[1..];
            var k :| 0 <= k < |qs| - 1 && qs[1..][k] == r[b];
            assert QuestionIds(qs)[1..][k] != QuestionIds(qs)[0];
          } else {
            assert QuestionIds(t)[a - 1] != QuestionIds(t)[b - 1];
          }
        }
        forall i | 0 <= i < |r| ensures DistinctIds(ChoiceIds(r[i].options)) {
          if i > 0 { assert r[i] == t[i - 1]; }
        }
      }
    }
  }

  // ---------------------------------------------------------------- $set

  /** `$set` of text, type and options on every question with `_id == qid`. */
  function SetQuestion(qs: seq<Question>, qid: QuestionId, text: string, kind: string,
                       options: seq<Choice>): (r: seq<Question>)
    ensures |r| == |qs|
    ensures forall i :: 0 <= i < |qs| && qs[i].id == qid ==> r[i] == Question(qid, text, kind, options)
    ensures forall i :: 0 <= i < |qs| && qs[i].id != qid ==> r[i] == qs[i]
  {
    seq(|qs|, i requires 0 <= i < |qs| =>
      if qs[i].id == qid then qs[i].(text := text, kind := kind, options := options) else qs[i])
  }

  /** Replacing a question keeps the survey well formed when the new options
      have distinct ids. */
  lemma SetWellFormed(qs: seq<Question>, qid: QuestionId, text: string, kind: string, options: seq<Choice>)
    requires WellFormedQuestions(qs)
    requires DistinctIds(ChoiceIds(options))
    ensures WellFormedQuestions(SetQuestion(qs, qid, text, kind, options))
  {
    assert QuestionIds(SetQuestion(qs, qid, text, kind, options)) == QuestionIds(qs);
  }

  // ------------------------------------------------------------- answering

  /** Some question of `qs` has an option with id `oid`: the store's filter
      `'questions.options._id': optionId`, which ignores which question. */
  predicate AnyQuestionHasChoice(qs: seq<Question>, oid: OptionId)
  {
    exists i :: 0 <= i < |qs| && HasChoiceIn(qs[i].options, oid)
  }

  /** AnswerSurvey as written, given the document its first `findOne`
      loaded: Unauthorized for a missing survey, NotFound for a missing
      question, the dead `!option` test (it tests the question id), then the
      filtered update. That update yields null when no question has the
      option, and otherwise the survey with every matched count incremented. */
  function AnswerAsWritten(found: Option<Survey>, qid: QuestionId, oid: OptionId): (r: Result<Option<Survey>>)
    ensures found.None? ==> r == Err(Unauthorized)
    ensures r.Err? && found.Some? ==> r.error == NotFound
    ensures found.Some? && !HasQuestion(found.value.questions, qid) ==> r == Err(NotFound)
    ensures r.Ok? ==> found.Some? && HasQuestion(found.value.questions, qid)
    ensures r.Ok? && r.value.Some? ==>
              r.value.value == found.value.(questions := IncVote(found.value.questions, qid, oid))
    ensures r.Ok? ==> (r.value.None? <==> !AnyQuestionHasChoice(found.value.questions, oid))
  {
    match found
    case None => Err(Unauthorized)
    case Some(s) =>
      if !HasQuestion(s.questions, qid) then Err(NotFound)
      else if qid == "" then Err(NotFound)
      else if !AnyQuestionHasChoice(s.questions, oid) then Ok(None)
      else Ok(Some(s.(questions := IncVote(s.questions, qid, oid))))
  }

  /** As written, a vote for an option the question lacks is not refused:
      it returns null or the unchanged survey, and no count moves. */
  lemma AnswerAsWrittenMissingOption(s: Survey, qid: QuestionId, oid: OptionId)
    requires HasQuestion(s.questions, qid) && qid != ""
    requires !HasChoice(s.questions, qid, oid)
    ensures AnswerAsWritten(Some(s), qid, oid) == Ok(None) ||
            AnswerAsWritten(Some(s), qid, oid) == Ok(Some(s))
  {
    IncVoteNoMatch(s.questions, qid, oid);
  }

  /** As written, a vote for an existing option adds exactly one vote. */
  lemma AnswerAsWrittenCountsOnce(s: Survey, qid: QuestionId, oid: OptionId)
    requires WellFormed(s) && qid != ""
    requires HasChoice(s.questions, qid, oid)
    ensures var r := AnswerAsWritten(Some(s), qid, oid);
            r.Ok? && r.value.Some? && TotalVotes(r.value.value) == TotalVotes(s) + 1
  {
    var i :| 0 <= i < |s.questions| && s.questions[i].id == qid && HasChoiceIn(s.questions[i].options, oid);
    assert HasQuestion(s.questions, qid);
    assert AnyQuestionHasChoice(s.questions, oid);
    var s' := s.(questions := IncVote(s.questions, qid, oid));
    assert AnswerAsWritten(Some(s), qid, oid) == Ok(Some(s'));
    VoteAddsOneOrNothing(s, qid, oid);
  }

  /** The discrepancy: a question "q" with a single option "a", and a vote
      for option "b" of it. The option test never fires, so no NotFound. */
  lemma AnswerAsWrittenAcceptsUnknownOption()
    ensures var s := NewSurvey("Pets", None, "u", None, 0).(questions := [Question("q", "Cat or Dog?", "single", [NewChoice("a", "Cat")])]);
            AnswerAsWritten(Some(s), "q", "b") == Ok(None)
  {
    var s := NewSurvey("Pets", None, "u", None, 0).(questions := [Question("q", "Cat or Dog?", "single", [NewChoice("a", "Cat")])]);
    assert HasQuestion(s.questions, "q") by { assert s.questions[0].id == "q"; }
    assert !AnyQuestionHasChoice(s.questions, "b") by {
      assert |s.questions| == 1;
      assert !HasChoiceIn(s.questions[0].options, "b");
    }
  }

  /** AnswerSurvey as intended: Unauthorized for a missing survey, NotFound
      when the question or its option is missing, and otherwise the survey
      with the matched count incremented. */
  function AnswerChecked(found: Option<Survey>, qid: QuestionId, oid: OptionId): (r: Result<Survey>)
    ensures r.Err? <==> found.None? || !HasChoice(found.value.questions, qid, oid)
    ensures r.Err? ==> r.error == if found.None? then Unauthorized else NotFound
    ensures r.Ok? ==> r.value == found.value.(questions := IncVote(found.value.questions, qid, oid))
    ensures r.Ok? && WellFormed(found.value) ==> TotalVotes(r.value) == TotalVotes(found.value) + 1
  {
    match found
    case None => Err(Unauthorized)
    case Some(s) =>
      if !HasQuestion(s.questions, qid) then Err(NotFound)
      else if !HasChoice(s.questions, qid, oid) then Err(NotFound)
      else
        var s' := s.(questions := IncVote(s.questions, qid, oid));
        assert WellFormed(s) ==> TotalVotes(s') == TotalVotes(s) + 1 by {
          if WellFormed(s) { VoteAddsOneOrNothing(s, qid, oid); }
        }
        Ok(s')
  }
}
