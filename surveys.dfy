/** The survey service: a store of survey documents keyed by id, the
    ownership checks in front of every change, the listing filtered by the
    caller's token, and the question and vote updates. */
module Surveys {
  import opened Wrappers
  import opened Strings
  import opened Jwt
  import opened Schema
  import opened SurveyDocs
  import opened Upload

  /** An uploaded file as the multipart interceptor hands it over. */
  datatype Image = Image(originalName: string, buffer: Bytes, mimeType: string)

  /** The option entries of a question in a request body. */
  datatype QuestionInput = QuestionInput(text: string, kind: string, options: Option<seq<string>>)

  /** The body of a create-survey request. The service never reads its
      `questions`. */
  datatype CreateSurveyInput = CreateSurveyInput(
    title: string,
    description: Option<string>,
    questions: Option<seq<QuestionInput>>)

  /** The body of an edit-survey request; None where a field is absent. */
  datatype SurveyPatch = SurveyPatch(title: Option<string>, description: Option<string>)

  /** The body of an edit-question request, every field supplied. */
  datatype QuestionPatch = QuestionPatch(text: string, kind: string, options: seq<string>)

  /** What the listing projects each survey to: no `_id`, no questions. */
  datatype Summary = Summary(title: string, description: Option<string>)

  // ------------------------------------------------------------ image keys

  /** The object key of an image uploaded at time `now`:
      `surveys/<now>-<original name>`. */
  function ImageKey(now: nat, name: string): (key: string)
    ensures StartsWith(key, "surveys/")
    ensures key == "surveys/" + Decimal(now) + "-" + name
  {
    "surveys/" + Decimal(now) + "-" + name
  }

  /** The key's prefix has no '.', so a key holds ".com/" only where the
      file name does. */
  lemma ImageKeyClean(now: nat, name: string)
    requires !Contains(name, KeySeparator)
    ensures !Contains(ImageKey(now, name), KeySeparator)
  {
    var prefix := "surveys/" + Decimal(now) + "-";
    forall i | 0 <= i < |prefix| ensures prefix[i] != KeySeparator[0] {
      if i >= 8 && i < |prefix| - 1 {
        assert prefix[i] == Decimal(now)[i - 8];
      }
    }
    assert ImageKey(now, name) == prefix + name;
    ContainsPastPrefix(prefix, name, KeySeparator);
  }

  /** The key the survey service cuts out of a stored image URL is the key
      the image was uploaded under, for a bucket name and a file name
      without ".com/". */
  lemma StoredImageKeyRoundTrip(bucket: string, now: nat, name: string)
    requires !Contains(bucket, KeySeparator)
    requires !Contains(name, KeySeparator)
    ensures KeyFromUrl(ObjectUrl(bucket, ImageKey(now, name))) == Some(ImageKey(now, name))
  {
    ImageKeyClean(now, name);
    KeyFromUrlRoundTrip(bucket, ImageKey(now, name));
  }

  /** The object key an edit or a delete removes for the stored `imageUrl`:
      None where there is no URL or the URL has no ".com/". */
  function StaleKey(imageUrl: Option<string>): (r: Option<string>)
    ensures r.Some? ==> Truthy(imageUrl) && Contains(imageUrl.value, KeySeparator)
    ensures Truthy(imageUrl) && Contains(imageUrl.value, KeySeparator) ==> r.Some?
  {
    if Truthy(imageUrl) then KeyFromUrl(imageUrl.value) else None
  }

  /** The image of a survey created with the round-trip conditions is
      removed by its own key. */
  lemma StaleKeyOfUploadedImage(bucket: string, now: nat, name: string)
    requires !Contains(bucket, KeySeparator)
    requires !Contains(name, KeySeparator)
    ensures StaleKey(Some(ObjectUrl(bucket, ImageKey(now, name)))) == Some(ImageKey(now, name))
  {
    StoredImageKeyRoundTrip(bucket, now, name);
  }

  /** The bucket after deleting `key`, where there is one. */
  function Cleared(objects: map<string, Bytes>, key: Option<string>): (r: map<string, Bytes>)
    ensures key.None? ==> r == objects
    ensures key.Some? ==> key.value !in r && forall k :: k != key.value ==> (k in r <==> k in objects)
  {
    if key.Some? then objects - {key.value} else objects
  }

  /** The image branch of an edit runs only when the buffer, the original
      name and the MIME type are all truthy; a buffer object always is. */
  predicate ImageGiven(image: Option<Image>)
  {
    image.Some? && image.value.originalName != "" && image.value.mimeType != ""
  }

  // ------------------------------------------------------------- listing

  /** `Bearer <token>` loses its 7-character prefix; any other header is
      taken whole as the token. */
  function BearerToken(header: string): (token: string)
    ensures StartsWith(header, "Bearer ") ==> header == "Bearer " + token
    ensures !StartsWith(header, "Bearer ") ==> token == header
  {
    if StartsWith(header, "Bearer ") then header[7..] else header
  }

  /** The creator the listing filters on: the `userId` of a token that
      verifies, when that id is truthy; otherwise no filter. */
  function CallerFilter(authHeader: Option<string>, jwt: JwtService): (r: Option<UserId>)
    ensures authHeader.None? || authHeader == Some("") ==> r.None?
    ensures r.Some? ==> r.value != ""
    ensures r.Some? ==> jwt.verify(BearerToken(authHeader.value)) == Some(Payload(Some(r.value)))
    ensures Truthy(authHeader) && jwt.verify(BearerToken(authHeader.value)).Some? ==>
              var userId := jwt.verify(BearerToken(authHeader.value)).value.userId;
              (Truthy(userId) ==> r == userId) && (!Truthy(userId) ==> r.None?)
  {
    if !Truthy(authHeader) then None
    else
      match jwt.verify(BearerToken(authHeader.value))
      case None => None
      case Some(p) => if Truthy(p.userId) then p.userId else None
  }

  /** A header carrying a token the service signed for `u` filters on `u`. */
  lemma SignedHeaderFiltersOnCaller(jwt: JwtService, u: UserId)
    requires SignedVerifies(jwt)
    requires u != ""
    ensures CallerFilter(Some("Bearer " + jwt.sign(u)), jwt) == Some(u)
  {
    var h := "Bearer " + jwt.sign(u);
    assert StartsWith(h, "Bearer ");
    assert BearerToken(h) == jwt.sign(u);
  }

  predicate Owned(s: Survey, filter: Option<UserId>)
  {
    filter.None? || s.creator == filter.value
  }

  /** The ids, in store order, of the surveys the query `{ creator }` (or `{}`)
      selects. */
  function Matching(ids: seq<SurveyId>, store: map<SurveyId, Survey>, filter: Option<UserId>): (r: seq<SurveyId>)
    ensures forall id :: id in r <==> id in ids && id in store && Owned(store[id], filter)
    ensures IsSubsequence(r, ids)
  {
    if ids == [] then []
    else
      var rest := Matching(ids[1..], store, filter);
      if ids[0] in store && Owned(store[ids[0]], filter) then [ids[0]] + rest else rest
  }

  /** Without a filter every stored survey is listed, in store order. */
  lemma {:induction false} MatchingAll(ids: seq<SurveyId>, store: map<SurveyId, Survey>)
    requires forall id :: id in ids ==> id in store
    ensures Matching(ids, store, None) == ids
  {
    if ids != [] {
      MatchingAll(ids[1..], store);
    }
  }

  /** A header that is the token itself, with no `Bearer ` prefix, filters
      on the token's user too. */
  lemma BareTokenFilters(t: string, jwt: JwtService, u: UserId)
    requires t != "" && !StartsWith(t, "Bearer ")
    requires jwt.verify(t) == Some(Payload(Some(u))) && u != ""
    ensures CallerFilter(Some(t), jwt) == Some(u)
  {
  }

  /** With any header whose token verifies to a non-empty `u`, with or
      without the `Bearer ` prefix, the listing selects exactly the surveys
      `u` created, in store order. */
  lemma VerifiedListingIsCallers(surveys: map<SurveyId, Survey>, order: seq<SurveyId>, jwt: JwtService,
                                 authHeader: Option<string>, u: UserId)
    requires StoreValid(surveys, order)
    requires Truthy(authHeader) && u != ""
    requires jwt.verify(BearerToken(authHeader.value)) == Some(Payload(Some(u)))
    ensures CallerFilter(authHeader, jwt) == Some(u)
    ensures forall id :: id in Matching(order, surveys, CallerFilter(authHeader, jwt)) <==>
                         id in surveys && surveys[id].creator == u
  {
  }

  /** With a header carrying a token signed for `u`, the listing selects
      exactly the surveys `u` created. */
  lemma SignedListingIsCallers(surveys: map<SurveyId, Survey>, order: seq<SurveyId>, jwt: JwtService, u: UserId)
    requires StoreValid(surveys, order)
    requires SignedVerifies(jwt) && u != ""
    ensures forall id :: id in Matching(order, surveys, CallerFilter(Some("Bearer " + jwt.sign(u)), jwt)) <==>
                         id in surveys && surveys[id].creator == u
  {
    var h := "Bearer " + jwt.sign(u);
    assert StartsWith(h, "Bearer ");
    assert BearerToken(h) == jwt.sign(u);
    VerifiedListingIsCallers(surveys, order, jwt, Some(h), u);
  }

  /** A missing or empty header, a token that does not verify, or one whose
      payload carries no truthy `userId`, lists everything. */
  lemma UnverifiedListingIsEverything(surveys: map<SurveyId, Survey>, order: seq<SurveyId>,
                                      jwt: JwtService, authHeader: Option<string>)
    requires StoreValid(surveys, order)
    requires !Truthy(authHeader) || jwt.verify(BearerToken(authHeader.value)).None? ||
             !Truthy(jwt.verify(BearerToken(authHeader.value)).value.userId)
    ensures Matching(order, surveys, CallerFilter(authHeader, jwt)) == order
  {
    MatchingAll(order, surveys);
  }

  function Summaries(ids: seq<SurveyId>, store: map<SurveyId, Survey>): (r: seq<Summary>)
    requires forall id :: id in ids ==> id in store
    ensures |r| == |ids|
    ensures forall i :: 0 <= i < |ids| ==> r[i] == Summary(store[ids[i]].title, store[ids[i]].description)
  {
    seq(|ids|, i requires 0 <= i < |ids| => Summary(store[ids[i]].title, store[ids[i]].description))
  }

  /** `order` without `id`, the rest in the same order. */
  function Remove(ids: seq<SurveyId>, id: SurveyId): (r: seq<SurveyId>)
    ensures forall x :: x in r <==> x in ids && x != id
    ensures DistinctIds(ids) ==> DistinctIds(r)
    ensures IsSubsequence(r, ids)
  {
    if ids == [] then []
    else
      var rest := Remove(ids[1..], id);
      assert DistinctIds(ids) ==> DistinctIds(rest) && ids[0] !in rest by {
        if DistinctIds(ids) {
          DistinctTail(ids);
          assert forall x :: x in ids[1..] ==> x != ids[0];
        }
      }
      if ids[0] == id then
        assert rest != [] ==> rest[0] in rest;
        rest
      else
        assert DistinctIds(ids) ==> DistinctIds([ids[0]] + rest) by {
          if DistinctIds(ids) {
            var r := [ids[0]] + rest;
            forall a, b | 0 <= a < b < |r| ensures r[a] != r[b] {
              if a == 0 { assert r[b] in rest; } else { assert r[a] == rest[a - 1] && r[b] == rest[b - 1]; }
            }
          }
        }
        [ids[0]] + rest
  }

  // -------------------------------------------------------------- editing

  /** `Object.assign(document, patch)`: each field the patch carries
      replaces the document's; nothing else moves. */
  function Merge(s: Survey, p: SurveyPatch): (r: Survey)
    ensures r.creator == s.creator && r.questions == s.questions && r.imageUrl == s.imageUrl
    ensures r.createdAt == s.createdAt && r.isPublic == s.isPublic
    ensures r.title == (if p.title.Some? then p.title.value else s.title)
    ensures r.description == (if p.description.Some? then p.description else s.description)
  {
    s.(title := if p.title.Some? then p.title.value else s.title,
       description := if p.description.Some? then p.description else s.description)
  }

  /** An empty patch leaves the document as it was. */
  lemma MergeEmpty(s: Survey)
    ensures Merge(s, SurveyPatch(None, None)) == s
  {
  }

  /** Option texts of a new question; absent options give none. */
  function OptionTexts(q: QuestionInput): (r: seq<string>)
    ensures q.options.None? ==> r == []
    ensures q.options.Some? ==> r == q.options.value
  {
    if q.options.Some? then q.options.value else []
  }

  /** The question `$push` appends: fresh ids, the option texts in order,
      every count 0. */
  function NewQuestionFrom(id: QuestionId, q: QuestionInput, optionIds: seq<OptionId>): (r: Question)
    requires |optionIds| == |OptionTexts(q)|
    ensures r.id == id && r.text == q.text && r.kind == q.kind
    ensures |r.options| == |OptionTexts(q)|
    ensures forall j :: 0 <= j < |r.options| ==> r.options[j].text == OptionTexts(q)[j] && r.options[j].count == 0
    ensures ChoiceVotes(r.options) == 0
  {
    FreshChoicesHaveNoVotes(optionIds, OptionTexts(q));
    Question(id, q.text, q.kind, ChoicesFrom(optionIds, OptionTexts(q)))
  }

  lemma FreshChoiceIdsDistinct(ids: seq<OptionId>, texts: seq<string>)
    requires |ids| == |texts| && DistinctIds(ids)
    ensures DistinctIds(ChoiceIds(ChoicesFrom(ids, texts)))
  {
    assert ChoiceIds(ChoicesFrom(ids, texts)) == ids;
  }

  // ------------------------------------------------------------ the store

  class SurveysService {
    /** The surveys collection, by `_id`. */
    var surveys: map<SurveyId, Survey>
    /** The collection's natural order, which `find` returns. */
    var order: seq<SurveyId>
    const upload: UploadService
    const jwt: JwtService

    ghost predicate Valid()
      reads this
    {
      StoreValid(surveys, order)
    }

    constructor (upload: UploadService, jwt: JwtService)
      ensures Valid() && surveys == map[] && order == []
      ensures this.upload == upload && this.jwt == jwt
    {
      this.upload := upload;
      this.jwt := jwt;
      surveys := map[];
      order := [];
    }

    /** `createSurvey`: uploads the image first, if any, and then creates the
        document with the defaults. A failed upload creates nothing; a
        failed `required` check after a good upload leaves the object in
        the bucket. */
    method CreateSurvey(input: CreateSurveyInput, userId: UserId, image: Option<Image>,
                        now: nat, newId: SurveyId, uploadOk: bool) returns (r: Result<Survey>)
      requires Valid() && newId !in surveys
      modifies this, upload
      ensures Valid()
      ensures r.Ok? <==> (image.None? || uploadOk) && input.title != "" && userId != ""
      ensures r.Err? ==> r.error == Internal && surveys == old(surveys) && order == old(order)
      ensures r.Ok? ==> surveys == old(surveys)[newId := r.value] && order == old(order) + [newId]
      ensures r.Ok? ==> r.value == NewSurvey(input.title, input.description, userId,
                          if image.Some? then Some(ObjectUrl(upload.bucket, ImageKey(now, image.value.originalName))) else None,
                          now)
      ensures image.None? || !uploadOk ==> upload.objects == old(upload.objects)
      ensures image.Some? && uploadOk ==>
                upload.objects == old(upload.objects)[ImageKey(now, image.value.originalName) := image.value.buffer]
    {
      var imageUrl: Option<string> := None;
      if image.Some? {
        var u := upload.UploadFile(ImageKey(now, image.value.originalName), image.value.buffer,
                                   image.value.mimeType, uploadOk);
        if u.Err? {
          return Err(Internal);
        }
        imageUrl := Some(u.value);
      }
      var doc := NewSurvey(input.title, input.description, userId, imageUrl, now);
      if !SurveyRequired(doc) {
        return Err(Internal);
      }
      NewSurveyHasNoVotes(input.title, input.description, userId, imageUrl, now);
      surveys := surveys[newId := doc];
      order := order + [newId];
      return Ok(doc);
    }

    /** Deletes the stored image, if any, and uploads the new one. */
    method SwapImage(imageUrl: Option<string>, image: Image, now: nat, deleteOk: bool, uploadOk: bool)
      returns (r: Result<string>)
      modifies upload
      ensures Truthy(imageUrl) && StaleKey(imageUrl).None? ==>
                r == Err(Internal) && upload.objects == old(upload.objects)
      ensures StaleKey(imageUrl).Some? && !deleteOk ==>
                r == Err(Internal) && upload.objects == old(upload.objects)
      ensures (!Truthy(imageUrl) || (StaleKey(imageUrl).Some? && deleteOk)) ==>
                var cleared := Cleared(old(upload.objects), StaleKey(imageUrl));
                if uploadOk then
                  r == Ok(ObjectUrl(upload.bucket, ImageKey(now, image.originalName))) &&
                  upload.objects == cleared[ImageKey(now, image.originalName) := image.buffer]
                else
                  r == Err(Internal) && upload.objects == cleared
    {
      if Truthy(imageUrl) {
        var oldKey := KeyFromUrl(imageUrl.value);
        if oldKey.None? {
          // the S3 client refuses a request without a key
          return Err(Internal);
        }
        var d := upload.DeleteFile(oldKey.value, deleteOk);
        if d.Err? {
          return Err(Internal);
        }
      }
      r := upload.UploadFile(ImageKey(now, image.originalName), image.buffer, image.mimeType, uploadOk);
    }

    /** `editSurvey`: NotFound for a missing survey, Unauthorized for another
        user's; then the image swap, the merge of the patch, and the save,
        which fails on an emptied title. Only a successful save changes the
        store. */
    method EditSurvey(surveyId: SurveyId, patch: SurveyPatch, userId: UserId, image: Option<Image>,
                      now: nat, deleteOk: bool, uploadOk: bool) returns (r: Result<Survey>)
      requires Valid()
      modifies this, upload
      ensures Valid()
      ensures order == old(order)
      ensures surveyId !in old(surveys) ==>
                r == Err(NotFound) && surveys == old(surveys) && upload.objects == old(upload.objects)
      ensures surveyId in old(surveys) && old(surveys)[surveyId].creator != userId ==>
                r == Err(Unauthorized) && surveys == old(surveys) && upload.objects == old(upload.objects)
      ensures r.Err? ==> surveys == old(surveys)
      ensures r.Ok? ==> surveyId in old(surveys) && old(surveys)[surveyId].creator == userId
      ensures r.Ok? ==> surveys == old(surveys)[surveyId := r.value]
      ensures r.Ok? ==>
                r.value == Merge(old(surveys)[surveyId].(imageUrl :=
                  if ImageGiven(image) then Some(ObjectUrl(upload.bucket, ImageKey(now, image.value.originalName)))
                  else old(surveys)[surveyId].imageUrl), patch)
      ensures !ImageGiven(image) ==> upload.objects == old(upload.objects)
      ensures !ImageGiven(image) && surveyId in old(surveys) && old(surveys)[surveyId].creator == userId ==>
                (r.Ok? <==> SurveyRequired(Merge(old(surveys)[surveyId], patch)))
      ensures ImageGiven(image) && surveyId in old(surveys) && old(surveys)[surveyId].creator == userId ==>
                var stored := old(surveys)[surveyId];
                var newKey := ImageKey(now, image.value.originalName);
                var cleared := Cleared(old(upload.objects), StaleKey(stored.imageUrl));
                var keyGone := !Truthy(stored.imageUrl) || (StaleKey(stored.imageUrl).Some? && deleteOk);
                (r.Ok? <==>
                   (keyGone && uploadOk &&
                    SurveyRequired(Merge(stored.(imageUrl := Some(ObjectUrl(upload.bucket, newKey))), patch)))) &&
                (!keyGone ==> upload.objects == old(upload.objects)) &&
                (keyGone && !uploadOk ==> upload.objects == cleared) &&
                (keyGone && uploadOk ==> upload.objects == cleared[newKey := image.value.buffer])
    {
      if surveyId !in surveys {
        return Err(NotFound);
      }
      var doc := surveys[surveyId];
      if doc.creator != userId {
        return Err(Unauthorized);
      }
      if ImageGiven(image) {
        var u := SwapImage(doc.imageUrl, image.value, now, deleteOk, uploadOk);
        if u.Err? {
          return Err(Internal);
        }
        doc := doc.(imageUrl := Some(u.value));
      }
      doc := Merge(doc, patch);
      if !SurveyRequired(doc) {
        return Err(Internal);
      }
      surveys := surveys[surveyId := doc];
      return Ok(doc);
    }

    /** `deleteSurvey`: NotFound, Unauthorized, else the image is deleted
        (a failure is only logged) and the survey is removed. */
    method DeleteSurvey(surveyId: SurveyId, userId: UserId, deleteOk: bool) returns (r: Result<()>)
      requires Valid()
      modifies this, upload
      ensures Valid()
      ensures surveyId !in old(surveys) ==>
                r == Err(NotFound) && surveys == old(surveys) && order == old(order) &&
                upload.objects == old(upload.objects)
      ensures surveyId in old(surveys) && old(surveys)[surveyId].creator != userId ==>
                r == Err(Unauthorized) && surveys == old(surveys) && order == old(order) &&
                upload.objects == old(upload.objects)
      ensures r.Ok? <==> surveyId in old(surveys) && old(surveys)[surveyId].creator == userId
      ensures r.Ok? ==> surveys == old(surveys) - {surveyId} && order == Remove(old(order), surveyId)
      ensures r.Ok? ==>
                upload.objects == if deleteOk then Cleared(old(upload.objects), StaleKey(old(surveys)[surveyId].imageUrl))
                                  else old(upload.objects)
    {
      if surveyId !in surveys {
        return Err(NotFound);
      }
      var doc := surveys[surveyId];
      if doc.creator != userId {
        return Err(Unauthorized);
      }
      var key := StaleKey(doc.imageUrl);
      if key.Some? {
        var d := upload.DeleteFile(key.value, deleteOk);
      }
      surveys := surveys - {surveyId};
      order := Remove(order, surveyId);
      return Ok(());
    }

    /** `showSurveys`: title and description of every survey the caller's
        token selects, in store order. */
    function ShowSurveys(authHeader: Option<string>): (r: seq<Summary>)
      reads this
      requires Valid()
      ensures r == Summaries(Matching(order, surveys, CallerFilter(authHeader, jwt)), surveys)
      ensures |r| == |Matching(order, surveys, CallerFilter(authHeader, jwt))|
      ensures CallerFilter(authHeader, jwt).None? ==> |r| == |surveys|
    {
      var ids := Matching(order, surveys, CallerFilter(authHeader, jwt));
      assert CallerFilter(authHeader, jwt).None? ==> |ids| == |surveys| by {
        if CallerFilter(authHeader, jwt).None? {
          MatchingAll(order, surveys);
          DistinctCount(order, surveys);
        }
      }
      Summaries(ids, surveys)
    }

    /** `showSpecificSurvey`: the document, and a plain error, which the
        framework reports as Internal, for a missing id. */
    function ShowSpecificSurvey(surveyId: SurveyId): (r: Result<Survey>)
      reads this
      ensures r.Ok? <==> surveyId in surveys
      ensures r.Ok? ==> r.value == surveys[surveyId]
      ensures r.Err? ==> r.error == Internal
    {
      if surveyId in surveys then Ok(surveys[surveyId]) else Err(Internal)
    }

    /** `ResultOfOneSurvey`: the questions, with their counts, of a survey the
        caller owns; Unauthorized otherwise. */
    function ResultOfOneSurvey(surveyId: SurveyId, userId: UserId): (r: Result<seq<Question>>)
      reads this
      ensures r.Ok? <==> surveyId in surveys && surveys[surveyId].creator == userId
      ensures r.Ok? ==> r.value == surveys[surveyId].questions
      ensures r.Err? ==> r.error == Unauthorized
    {
      if surveyId in surveys && surveys[surveyId].creator == userId then Ok(surveys[surveyId].questions)
      else Err(Unauthorized)
    }

    /** `createQuestionWithIdSurvey`: `$push` of one new question onto a
        survey the caller owns. */
    method CreateQuestion(surveyId: SurveyId, input: QuestionInput, userId: UserId,
                          newId: QuestionId, optionIds: seq<OptionId>) returns (r: Result<Survey>)
      requires Valid()
      requires surveyId in surveys ==> !HasQuestion(surveys[surveyId].questions, newId)
      requires |optionIds| == |OptionTexts(input)| && DistinctIds(optionIds)
      modifies this
      ensures Valid() && order == old(order)
      ensures r.Ok? <==> surveyId in old(surveys) && old(surveys)[surveyId].creator == userId
      ensures r.Err? ==> r.error == Unauthorized && surveys == old(surveys)
      ensures r.Ok? ==> surveys == old(surveys)[surveyId := r.value]
      ensures r.Ok? ==> r.value == old(surveys)[surveyId].(questions :=
                old(surveys)[surveyId].questions + [NewQuestionFrom(newId, input, optionIds)])
      ensures r.Ok? ==> TotalVotes(r.value) == TotalVotes(old(surveys)[surveyId])
    {
      if surveyId !in surveys || surveys[surveyId].creator != userId {
        return Err(Unauthorized);
      }
      var doc := surveys[surveyId];
      var q := NewQuestionFrom(newId, input, optionIds);
      FreshChoiceIdsDistinct(optionIds, OptionTexts(input));
      PushWellFormed(doc.questions, q);
      doc := doc.(questions := doc.questions + [q]);
      surveys := surveys[surveyId := doc];
      return Ok(doc);
    }

    /** `deleteQuestionWithIdSurvey`: `$pull` of the question(s) with that id
        from a survey the caller owns. */
    method DeleteQuestion(surveyId: SurveyId, userId: UserId, questionId: QuestionId) returns (r: Result<Survey>)
      requires Valid()
      modifies this
      ensures Valid() && order == old(order)
      ensures r.Ok? <==> surveyId in old(surveys) && old(surveys)[surveyId].creator == userId
      ensures r.Err? ==> r.error == Unauthorized && surveys == old(surveys)
      ensures r.Ok? ==> surveys == old(surveys)[surveyId := r.value]
      ensures r.Ok? ==> r.value == old(surveys)[surveyId].(questions :=
                PullQuestion(old(surveys)[surveyId].questions, questionId))
    {
      if surveyId !in surveys || surveys[surveyId].creator != userId {
        return Err(Unauthorized);
      }
      var doc := surveys[surveyId];
      PullWellFormed(doc.questions, questionId);
      doc := doc.(questions := PullQuestion(doc.questions, questionId));
      surveys := surveys[surveyId := doc];
      return Ok(doc);
    }

    /** `editQuestionWithIdSurvey`: Unauthorized, NotFound for a question
        the survey lacks, else `$set` of that question's text, type and
        options (fresh ids, count 0). */
    method EditQuestion(surveyId: SurveyId, userId: UserId, questionId: QuestionId,
                        patch: QuestionPatch, optionIds: seq<OptionId>) returns (r: Result<Survey>)
      requires Valid()
      requires |optionIds| == |patch.options| && DistinctIds(optionIds)
      modifies this
      ensures Valid() && order == old(order)
      ensures r.Err? ==> surveys == old(surveys)
      ensures !(surveyId in old(surveys) && old(surveys)[surveyId].creator == userId) ==> r == Err(Unauthorized)
      ensures surveyId in old(surveys) && old(surveys)[surveyId].creator == userId ==>
                (r.Err? <==> !HasQuestion(old(surveys)[surveyId].questions, questionId)) &&
                (r.Err? ==> r.error == NotFound)
      ensures r.Ok? ==> surveys == old(surveys)[surveyId := r.value]
      ensures r.Ok? ==> r.value == old(surveys)[surveyId].(questions :=
                SetQuestion(old(surveys)[surveyId].questions, questionId, patch.text, patch.kind,
                            ChoicesFrom(optionIds, patch.options)))
    {
      if surveyId !in surveys || surveys[surveyId].creator != userId {
        return Err(Unauthorized);
      }
      var doc := surveys[surveyId];
      if !HasQuestion(doc.questions, questionId) {
        return Err(NotFound);
      }
      var options := ChoicesFrom(optionIds, patch.options);
      FreshChoiceIdsDistinct(optionIds, patch.options);
      SetWellFormed(doc.questions, questionId, patch.text, patch.kind, options);
      doc := doc.(questions := SetQuestion(doc.questions, questionId, patch.text, patch.kind, options));
      surveys := surveys[surveyId := doc];
      return Ok(doc);
    }

    /** The survey a vote is for, as the first `findOne` loads it. */
    function Lookup(surveyId: SurveyId): (r: Option<Survey>)
      reads this
      ensures r.Some? <==> surveyId in surveys
      ensures r.Some? ==> r.value == surveys[surveyId]
    {
      if surveyId in surveys then Some(surveys[surveyId]) else None
    }

    /** `AnswerSurvey` as written: no check that the option belongs to the
        question, and a null result where no question has it. */
    method AnswerSurvey(surveyId: SurveyId, questionId: QuestionId, optionId: OptionId)
      returns (r: Result<Option<Survey>>)
      requires Valid()
      modifies this
      ensures Valid() && order == old(order)
      ensures r == AnswerAsWritten(old(Lookup(surveyId)), questionId, optionId)
      ensures r.Ok? && r.value.Some? ==> surveys == old(surveys)[surveyId := r.value.value]
      ensures !(r.Ok? && r.value.Some?) ==> surveys == old(surveys)
    {
      var found := Lookup(surveyId);
      r := AnswerAsWritten(found, questionId, optionId);
      if r.Ok? && r.value.Some? {
        var doc := found.value;
        var voted := doc.(questions := IncVote(doc.questions, questionId, optionId));
        assert r.value.value == voted;
        IncVoteWellFormed(doc.questions, questionId, optionId);
        StoreReplace(surveys, order, surveyId, voted);
        surveys := surveys[surveyId := voted];
      }
    }

    /** The vote as intended: NotFound as well for an option the question
        lacks; otherwise exactly that option's count goes up by one. */
    method AnswerSurveyChecked(surveyId: SurveyId, questionId: QuestionId, optionId: OptionId)
      returns (r: Result<Survey>)
      requires Valid()
      modifies this
      ensures Valid() && order == old(order)
      ensures r == AnswerChecked(old(Lookup(surveyId)), questionId, optionId)
      ensures r.Ok? ==> surveys == old(surveys)[surveyId := r.value]
      ensures r.Ok? ==> TotalVotes(r.value) == TotalVotes(old(surveys)[surveyId]) + 1
      ensures r.Err? ==> surveys == old(surveys)
    {
      var found := Lookup(surveyId);
      r := AnswerChecked(found, questionId, optionId);
      if r.Ok? {
        var doc := found.value;
        var voted := doc.(questions := IncVote(doc.questions, questionId, optionId));
        assert r.value == voted;
        IncVoteWellFormed(doc.questions, questionId, optionId);
        StoreReplace(surveys, order, surveyId, voted);
        surveys := surveys[surveyId := voted];
      }
    }
  }

  /** The store's invariant: `order` lists every id once, and every stored
      document has unique sub-document ids and passes its `required`
      checks. */
  ghost predicate StoreValid(surveys: map<SurveyId, Survey>, order: seq<SurveyId>)
  {
    DistinctIds(order) &&
    (forall id :: id in surveys <==> id in order) &&
    (forall id :: id in surveys ==> WellFormed(surveys[id]) && SurveyRequired(surveys[id]))
  }

  /** Replacing a stored document by a valid one keeps the invariant. */
  lemma StoreReplace(surveys: map<SurveyId, Survey>, order: seq<SurveyId>, id: SurveyId, s: Survey)
    requires StoreValid(surveys, order) && id in surveys
    requires WellFormed(s) && SurveyRequired(s)
    ensures StoreValid(surveys[id := s], order)
  {
  }

  /** A distinct list of exactly the map's keys is as long as the map. */
  lemma {:induction false} DistinctCount(ids: seq<SurveyId>, store: map<SurveyId, Survey>)
    requires DistinctIds(ids)
    requires forall id :: id in store <==> id in ids
    ensures |ids| == |store|
  {
    if ids != [] {
      DistinctTail(ids);
      var rest := store - {ids[0]};
      assert forall id :: id in rest <==> id in ids[1..] by {
        forall id ensures id in rest <==> id in ids[1..] {
          if id in ids[1..] {
            var k :| 0 <= k < |ids| - 1 && ids[1..][k] == id;
            assert ids[1..][k] != ids[0];
          }
        }
      }
      DistinctCount(ids[1..], rest);
    }
  }
}
