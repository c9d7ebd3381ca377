# Survey API model

A Dafny model of the back end of a survey application. It has these parts:

- **Survey service.** A store of survey documents. Each survey holds questions, and each question holds options with a running vote count. Every change is checked against the survey's owner. It covers listing, results, question edits and anonymous voting.
- **Authentication service.** A users table and a refresh-token table keyed by user, with register, login, token issue and token rotation.
- **Guard.** The guard in front of the authenticated routes.
- **Upload service.** An S3 bucket of objects, with the URL format it returns.
- **Request validators.** The checks on request bodies.

How the Dafny modules map onto the source:

| module | models |
|---|---|
| `Wrappers` | `Option`, `Result`, the error kinds (NotFound, Unauthorized, Conflict, Internal), and JavaScript truthiness of an optional string |
| `Strings` | `startsWith`, `split` with a string separator (with the search for the separator that `split` performs), and the decimal text of a number in a template literal |
| `Jwt` | the JWT service, as a pair of functions (`sign`, `verify`) |
| `Schema` | the `Option`, `Question` and `Survey` sub-documents and their defaults. The schema's `Option` is called `Choice` here. |
| `SurveyDocs` | the store's update operators on one document's question list, as functions. `$push` appends. `$pull` filters. `$set` with `arrayFilters` replaces the matching question. The nested `$inc` with two `arrayFilters` bumps the matching option counts. |
| `Upload` | `UploadService`: a class whose `objects` map is the bucket |
| `Surveys` | `SurveysService`: a class holding `surveys: map<SurveyId, Survey>` and `order`, the collection's natural order. Read-only queries are functions; state changes are methods. |
| `Auth` | `AuthService`: a class holding `users` and `refreshTokens` |
| `Guard` | `ExtractTokenFromHeader`, the accept/reject decision, and `AuthGuard.CanActivate`, which writes `Request.userId` |
| `ClassValidator` | the request body as JSON, and the class-validator decorators as predicates |
| `RegisterDto`, `CreateSurveyDto`, `UpdateSurveyDto`, `CreateQuestionDto`, `AnswersDto` | each DTO's validation predicate |

External calls are parameters or function-valued fields:

- the S3 call's outcome (`ok`, `deleteOk`, `uploadOk`);
- `Date.now()` / `new Date()` (`now`, in milliseconds);
- fresh ObjectIds (`newId`, `optionIds`), required to be unused;
- `uuidv4()` (`freshToken`, required to be unused);
- bcrypt's salt;
- `hash`, `compare`, `sign` and `verify`.

A thrown exception becomes `Err(kind)`. An exception that is not one of the HTTP exceptions becomes `Internal`, because the framework reports it as a 500.

Behaviours of the code that a reader might not expect, which the model keeps:

- Ownership failures are `Unauthorized`, which the code throws, not a separate "forbidden" kind.
- `showSpecificSurvey` on a missing id throws a plain `Error`, so it fails with `Internal`, not `NotFound` (`src/surveys/surveys.service.ts:163-172`).
- `AnswerSurvey` does not reject an option that its question lacks. See Findings.
- The password rule `/^(?=.*[0-9])/` needs a digit before the first line terminator, not just somewhere in the password (`RegisterDto.DigitAfterLineBreakRefused`).
- Mongoose's `required` refuses the empty string. So `survey.create` or `save` with an empty title or creator fails (`Internal`). In `createSurvey` that failure comes after a successful upload, so the uploaded object stays in the bucket.
- `$push` and `$set` do not run validators. Options that `$set` writes are cast to sub-documents, with fresh ids and count 0.
- An edit's image branch deletes the old object, by the key cut out of its URL, before uploading. If the stored URL has no `.com/`, that key is `undefined`, the S3 client refuses the request, and the edit fails with `Internal`.
- `deleteSurvey` swallows a failed image delete, including one for an undefined key.

## Model

| member | source | states |
|---|---|---|
| Strings.IndexOf | src/surveys/surveys.service.ts:84 | the result is the first index where the separator occurs; None exactly when it does not occur |
| Strings.Split | src/surveys/surveys.service.ts:84 | `split` with a non-empty separator: at least one piece; joining the pieces with the separator gives the input back; no piece contains the separator |
| Strings.SplitAtFirst | src/Guards/auth.guard.ts:50 | for a separator whose first character does not recur in it: splitting `a + sep + b`, where `a` lacks `sep`, gives `a` followed by the pieces of `b` |
| Strings.Decimal | src/surveys/surveys.service.ts:37 | `${Date.now()}` is a non-empty string of digits with no leading zero |
| Strings.DecimalRoundTrip | src/surveys/surveys.service.ts:37 | reading the decimal text back gives the number |
| Schema.NewChoice | src/surveys/schemas/surveys.schema.ts:9-10 | a new option has count 0 |
| Schema.NewQuestion | src/surveys/schemas/surveys.schema.ts:22-23 | a new question's options default to the empty list |
| Schema.NewSurvey | src/surveys/schemas/surveys.schema.ts:41-48 | a new survey has no questions, is public, and is created at `now`; the other fields are as given |
| Schema.ChoicesFrom | src/surveys/surveys.service.ts:193-197 | options built from texts keep the texts in order, with the given ids and count 0 |
| Schema.FreshChoicesHaveNoVotes | src/surveys/surveys.service.ts:193-197 | freshly built options carry no votes |
| Schema.NewSurveyHasNoVotes | src/surveys/schemas/surveys.schema.ts:41-48 | a survey built with the defaults holds no votes and is well formed |
| Schema.QuestionVotesAppend | src/surveys/surveys.service.ts:200-204 | appending a question adds exactly its options' votes to the total |
| SurveyDocs.BumpChoices | src/surveys/surveys.service.ts:324-330 | the `option._id` filter: options keep their ids and texts; exactly the matching option counts rise by one |
| SurveyDocs.IncVote | src/surveys/surveys.service.ts:316-334 | the nested `$inc`: question ids and texts are kept; only options of questions whose id matches are touched |
| SurveyDocs.BumpChoicesVotes | src/surveys/surveys.service.ts:324 | the votes on a list of options rise by the number of matches |
| SurveyDocs.IncVoteVotes | src/surveys/surveys.service.ts:324 | the survey's votes rise by the number of (question, option) matches |
| SurveyDocs.ChoiceHitsDistinct | src/surveys/surveys.service.ts:330 | with distinct option ids, an option id matches once or not at all |
| SurveyDocs.QuestionHitsWellFormed | src/surveys/surveys.service.ts:328-331 | in a well-formed survey, a (question, option) pair matches once exactly when the question has that option |
| SurveyDocs.VoteAddsOneOrNothing | src/surveys/surveys.service.ts:316-334 | a vote adds exactly one to the total when the question has the option, and nothing otherwise |
| SurveyDocs.IncVoteAt | src/surveys/surveys.service.ts:316-334 | the count at each position after the update: bumped by one when both ids match, unchanged otherwise |
| SurveyDocs.VoteChangesExactlyOne | src/surveys/surveys.service.ts:316-334 | in a well-formed survey, the voted option's count rises by one and every other option is unchanged |
| SurveyDocs.IncVoteNoMatch | src/surveys/surveys.service.ts:316-334 | when the question lacks the option, the update changes nothing |
| SurveyDocs.IncVoteWellFormed | src/surveys/surveys.service.ts:322-326 | the update keeps sub-document ids unique |
| SurveyDocs.PushWellFormed | src/surveys/surveys.service.ts:200-204 | appending a question with a fresh id and distinct option ids keeps the survey well formed and adds its votes |
| SurveyDocs.PullQuestion | src/surveys/surveys.service.ts:221-229 | `$pull`: no remaining question has the id; every other question stays; nothing is added; when the id is absent the list is unchanged |
| SurveyDocs.PullKeepsOrder | src/surveys/surveys.service.ts:221-229 | the remaining questions keep their order |
| SurveyDocs.PullWellFormed | src/surveys/surveys.service.ts:221-229 | pulling keeps the survey well formed |
| SurveyDocs.SetQuestion | src/surveys/surveys.service.ts:257-273 | `$set` with `arrayFilters`: the matching question gets the new text, type and options with its id kept; every other question is unchanged |
| SurveyDocs.SetWellFormed | src/surveys/surveys.service.ts:263-267 | the replacement keeps the survey well formed when the new options have distinct ids |
| SurveyDocs.AnswerAsWritten | src/surveys/surveys.service.ts:292-337 | AnswerSurvey as written: Unauthorized for a missing survey; NotFound for a missing question; null when no question has the option; otherwise the survey after the nested increment |
| SurveyDocs.AnswerAsWrittenMissingOption | src/surveys/surveys.service.ts:316-334 | as written, a vote for an option the question lacks yields null or the unchanged survey |
| SurveyDocs.AnswerAsWrittenCountsOnce | src/surveys/surveys.service.ts:316-334 | as written, a vote for an existing option adds exactly one vote |
| SurveyDocs.AnswerAsWrittenAcceptsUnknownOption | src/surveys/surveys.service.ts:311-314 | a concrete survey and a vote for an option its question lacks that get no NotFound |
| SurveyDocs.AnswerChecked | src/surveys/surveys.service.ts:297-314 | the vote as intended: it fails exactly when the survey is missing (Unauthorized) or the question lacks the option (NotFound); otherwise it adds exactly one vote |
| Upload.ObjectUrl | src/upload/upload.service.ts:49 | the URL is `https://` + bucket + `.s3.amazonaws.com/` + key |
| Upload.KeyFromUrl | src/surveys/surveys.service.ts:84 | `split('.com/')[1]` is undefined exactly when the URL has no `.com/`; the piece it returns contains none |
| Upload.NoSeparatorBeforeHost | src/upload/upload.service.ts:49 | when the bucket name lacks `.com/`, the URL has no `.com/` before the one ending the host |
| Upload.KeyFromUrlRoundTrip | src/upload/upload.service.ts:49 | the key cut from an object's URL is its key, when neither the bucket name nor the key contains `.com/` |
| Upload.KeyFromUrlCutsDottedKey | src/surveys/surveys.service.ts:114 | for a key that contains `.com/`, only the part before it comes back |
| Upload.KeyFromUrlTruncatesDottedKey | src/surveys/surveys.service.ts:84 | the key `x.com/y` comes back as `x` |
| Upload.UploadService.constructor | src/upload/upload.service.ts:13-31 | the bucket name is as configured (`undefined` when unset); the objects are as given |
| Upload.UploadService.Create | src/upload/upload.service.ts:20-22 | construction fails exactly when region, access key or secret is missing or empty |
| Upload.UploadService.UploadFile | src/upload/upload.service.ts:33-50 | on success, stores the bytes under the key and returns its URL; on failure, the bucket is unchanged |
| Upload.UploadService.DeleteFile | src/upload/upload.service.ts:51-60 | removes only that key |
| Upload.UploadService.ReplaceFile | src/upload/upload.service.ts:62-71 | deletes the old key, then uploads the new one; when the delete fails nothing is uploaded |
| Surveys.ImageKey | src/surveys/surveys.service.ts:37 | the key is `surveys/` + the time + `-` + the file name |
| Surveys.ImageKeyClean | src/surveys/surveys.service.ts:37 | the key contains `.com/` only when the file name does |
| Surveys.StoredImageKeyRoundTrip | src/surveys/surveys.service.ts:84 | the key cut from a stored image URL is the key the image was uploaded under |
| Surveys.StaleKey | src/surveys/surveys.service.ts:113-114 | a key is cut out exactly when the stored URL is truthy and contains `.com/` |
| Surveys.StaleKeyOfUploadedImage | src/surveys/surveys.service.ts:113-116 | the stale key of an uploaded image is its own key |
| Surveys.Cleared | src/surveys/surveys.service.ts:113-120 | the bucket after removing the stale key, or unchanged when there is none |
| Surveys.BearerToken | src/surveys/surveys.service.ts:131-133 | a `Bearer ` header loses that prefix; any other header is the whole token |
| Surveys.CallerFilter | src/surveys/surveys.service.ts:129-145 | a missing or empty header gives no filter. A token that verifies with a truthy `userId` filters on exactly that id. One that verifies with no truthy `userId` gives no filter. A filter is always a non-empty id that the token verifies to. |
| Surveys.SignedHeaderFiltersOnCaller | src/surveys/surveys.service.ts:130-138 | a `Bearer` header with a token signed for `u` filters on `u` |
| Surveys.Matching | src/surveys/surveys.service.ts:145-151 | the selected ids are exactly the stored ones the filter admits, in store order |
| Surveys.MatchingAll | src/surveys/surveys.service.ts:145 | the empty query selects every survey, in order |
| Surveys.BareTokenFilters | src/surveys/surveys.service.ts:131-137 | a header without the `Bearer ` prefix is itself the token, and filters on the user it verifies to |
| Surveys.VerifiedListingIsCallers | src/surveys/surveys.service.ts:131-151 | for any header whose token verifies to a non-empty `u`, with or without the prefix, the listing holds exactly `u`'s surveys |
| Surveys.SignedListingIsCallers | src/surveys/surveys.service.ts:145-151 | with a signed token, the listing holds exactly the caller's surveys |
| Surveys.UnverifiedListingIsEverything | src/surveys/surveys.service.ts:135-145 | a missing or empty header, a token that does not verify, or a payload with no truthy `userId` lists every survey, in store order |
| Surveys.Summaries | src/surveys/surveys.service.ts:147-151 | the projection keeps only title and description, one per selected id |
| Surveys.Remove | src/surveys/surveys.service.ts:122 | the order without the deleted id, the rest kept in order and distinct |
| Surveys.Merge | src/surveys/surveys.service.ts:95 | `Object.assign`: the fields the patch carries replace the document's; creator, questions, image, date and visibility are untouched |
| Surveys.MergeEmpty | src/surveys/surveys.service.ts:95 | an empty patch changes nothing |
| Surveys.OptionTexts | src/surveys/surveys.service.ts:193-197 | absent options give the empty list |
| Surveys.NewQuestionFrom | src/surveys/surveys.service.ts:190-198 | the pushed question keeps the text, type and option texts in order, with every count 0 |
| Surveys.FreshChoiceIdsDistinct | src/surveys/surveys.service.ts:193-197 | options built with distinct fresh ids have distinct ids |
| Surveys.SurveysService.constructor | src/surveys/surveys.service.ts:21-25 | an empty store satisfies the invariant |
| Surveys.SurveysService.CreateSurvey | src/surveys/surveys.service.ts:27-61 | succeeds exactly when the upload (if any) succeeds and title and creator are non-empty. On success it stores the caller's survey with the defaults and the image URL. A failed upload leaves the store and bucket unchanged. |
| Surveys.SurveysService.SwapImage | src/surveys/surveys.service.ts:82-94 | removes the old image's key before uploading. A missing key or a failed delete uploads nothing. |
| Surveys.SurveysService.EditSurvey | src/surveys/surveys.service.ts:63-99 | NotFound or Unauthorized with nothing changed. With an image, it succeeds exactly when the old key is absent or deleted, the upload succeeds and the merged document passes `required`. The bucket is left unchanged when the old key could not be deleted; it loses the old key once the delete has run, and gains the new object once the upload has run, even when the save then fails. On success the stored survey becomes the merged document with the new image URL. A failed save changes no stored survey. |
| Surveys.SurveysService.DeleteSurvey | src/surveys/surveys.service.ts:101-125 | NotFound or Unauthorized with nothing changed; otherwise the survey is removed whether or not the image delete succeeds |
| Surveys.SurveysService.ShowSurveys | src/surveys/surveys.service.ts:127-158 | the title and description of exactly the surveys the filter selects, in store order; with no filter, one summary per stored survey |
| Surveys.SurveysService.ShowSpecificSurvey | src/surveys/surveys.service.ts:159-174 | the stored survey, or Internal when it is missing |
| Surveys.SurveysService.ResultOfOneSurvey | src/surveys/surveys.service.ts:278-290 | the questions with counts of a survey the caller owns; Unauthorized otherwise |
| Surveys.SurveysService.CreateQuestion | src/surveys/surveys.service.ts:176-205 | Unauthorized with nothing changed; otherwise exactly one new question is appended and the total votes are unchanged |
| Surveys.SurveysService.DeleteQuestion | src/surveys/surveys.service.ts:207-232 | Unauthorized with nothing changed; otherwise the questions become the `$pull` of that id |
| Surveys.SurveysService.EditQuestion | src/surveys/surveys.service.ts:234-276 | Unauthorized, or NotFound for a missing question, with nothing changed; otherwise only that question's text, type and options are replaced |
| Surveys.SurveysService.Lookup | src/surveys/surveys.service.ts:293-295 | the stored survey, if any |
| Surveys.SurveysService.AnswerSurvey | src/surveys/surveys.service.ts:292-337 | the result and new store of the vote as written; the invariant is kept |
| Surveys.SurveysService.AnswerSurveyChecked | src/surveys/surveys.service.ts:303-334 | the corrected vote: on success exactly one vote is added; on failure nothing changes |
| Auth.FindUser | src/auth/auth.service.ts:29-31 | `findOne({ email })`, and `findById` at 112-113: a user whose email (or id) is the one given, and None exactly when no user has it |
| Auth.ProfileOf | src/auth/auth.service.ts:113 | the profile leaves out the password |
| Auth.FindByIdUnique | src/auth/auth.service.ts:112-113 | with unique ids, lookup by id finds that user |
| Auth.Upsert | src/auth/auth.service.ts:85-99 | the user's record holds the token and expires three days after `now`; other records are unchanged |
| Auth.Redeemers | src/auth/auth.service.ts:65-68 | the owners of records holding the token that have not expired by `now` |
| Auth.UpsertKeepsTokensDistinct | src/auth/auth.service.ts:89-99 | upserting a fresh token keeps the tokens distinct |
| Auth.RotationRevokesOldToken | src/auth/auth.service.ts:73 | after rotation, the old token redeems for nobody, at any time |
| Auth.FreshTokenRedeemsForOwner | src/auth/auth.service.ts:85-99 | the new token redeems for its owner alone until it expires |
| Auth.ExpiryIsInclusive | src/auth/auth.service.ts:67 | a record is accepted at its expiry instant and not after |
| Auth.AuthService.constructor | src/auth/auth.service.ts:20-25 | the empty tables satisfy the invariant |
| Auth.AuthService.Register | src/auth/auth.service.ts:27-43 | Conflict, with no change, exactly when the email is in use; otherwise it appends a user holding `hash(password)` |
| Auth.AuthService.StoreRefreshToken | src/auth/auth.service.ts:85-100 | the token table becomes the upsert |
| Auth.AuthService.GenerateUserToken | src/auth/auth.service.ts:76-83 | returns the signed access token and the fresh refresh token, and stores the latter for the user |
| Auth.AuthService.Login | src/auth/auth.service.ts:45-62 | Unauthorized, with the tables unchanged, exactly when the email is unknown or the password does not match; otherwise a new pair for that user |
| Auth.AuthService.RefreshTokens | src/auth/auth.service.ts:64-74 | Unauthorized exactly when no record redeems the token at `now`. Otherwise it issues a pair for a redeeming owner, after which the old token is dead. |
| Auth.AuthService.GetProfileWithToken | src/auth/auth.service.ts:102-125 | the profile of the user the token names; every failure is Unauthorized |
| Auth.SignedTokenYieldsProfile | src/auth/auth.service.ts:105-118 | a token signed for a registered user yields that user's profile |
| Guard.ExtractTokenFromHeader | src/Guards/auth.guard.ts:46-50 | a missing header, or one with no space, gives no token; a token has no space |
| Guard.SplitAtFirstSpace | src/Guards/auth.guard.ts:50 | splitting on the first space gives the part before it and the pieces after it |
| Guard.TokenIsSecondField | src/Guards/auth.guard.ts:50 | the token is the field after the first space |
| Guard.TokenIsSecondFieldOfMany | src/Guards/auth.guard.ts:50 | later fields are dropped |
| Guard.BasicSchemeYieldsToken | src/Guards/auth.guard.ts:50 | the scheme is not checked: `Basic x` gives `x` |
| Guard.Authenticate | src/Guards/auth.guard.ts:24-41 | Unauthorized for a missing or empty token and for one that does not verify; otherwise the payload's `userId` |
| Guard.SignedBearerPasses | src/Guards/auth.guard.ts:24-43 | a `Bearer` header with a token signed for `u` passes as `u` |
| Guard.DoubleSpaceIsRefused | src/Guards/auth.guard.ts:28-31 | `Bearer` followed by two spaces gives an empty token, which is refused |
| Guard.Request.constructor | src/Guards/auth.guard.ts:23 | a request starts with no user id |
| Guard.AuthGuard.constructor | src/Guards/auth.guard.ts:16 | the guard holds the JWT service |
| Guard.AuthGuard.CanActivate | src/Guards/auth.guard.ts:18-44 | returns true and sets `request.userId` exactly when the decision accepts; otherwise Unauthorized with the request untouched |
| ClassValidator.Field | src/surveys/dto/update-survey.dto.ts:4 | an absent property is undefined |
| ClassValidator.ValidatorLength | src/surveys/dto/create-survey.dto.ts:13 | the counted length is at most the code-point count, and equal to it without presentation selectors |
| ClassValidator.MongoIdShape | src/surveys/dto/answers.dto.ts:29-35 | a Mongo id has 24 characters, all hex but perhaps a `0x`-style prefix |
| ClassValidator.MongoIdAcceptsHexPrefix | src/surveys/dto/answers.dto.ts:29 | `0x` followed by 22 hex digits passes as a Mongo id |
| ClassValidator.EmojiCountOnce | src/surveys/dto/create-survey.dto.ts:13 | 100 emoji pass the 100-character limit |
| ClassValidator.SelectorIsNotCounted | src/surveys/dto/create-survey.dto.ts:13 | a lone presentation selector has length 0 |
| RegisterDto.ValidPassword | src/auth/dto/register.dto.ts:10-15 | a valid password has at least 6 characters and an ASCII digit |
| RegisterDto.EmptyNameAccepted | src/auth/dto/register.dto.ts:4-5 | the name may be empty |
| RegisterDto.StrongPassword | src/auth/dto/register.dto.ts:10-15 | `secret1` meets the length and digit rules |
| RegisterDto.DigitAfterLineBreakRefused | src/auth/dto/register.dto.ts:12 | a digit after a line break does not count |
| RegisterDto.NoDigitOnFirstLine | src/auth/dto/register.dto.ts:12 | `abcdef\n1` fails the digit lookahead |
| CreateQuestionDto.ToQuestionInput | src/surveys/dto/create-question.dto.ts:16-30 | a valid body has non-empty text and type, and options that are absent or all non-empty |
| CreateQuestionDto.ValidBodyMeetsSchema | src/surveys/dto/create-question.dto.ts:10-30 | a question built from a valid body passes the schema's required checks, as do its options |
| CreateQuestionDto.NoOptionsAccepted | src/surveys/dto/create-question.dto.ts:25-29 | options may be absent; an empty text is refused |
| CreateSurveyDto.ValidTitle | src/surveys/dto/create-survey.dto.ts:11-14 | a valid title is a non-empty string of at most 100 characters |
| CreateSurveyDto.TitleLimit | src/surveys/dto/create-survey.dto.ts:13 | 100 letters pass; 101 do not |
| UpdateSurveyDto.ValidTitle | src/surveys/dto/update-survey.dto.ts:4-7 | a present title is a string of at most 100 characters |
| UpdateSurveyDto.EmptyPatchAccepted | src/surveys/dto/update-survey.dto.ts:3-12 | the empty patch is valid, and so is an empty title |
| UpdateSurveyDto.BadTitleRefused | src/surveys/dto/update-survey.dto.ts:5-6 | a title over the limit, or one that is not a string, is refused |
| AnswersDto.SubmitIdsShape | src/surveys/dto/answers.dto.ts:28-36 | both ids of a valid submission are 24-character strings |
| AnswersDto.AnswerShapes | src/surveys/dto/answers.dto.ts:9-26 | only `questionId` is required; `optionIds` must hold strings; an empty `questionId` is refused |

## Left out

- Controllers, module wiring and HTTP status mapping: the model keeps only the error kind.
- The edit route never passes an image. `EditSurvey` takes the image as an optional argument.
- The database: the store is in memory, with the update operators modelled as functions. The atomicity of `$inc` under concurrent voters is a database concern, and no concurrency is modelled.
- Id casting: a survey, question or user id that does not cast to an ObjectId makes the store throw a `CastError`, which surfaces as a 500. The model treats every id as a plain key, so such an id is simply missing.
- Embedded sub-documents on `save`: `EditSurvey` checks only the survey's own `required` fields. It does not model the validation that saving applies to embedded questions stored without validators.
- Extra body fields: an edit patch is modelled with only `title` and `description`. Which other fields reach `Object.assign` depends on the validation pipe's configuration, which is not part of this model.
- Null fields in an edit body: `EditSurvey` takes a patch whose fields are absent or strings. A `null` title or description is not modelled.
- `EditQuestion`: models an edit that supplies all three fields. How `$set` treats an undefined field does not follow from the code shown.
- `AnswerSurvey`: the route's body is untyped, so the answer DTO is not assumed to have run. The service takes any string ids.
- Surveys.SurveysService.AnswerSurvey and SurveyDocs.AnswerAsWritten model only string ids. The untyped body passes `optionId` unchanged into the update filter and into `arrayFilters` (`src/surveys/surveys.service.ts:320`, `:330`). A non-string `optionId`, such as `{"$ne": null}`, arrives there as a query operator and matches every option of the question. The one-vote-or-none guarantee (`SurveyDocs.VoteAddsOneOrNothing`) holds only for string ids.
- The users schema and the refresh-token schema are not part of this model. `Register` assumes `create` succeeds, and no uniqueness index is modelled.
- `Auth.AuthService.RefreshTokens`: `findOne` returns the first matching record in natural order. The model picks some redeeming record; with distinct tokens there is only one.
- `Auth.ThreeDays`: `setDate(getDate() + 3)` is modelled as 72 hours. A local-time change within those days is not modelled.
- bcrypt, JWT signing and verification, uuid generation, the S3 client and the network are abstract. Only one JWT property appears, as a hypothesis where a lemma needs it: a signed token verifies to its claim.
- The clock: `createSurvey` reads `Date.now()` for the file name and for `createdAt`; the model uses one `now` for both.
- Logging (`console.warn` and the guard's logger) and the message strings of the errors.
- `IsEmail`: a predicate parameter, since its acceptance set lives in the validation library.
- `update-question.dto.ts`: used only as the shape of `QuestionPatch`.

## Findings

| source | as written | input that shows it | evidently intended | confidence | as-written member | corrected member |
|---|---|---|---|---|---|---|
| src/surveys/surveys.service.ts:311-314 | the "option not found" test checks `questionId`, which the previous check already proved present, so it never fires. The update's filter only needs *some* question to hold `optionId`. | a survey whose question `q` has the single option `a`, voted with `questionId = q` and `optionId = b`: this gives null (or the unchanged survey when another question holds `b`), not NotFound | NotFound when question `questionId` has no option `optionId`; otherwise exactly that option's count rises by one | not executed | SurveyDocs.AnswerAsWrittenAcceptsUnknownOption | SurveyDocs.AnswerChecked |
