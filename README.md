# Lesson generation and study player — a Dafny model

The system turns an uploaded PDF into a short course. The processing pipeline works in five steps:

- it downloads the document;
- it asks a generative model to extract its pages;
- it stores the pages as chunks;
- it asks the model for a list of lessons;
- it stores the lessons as a linked chain, each lesson pointing to the one before it.

Around the pipeline it keeps the document's status (`processing`, then `completed` or `failed`).

A lesson is made of cards. A planner asks the model for a plan: a list of card kinds, each with a focus. The plan is accepted only when it covers every registered kind. Otherwise a fixed default plan is used. Each plan entry then goes to its kind's generator:

- text;
- multiple choice;
- fill in the blank;
- oral exam;
- interactive visual;
- infographic.

Each generator parses the model's reply and falls back to fixed content when the reply is unusable.

In the browser, the lesson player steps through the cards and counts correct answers. The question cards keep their own selection state. The completion screen turns the count into a percentage and a pass mark. The home page lists the uploaded documents: upload puts a new document first, and delete removes it.

The model keeps the source's structure:

- Pure code becomes functions over values.
- The state of React components becomes classes whose methods update fields.
- The database the pipeline writes to becomes a class (`Storage.Database`).
- The generative model, `JSON.parse`, `JSON.stringify`, storage and database requests, the clock and the uuid source are inputs. Each is a reply value, or an oracle function in `Js.Host`.

A JavaScript value is `Js.Value`. An exception is `Js.Thrown`: either an `Error` with a message, or something else.

## Model

| member | source | states |
|---|---|---|
| Fences.CleanJsonResponse | apps/web/lib/actions/process-document/steps/gemini.ts:15-20 | the cleaned reply has no leading or trailing whitespace and contains no three backticks in a row |
| Fences.CleanIdempotent | apps/web/lib/actions/process-document/steps/gemini.ts:15-20 | cleaning a cleaned reply changes nothing |
| Fences.CleanWithoutBackticks | apps/web/lib/actions/process-document/steps/gemini.ts:16-19 | a reply with no backtick is only trimmed |
| Fences.CleanJsonCodeBlock | apps/web/lib/actions/process-document/steps/gemini.ts:17-18 | a reply of the form "```json\n" + X + "\n```", where X has no backtick, cleans to trim(X), because the `json` fence is removed before bare fences |
| Fences.EmptyReplyParsesDefault | apps/web/lib/cards/cards/text.ts:65-72 | an empty model reply is parsed as the generator's default text |
| CardTypes.TitleBody | apps/web/lib/cards/cards/text.ts:76-83 | text-card content has the given body, and has a title exactly when one is given |
| CardTypes.JoinArrayField | apps/web/lib/cards/cards/mc-question.ts:84-91 | an array-valued field is replaced by its items joined with single spaces; every other field, and a non-array value, is left as it was |
| Registry.Find | apps/web/lib/cards/registry.ts:35-37 | the lookup returns the first catalog entry with the tag, and nothing when no entry has it |
| Registry.Tags | apps/web/lib/cards/registry.ts:42-44 | the names list has one tag per catalog entry, in catalog order |
| Registry.LookupIffListed | apps/web/lib/cards/registry.ts:35-44 | a tag is listed exactly when the lookup finds it, and what it finds carries that tag |
| Registry.UnlistedNotFound | apps/web/lib/cards/registry.ts:18-37 | any tag other than `text` and `mc_question` finds nothing |
| Registry.CatalogOrder | apps/web/lib/cards/registry.ts:18-30 | the catalog holds exactly `text` then `mc_question` |
| Registry.Block | apps/web/lib/cards/registry.ts:52-57 | a description block names its entry and shows `(type: "<tag>")` |
| Registry.GetCardTypesDescription | apps/web/lib/cards/registry.ts:49-60 | the description is the two entries' blocks, in catalog order, joined by "\n---\n" |
| Registry.Generate | apps/web/lib/cards/registry.ts:18-30 | a catalog entry's generator throws exactly when the model call rejects, with that exception, and otherwise returns a card of the entry's kind |
| Planner.FilterShape | apps/web/lib/cards/planner.ts:108-112 | the filter fails exactly when some entry is null (reading `type` of null throws); otherwise it keeps only entries with a registered kind, never more than it was given |
| Planner.FilterAppend | apps/web/lib/cards/planner.ts:111-112 | filtering distributes over concatenation, so the kept entries stay in the model's order |
| Planner.ValidCards | apps/web/lib/cards/planner.ts:107-113 | the kept list has at most 8 entries, all of registered kinds |
| Planner.ValidCardsIsCut | apps/web/lib/cards/planner.ts:110-112 | the kept list of a plan object is its filtered entries, in order, cut to the first eight |
| Planner.PlanFrom | apps/web/lib/cards/planner.ts:101-134 | for any list of available tags, the plan is never empty. Any plan other than the default is exactly the kept list of the parsed reply: the registered entries in the model's order, cut to 8. It has 5 to 8 entries, all of available kinds, covering every available kind |
| Planner.PlanLesson | apps/web/lib/cards/planner.ts:23-134 | the planner rejects only when the model call does. With the catalog's tags, any plan other than the default is exactly the kept list of the parsed reply, with 5 to 8 entries, all registered, covering every registered kind |
| Planner.PlanAccepted | apps/web/lib/cards/planner.ts:120-133 | a parsed reply whose kept list has at least five entries and covers every tag is returned as exactly that list |
| Planner.CutMissesKind | apps/web/lib/cards/planner.ts:113-119 | a kind absent from the first eight kept entries is absent after the cut, so not every available type is present |
| Planner.KindOnlyAfterEighth | apps/web/lib/cards/planner.ts:111-128 | when an available kind first appears after the eighth kept entry, the default plan is returned |
| Planner.EmptyReplyParsesNoCards | apps/web/lib/cards/planner.ts:101-108 | an empty reply is read as `{"cards":[]}` |
| Planner.EmptyReplyGivesDefault | apps/web/lib/cards/planner.ts:101-128 | an empty reply keeps no card and so yields the default plan, whatever the available tags |
| Planner.EmptyReplyPlansDefault | apps/web/lib/cards/planner.ts:23-128 | `planLesson` answers an empty reply with the default plan |
| Planner.DefaultPlanKinds | apps/web/lib/cards/planner.ts:141-157 | the default plan has exactly five entries: text, mc_question, fill_in_blank, infographic, interactive_visual. Only the first two are registered |
| Generator.OutcomeFor | apps/web/lib/cards/generator.ts:38-72 | an unregistered kind gives "Unknown card type: <kind>" and no card. A registered kind gives a card of that kind exactly when its model call answers. A rejection gives the exception's message, or "Unknown error" |
| Generator.Outcomes | apps/web/lib/cards/generator.ts:38-72 | there is one outcome per plan entry, carrying its index |
| Generator.Collect | apps/web/lib/cards/generator.ts:79-85 | the loop over the outcomes collects exactly the successful cards and the non-empty errors, in outcome order |
| Generator.GenerateCards | apps/web/lib/cards/generator.ts:29-88 | the result holds the cards and errors of the plan's outcomes, in plan order |
| Generator.CardsFollowSuccesses | apps/web/lib/cards/generator.ts:74-85 | the k-th card comes from the k-th plan index that produced a card |
| Generator.ErrorsAscending | apps/web/lib/cards/generator.ts:77-85 | error indices lie within the plan and are strictly ascending, so there is at most one per index |
| Generator.AtMostOnePerEntry | apps/web/lib/cards/generator.ts:79-85 | the number of cards plus the number of errors is at most the plan length |
| Generator.FailureReported | apps/web/lib/cards/generator.ts:79-85 | every outcome with no card and a non-empty message is in the error list |
| Generator.UnknownKindReported | apps/web/lib/cards/generator.ts:39-47 | an entry whose kind is not registered has no card, and its "Unknown card type" error is reported at its index |
| Generator.DefaultPlanUnknownKind | apps/web/lib/cards/generator.ts:39-47 | the default plan's last three entries each yield their "Unknown card type" error and no card |
| Generator.DefaultPlanErrors | apps/web/lib/cards/generator.ts:39-47 | the default plan reports fill_in_blank, infographic and interactive_visual as unknown, at indices 2, 3 and 4 |
| Generator.AtMostTwoCards | apps/web/lib/cards/generator.ts:79-85 | five outcomes whose last three carry no card give at most two cards |
| Generator.DefaultPlanAtMostTwoCards | apps/web/lib/cards/generator.ts:38-85 | the default plan yields at most two cards |
| Generator.GenerateLesson | apps/web/lib/cards/generator.ts:94-113 | the lesson rejects exactly when planning rejects. Otherwise it returns the plan it used together with that plan's cards and errors |
| TextCard.Generate | apps/web/lib/cards/cards/text.ts:31-84 | the card is always a text card. Parsed content is returned unvalidated. A parse failure gives the lesson title and "Let's learn about <focus>." |
| TextCard.EmptyReplyGivesEmptyObject | apps/web/lib/cards/cards/text.ts:65-73 | an empty reply gives the content `{}`, not the fallback |
| McQuestion.Generate | apps/web/lib/cards/cards/mc-question.ts:36-120 | the card is always mc_question, and its content passes the validity check. It is the normalised parse when that passes, and the fallback otherwise |
| McQuestion.FallbackIsValid | apps/web/lib/cards/cards/mc-question.ts:93-118 | the fallback question passes the validity check |
| McQuestion.AcceptedJsonIndexIsNumber | apps/web/lib/cards/cards/mc-question.ts:93-102 | accepted JSON content has a numeric `correct_index` between 0 and 3 |
| McQuestion.ArrayQuestionIsJoined | apps/web/lib/cards/cards/mc-question.ts:84-91 | an array-valued question is joined with spaces before validation |
| FillInBlank.Fallback | apps/web/lib/cards/cards/fill-in-blank.ts:134-149 | the fallback has the single blank `blank1`, with three options of which only "understanding" is correct |
| FillInBlank.Generate | apps/web/lib/cards/cards/fill-in-blank.ts:58-150 | the card is always fill_in_blank, and its content passes the validity check. It is the normalised parse when that passes, and the fallback otherwise |
| FillInBlank.FallbackIsValid | apps/web/lib/cards/cards/fill-in-blank.ts:126-149 | the fallback passes the validity check |
| FillInBlank.AcceptedIff | apps/web/lib/cards/cards/fill-in-blank.ts:119-132 | content is accepted exactly when `text` (joined if it is an array) is truthy and `blanks` is a non-null object. Options are not checked |
| OralExam.Clamp | apps/web/lib/cards/cards/oral-exam.ts:169 | the question count is clamped to 3..5, and NaN stays NaN |
| OralExam.SliceContext | apps/web/lib/cards/cards/oral-exam.ts:173 | the stored context is at most 1500 characters (or items) of the parsed one |
| OralExam.Content | apps/web/lib/cards/cards/oral-exam.ts:175-180 | exam content carries the topic, context, count and prompt it was given, and `tools` = [endExamTool] |
| OralExam.Generate | apps/web/lib/cards/cards/oral-exam.ts:110-200 | the card is always oral_exam. It is built from an accepted parse, or is the fallback. `tools` is always [endExamTool] |
| OralExam.AcceptedContent | apps/web/lib/cards/cards/oral-exam.ts:157-183 | accepted content has a clamped count and a sliced context. Its system prompt is built from the unsliced context |
| OralExam.ZeroCountFallsBack | apps/web/lib/cards/cards/oral-exam.ts:165-167 | a question count of 0 is not accepted |
| OralExam.FallbackContent | apps/web/lib/cards/cards/oral-exam.ts:184-199 | the fallback has count 3, the first 1000 characters of the lesson, and the focus as topic (the title when the focus is falsy) |
| InteractiveVisual.IncludesDoctype | apps/web/lib/cards/cards/interactive-visual.ts:144 | `html.includes` exists only for a string or an array |
| InteractiveVisual.TryParse | apps/web/lib/cards/cards/interactive-visual.ts:134-148 | an accepted parse has a truthy title and an `html` containing the DOCTYPE |
| InteractiveVisual.Fallback | apps/web/lib/cards/cards/interactive-visual.ts:175-226 | the fallback's html has the DOCTYPE, its title is the lesson title, and its description is "Visualization about <focus>" |
| InteractiveVisual.Generate | apps/web/lib/cards/cards/interactive-visual.ts:37-227 | the card is always interactive_visual. Its content comes from the first parse, else from the escape-fixed parse, else from the fallback. Its html always has the DOCTYPE |
| InteractiveVisual.WrappedVerbatim | apps/web/lib/cards/cards/interactive-visual.ts:144-146 | html without the DOCTYPE is wrapped, with the original verbatim after `<body>` |
| InteractiveVisual.RepairOnlyAfterFailure | apps/web/lib/cards/cards/interactive-visual.ts:149-153 | when the first parse is accepted, the escape fixer has no effect |
| Infographic.Metadata | apps/web/lib/cards/cards/infographic.ts:100-109 | a metadata parse failure gives metadata built from the lesson title and focus |
| Infographic.FirstInlinePartIsFirst | apps/web/lib/cards/cards/infographic.ts:133-148 | the chosen part is the first one that carries inline data; with none chosen, no part carries any |
| Infographic.FindImagePart | apps/web/lib/cards/cards/infographic.ts:133-148 | the scan loop with `break` finds exactly the first part with inline data |
| Infographic.FirstIsLeast | apps/web/lib/cards/cards/infographic.ts:133-148 | any index before which no part has data, and which itself has data, is the one found |
| Infographic.ImagePath | apps/web/lib/cards/cards/infographic.ts:155-156 | the image path is "cards/<lessonId>/infographic-<uuid>.png", with "undefined" for a missing lesson id |
| Infographic.StoredContent | apps/web/lib/cards/cards/infographic.ts:169-177 | the stored card carries the upload path and the metadata's title and caption |
| Infographic.TextFallback | apps/web/lib/cards/cards/infographic.ts:178-188 | the text card keeps the metadata's title |
| Infographic.Outcome | apps/web/lib/cards/cards/infographic.ts:40-189 | a rejected metadata request rethrows; an answered one throws exactly when the metadata is null |
| Infographic.OutcomeCases | apps/web/lib/cards/cards/infographic.ts:112-189 | the card is an infographic exactly when an inline part is found, decodes and uploads; null metadata throws a TypeError; any other failure gives the text card |
| Infographic.Generate | apps/web/lib/cards/cards/infographic.ts:40-189 | the generator's result is the outcome above |
| Infographic.StoredCardPath | apps/web/lib/cards/cards/infographic.ts:155-188 | a stored infographic carries its storage path, and every returned card keeps the metadata's title |
| Infographic.FallbackMetadataText | apps/web/lib/cards/cards/infographic.ts:103-108 | the text card built from the fallback metadata names the lesson title and the focus |
| Infographic.FallbackTextCard | apps/web/lib/cards/cards/infographic.ts:178-188 | with unparsable metadata and a failed image, the body is "**Visual Concept: T**\n\nAn infographic about F\n\n_T_" |
| ExtractContent.DownloadAndConvertPdf | apps/web/lib/actions/process-document/steps/extract-content.ts:9-36 | a missing download throws "Failed to download document" |
| ExtractContent.ExtractPdfContent | apps/web/lib/actions/process-document/steps/extract-content.ts:38-95 | the step rejects only when the model does. It returns the parsed value unchecked, and a parse failure gives one page holding the raw reply |
| ExtractContent.EmptyReplyGivesNoPages | apps/web/lib/actions/process-document/steps/extract-content.ts:76-83 | an empty reply gives zero pages |
| ExtractContent.FencedReplyIsCleaned | apps/web/lib/actions/process-document/steps/extract-content.ts:81-83 | a fenced reply is cleaned before parsing |
| ExtractContent.UnparsedReplyKeepsFences | apps/web/lib/actions/process-document/steps/extract-content.ts:85-92 | the fallback page is the uncleaned reply, fences included |
| GenerateLessons.FallbackLessons | apps/web/lib/actions/process-document/steps/generate-lessons.ts:10-14 | the fallback is "Getting Started", "Core Concepts", "Practice & Application", in that order, each with a description |
| GenerateLessons.AllContent | apps/web/lib/actions/process-document/steps/generate-lessons.ts:24 | pages are joined with the page-break separator; a non-array throws a TypeError |
| GenerateLessons.Excerpt | apps/web/lib/actions/process-document/steps/generate-lessons.ts:38 | the excerpt is the first 15000 characters of the content |
| GenerateLessons.GenerateLessons | apps/web/lib/actions/process-document/steps/generate-lessons.ts:19-63 | the step rejects only when the model does. It returns the parsed value unchecked, or the fallback lessons on a parse failure |
| GenerateLessons.LatePagesIgnored | apps/web/lib/actions/process-document/steps/generate-lessons.ts:24-38 | pages after the first 15000 characters do not change the result |
| GenerateLessons.EmptyReplyGivesNoLessons | apps/web/lib/actions/process-document/steps/generate-lessons.ts:50-58 | an empty reply gives zero lessons, not the fallback |
| StoreChunks.ChunkContent | apps/web/lib/actions/process-document/steps/store-chunks.ts:17 | a string page is stored verbatim; any other page is JSON-stringified |
| StoreChunks.ChunkRows | apps/web/lib/actions/process-document/steps/store-chunks.ts:15-19 | there is one row per page; row i has chunk index i, the document id and the page's content |
| StoreChunks.StoreChunks | apps/web/lib/actions/process-document/steps/store-chunks.ts:8-29 | the step stores the rows, or throws "Failed to store document chunks" on an insert error |
| StoreChunks.StringPagesRoundTrip | apps/web/lib/actions/process-document/steps/store-chunks.ts:15-19 | the stored contents of string pages read back as the pages |
| StoreLessons.LessonEntries | apps/web/lib/actions/process-document/steps/store-lessons.ts:16-17 | `lessons[i]` over `lessons.length`: the array's items, a string's characters, an object's members "0", "1", … below its own numeric `length`, nothing for numbers and booleans, and a throw for null |
| StoreLessons.OwnLengthKeyIsIterated | apps/web/lib/actions/process-document/steps/store-lessons.ts:16-18 | an object with its own `length` of 1 and a member "0" yields that member as its one entry |
| StoreLessons.RowFor | apps/web/lib/actions/process-document/steps/store-lessons.ts:20-30 | the row takes the entry's title and description, order index i and the previous lesson's id |
| StoreLessons.Insertions | apps/web/lib/actions/process-document/steps/store-lessons.ts:16-39 | at most one insert per entry. `prev` is the id of the last stored lesson, or null |
| StoreLessons.AttemptsFollowEntries | apps/web/lib/actions/process-document/steps/store-lessons.ts:16-30 | inserts are attempted in input order, one per truthy entry, with order index equal to the input position |
| StoreLessons.StoredChain | apps/web/lib/actions/process-document/steps/store-lessons.ts:14-39 | the first stored lesson has no predecessor. Each later one points to the previous stored lesson. Order indices ascend |
| StoreLessons.InsertionsStep | apps/web/lib/actions/process-document/steps/store-lessons.ts:18-38 | a falsy entry is skipped. A failed insert leaves the chain and `prev` unchanged. A successful one extends the chain |
| StoreLessons.InsertAll | apps/web/lib/actions/process-document/steps/store-lessons.ts:16-39 | the loop appends exactly the stored lessons to the database |
| StoreLessons.StoreLessons | apps/web/lib/actions/process-document/steps/store-lessons.ts:7-41 | null lessons throw a TypeError; otherwise the lessons are stored as above |
| ProcessDocument.TryBlock | apps/web/lib/actions/process-document/index.ts:45-66 | the first write is "processing", and a run that does not throw writes exactly "processing" then "completed" |
| ProcessDocument.Expected | apps/web/lib/actions/process-document/index.ts:22-77 | a missing document gives "Document not found" and no writes. A failure returns the message or "Processing failed", unless the "failed" write throws |
| ProcessDocument.SuccessIffProcessingThenCompleted | apps/web/lib/actions/process-document/index.ts:45-66 | processing succeeds exactly when the writes are "processing" then "completed" |
| ProcessDocument.CompletedOnlyAfterAllSteps | apps/web/lib/actions/process-document/index.ts:45-63 | "completed" is written exactly when the document exists, the "processing" write succeeded, and every step succeeded |
| ProcessDocument.FailureEndsWithFailedWrite | apps/web/lib/actions/process-document/index.ts:67-77 | a failure after lookup writes "processing" first and "failed" last |
| ProcessDocument.RejectsOnlyOnFailedWrite | apps/web/lib/actions/process-document/index.ts:71 | processing rejects exactly when a step threw and the "failed" write also threw |
| ProcessDocument.UpdateDocumentStatus | apps/web/lib/actions/process-document/steps/update-status.ts:9-28 | a status write is recorded. It changes the status unless it fails, in which case it throws "Failed to update document status to <status>" |
| ProcessDocument.Steps | apps/web/lib/actions/process-document/index.ts:48-60 | the five steps run in order, each only after the previous one succeeded |
| ProcessDocument.Try | apps/web/lib/actions/process-document/index.ts:45-66 | the try block's writes, chunks, lessons and exception are those of the run |
| ProcessDocument.Process | apps/web/lib/actions/process-document/index.ts:22-77 | `processDocument` returns the expected result and leaves the expected writes, status, chunks and lessons |
| LessonPlayer.TotalQuestions | apps/web/components/lesson-player.tsx:39-41 | the question count is at most the card count |
| LessonPlayer.AllQuestions | apps/web/components/lesson-player.tsx:26-41 | every card is a question exactly when the question count equals the card count |
| LessonPlayer.RenderCard | apps/web/components/lesson-player.tsx:91-137 | only mc_question and fill_in_blank cards route to the answer handler. An unknown kind shows its JSON as a text card |
| LessonPlayer.Player.constructor | apps/web/components/lesson-player.tsx:34-36 | a player starts at card 0, with no correct answers, not complete |
| LessonPlayer.Player.View | apps/web/components/lesson-player.tsx:73-88 | the completion screen shows the counts. An empty lesson shows "No cards found". Otherwise the current card is shown |
| LessonPlayer.Player.HandleContinue | apps/web/components/lesson-player.tsx:43-49 | continue advances unless on the last card, where it completes. The index stays within the cards |
| LessonPlayer.Player.HandleAnswer | apps/web/components/lesson-player.tsx:51-64 | an answer counts one more correct answer exactly when it is correct, then advances as continue does. Correct answers never exceed the answers given |
| LessonPlayer.Player.HandleRetry | apps/web/components/lesson-player.tsx:66-70 | retry resets the index, the correct count and completion |
| McQuestionCard.MatchIsUnique | apps/web/components/cards/mc-question-card.tsx:19 | at most one option index is correct |
| McQuestionCard.OptionLetter | apps/web/components/cards/mc-question-card.tsx:113 | option i is labelled with character code 65 + i |
| McQuestionCard.LettersOfFourOptions | apps/web/components/cards/mc-question-card.tsx:113 | four options read A, B, C, D, and distinct options get distinct letters |
| McQuestionCard.Card.constructor | apps/web/components/cards/mc-question-card.tsx:16-17 | a card starts with nothing selected, not answered |
| McQuestionCard.Card.HandleSelect | apps/web/components/cards/mc-question-card.tsx:21-24 | selecting is ignored once answered; before that it replaces the selection |
| McQuestionCard.Card.HandleSubmit | apps/web/components/cards/mc-question-card.tsx:26-29 | submit does nothing while nothing is selected |
| McQuestionCard.Card.HandleContinue | apps/web/components/cards/mc-question-card.tsx:31-33 | continue reports whether the selection equals `correct_index` |
| FillInBlankCard.CorrectText | apps/web/components/cards/fill-in-blank-card.tsx:25-32 | the correct text is that of the first correct option (every option before it is incorrect), and is missing exactly when no option is correct |
| FillInBlankCard.FirstCorrectOptionDecides | apps/web/components/cards/fill-in-blank-card.tsx:29 | whenever option k is correct and none before it is, the correct text is option k's, so a later correct option does not count |
| FillInBlankCard.SecondCorrectOptionIsWrong | apps/web/components/cards/fill-in-blank-card.tsx:29 | with two correct options "a" then "b", the correct text is "a" |
| FillInBlankCard.NoCorrectOptionNeverRight | apps/web/components/cards/fill-in-blank-card.tsx:25-32 | a blank with no correct option can never be answered right |
| FillInBlankCard.RightAnswers | apps/web/components/cards/fill-in-blank-card.tsx:21-32 | with all blanks answered, the answers are right exactly when every selection is its blank's correct text |
| FillInBlankCard.OptionsFor | apps/web/components/cards/fill-in-blank-card.tsx:85 | a placeholder whose id is not a key of `blanks` gets no options |
| FillInBlankCard.NextMatchIsLeftmost | apps/web/components/cards/fill-in-blank-card.tsx:59-63 | the regex finds the leftmost `{{id}}` from the last index |
| FillInBlankCard.PartsWithMatch | apps/web/components/cards/fill-in-blank-card.tsx:63-95 | a match gives the literal before it, if any, then the blank, then the parts after the match |
| FillInBlankCard.PartsWithoutMatch | apps/web/components/cards/fill-in-blank-card.tsx:99-106 | with no match left, the rest of the text is one literal, if non-empty |
| FillInBlankCard.RenderParts | apps/web/components/cards/fill-in-blank-card.tsx:54-109 | concatenating the literals and "{{" + id + "}}" gives back the text exactly |
| FillInBlankCard.PartsWellFormed | apps/web/components/cards/fill-in-blank-card.tsx:63-106 | no literal is empty or contains a placeholder; each blank has a non-empty id and its options |
| FillInBlankCard.SinglePlaceholder | apps/web/components/cards/fill-in-blank-card.tsx:54-109 | a text with one placeholder splits into the literal before it, the blank, and the literal after it |
| FillInBlankCard.FallbackPlaceholderIsItsBlank | apps/web/lib/cards/cards/fill-in-blank.ts:137-146 | the fallback's only placeholder is `blank1`, which is also its only `blanks` key |
| FillInBlankCard.RenderTextWithBlanks | apps/web/components/cards/fill-in-blank-card.tsx:54-109 | the tokenizing loop produces exactly the parts above |
| FillInBlankCard.Card.constructor | apps/web/components/cards/fill-in-blank-card.tsx:16-19 | a card starts with no selections, not submitted |
| FillInBlankCard.Card.HandleSelect | apps/web/components/cards/fill-in-blank-card.tsx:36-42 | selecting is ignored after submit; before that it sets only that blank |
| FillInBlankCard.Card.HandleSubmit | apps/web/components/cards/fill-in-blank-card.tsx:44-47 | submit does nothing unless every blank has a non-empty selection |
| FillInBlankCard.Card.HandleContinue | apps/web/components/cards/fill-in-blank-card.tsx:34-51 | continue reports correct only after submit, and exactly when every blank's selection is its correct text |
| LessonComplete.Score | apps/web/components/lesson-complete.tsx:29 | a lesson with no questions scores 100 |
| LessonComplete.ScoreRoundsToNearest | apps/web/components/lesson-complete.tsx:29 | the score is 100·correct/total rounded to the nearest whole number, halves up |
| LessonComplete.ScoreIsUnique | apps/web/components/lesson-complete.tsx:29 | no other whole number is that rounding |
| LessonComplete.ScoreIsPercentage | apps/web/components/lesson-complete.tsx:29 | for correct ≤ total, the score lies in 0..100, and all correct gives 100 |
| LessonComplete.ScoreMonotone | apps/web/components/lesson-complete.tsx:29 | more correct answers never lower the score |
| LessonComplete.PassedIffRatio | apps/web/components/lesson-complete.tsx:17-30 | a lesson passes (score ≥ 70) exactly when 200·correct ≥ 139·total, and always when it has no questions |
| LessonComplete.TierByRatio | apps/web/components/lesson-complete.tsx:102-109 | emerald exactly when passed, amber for scores 50..69, red below |
| LessonComplete.View | apps/web/components/lesson-complete.tsx:96-160 | "Try Again" is offered exactly when the score is not emerald. The title is "Lesson Complete!" exactly when passed. The message matches the outcome |
| LessonComplete.FailedMessageNamesThreshold | apps/web/components/lesson-complete.tsx:120-122 | the failure message names the passing score 70 |
| DocumentsContainer.Without | apps/web/components/documents-container.tsx:23 | the filter never grows the list |
| DocumentsContainer.WithoutMembers | apps/web/components/documents-container.tsx:23 | the filter keeps exactly the documents with another id |
| DocumentsContainer.WithoutKeepsOrder | apps/web/components/documents-container.tsx:23 | the filter keeps the remaining documents in their order |
| DocumentsContainer.WithoutAbsent | apps/web/components/documents-container.tsx:23 | deleting an absent id changes nothing |
| DocumentsContainer.UploadThenDelete | apps/web/components/documents-container.tsx:18-24 | deleting a fresh upload restores the list |
| DocumentsContainer.Container.constructor | apps/web/components/documents-container.tsx:16 | the list starts as the initial documents |
| DocumentsContainer.Container.HandleUploadComplete | apps/web/components/documents-container.tsx:18-20 | the new document is first, followed by the previous list |
| DocumentsContainer.Container.HandleDocumentDeleted | apps/web/components/documents-container.tsx:22-24 | every document with the id is removed, and the rest keep their order |
| DocumentList.UnitIndexBounds | apps/web/components/document-list.tsx:28 | the unit is the largest power of 1024 not above the size |
| DocumentList.TenthsRounding | apps/web/components/document-list.tsx:29 | the shown number is the size in that unit, rounded to the nearest tenth |
| DocumentList.SmallSizesInBytes | apps/web/components/document-list.tsx:24-30 | sizes below 1024 are shown in whole bytes, and 0 is "0 B" |
| DocumentList.OneAndAHalfKilobytes | apps/web/components/document-list.tsx:24-30 | 1536 bytes read "1.5 KB" |
| DocumentList.NoUnitPastGigabytes | apps/web/components/document-list.tsx:26-29 | from 1024 GB on, the unit reads "undefined" |
| DocumentList.DiffIsWholeSecondsElapsed | apps/web/components/document-list.tsx:35 | the difference is the whole number of seconds elapsed |
| DocumentList.RecentIsJustNow | apps/web/components/document-list.tsx:37 | under a minute, or in the future, is "Just now" |
| DocumentList.MinutesBucket | apps/web/components/document-list.tsx:38 | within the hour the date reads "<1..59>m ago" |
| DocumentList.HoursBucket | apps/web/components/document-list.tsx:39 | within the day it reads "<1..23>h ago" |
| DocumentList.DaysBucket | apps/web/components/document-list.tsx:40-46 | within the week it reads "<1..6>d ago"; older and invalid dates get the calendar date |
| DocumentList.StatusBadge | apps/web/components/document-list.tsx:49-82 | a badge exists exactly for the four statuses, and spins exactly for "processing" |
| DocumentList.StatusTexts | apps/web/components/document-list.tsx:165 | "completed" reads "Ready", and the other statuses read as themselves |
| DocumentList.View | apps/web/components/document-list.tsx:199-228 | an empty list shows the empty state; otherwise one card per document, in order, with its name, formatted size, status text and formatted date |
| DocumentList.UploadedDocumentShownFirst | apps/web/components/documents-container.tsx:18-20 | after an upload the new document is the first card |
| DocumentList.DocumentCard.constructor | apps/web/components/document-list.tsx:89-90 | a card starts not deleting |
| DocumentList.DocumentCard.HandleDelete | apps/web/components/document-list.tsx:92-119 | a successful row delete removes the document from the list. A failed one re-enables the card and leaves the list as it was |
| DocumentUpload.ExtensionShape | apps/web/components/document-upload.tsx:34 | the extension is the dot-free suffix after the last dot, or the whole name when there is no dot |
| DocumentUpload.ExtensionIsUnique | apps/web/components/document-upload.tsx:34 | that description determines the extension |
| DocumentUpload.ExtensionOfDottedName | apps/web/components/document-upload.tsx:34 | base + "." + ext gives back ext |
| DocumentUpload.StoragePathKeepsExtension | apps/web/components/document-upload.tsx:34-36 | the path lies under "documents/" and keeps the file's extension |
| DocumentUpload.Upload | apps/web/components/document-upload.tsx:20-81 | a non-PDF only sets "Only PDF files are allowed". A PDF is stored under documents/<uuid>.<ext> and inserted with the file's name, path, size and type. The document is added exactly when no error is shown |
| DocumentUpload.UploadErrors | apps/web/components/document-upload.tsx:39-78 | the error shown is the failing request's message, or "Upload failed" for a non-Error rejection |
| DocumentUpload.Uploader.constructor | apps/web/components/document-upload.tsx:16-18 | the upload box starts idle, with no error |
| DocumentUpload.Uploader.UploadFile | apps/web/components/document-upload.tsx:20-81 | the error and list follow the upload's outcome, and `isUploading` ends false |
| DocumentUpload.Uploader.HandleDragOver | apps/web/components/document-upload.tsx:83-87 | dragging over turns the highlight on |
| DocumentUpload.Uploader.HandleDragLeave | apps/web/components/document-upload.tsx:89-93 | leaving turns it off |
| DocumentUpload.Uploader.HandleDrop | apps/web/components/document-upload.tsx:95-109 | a drop turns the highlight off and uploads only the first file |
| DocumentUpload.Uploader.HandleFileSelect | apps/web/components/document-upload.tsx:111-121 | a selection uploads its first file, if any |

## Left out

- Generative-model calls, image generation and all prompt text. Each call is its reply, passed in as an argument. The oral exam's examiner prompt is a function parameter.
- `JSON.parse`, `JSON.stringify`, number formatting and the text of engine `TypeError`s are oracles in `Js.Host`. Object key order is not modelled, and neither are keys inherited from `Object.prototype`.
- `fixJsonEscaping`, whose regex uses lookbehind, is a string-to-string parameter of `InteractiveVisual.Generate`.
- Supabase storage and database requests are replies passed in. The database the pipeline writes is the `Storage.Database` class. `update-status.ts` is modelled as `ProcessDocument.UpdateDocumentStatus`.
- The concurrency of `Promise.all` in the generator is run sequentially. Outcomes are sorted by plan index in the source, so the order is the same.
- Base64 and byte handling (`atob`, `Buffer`, `Uint8Array`) is a `decodes` predicate. `crypto.randomUUID` is a uuid parameter.
- Console logging is not modelled. A failed storage removal when deleting a document is only logged, so it has no effect here.
- After an upload, the browser navigation (`router.push`) and the background request that starts processing are not modelled.
- React render batching and effects are not modelled. Each handler's state updates are applied in order.
- The live oral-exam session, the token route and the purely presentational components are not part of this model. These are `use-live-api.ts`, `oral-exam-card.tsx`, the video, interactive-visual, infographic, text and template cards, the lesson list and path components, the loader and the Markdown renderer.
- `lib/types.ts` declares `file_path`/`file_size` while the upload writes `path`/`size`. `DocumentsContainer.Document` follows the columns the upload writes.
- LessonComplete.Score: computes `Math.round(c / t * 100)` by exact round-half-up on rationals. Floating point can land just below a half, for example 29/200·100 = 14.499…. The float result may then differ by one at such ties.
- DocumentList.UnitIndexBounds: takes `Math.log(bytes) / Math.log(1024)` as an exact logarithm. Near powers of 1024 the float quotient may round the other way. `toFixed(1)` is taken as exact, which holds for sizes below 2^53.
- DocumentList.DaysBucket: the locale date text (`toLocaleDateString`) is a parameter, and so is parsing the ISO date.
- OralExam.SliceContext: `slice(0, 1500)` counts UTF-16 code units, while the model counts Unicode scalar values. Text outside the Basic Multilingual Plane keeps more characters here than in the source, which can also end on a lone high surrogate.
- OralExam.FallbackContent: the `slice(0, 1000)` of the lesson content counts Unicode scalar values, not UTF-16 code units, as for SliceContext.
- GenerateLessons.Excerpt: the `slice(0, 15000)` of the joined pages counts Unicode scalar values, not UTF-16 code units, as for SliceContext.
- StoreLessons.LessonEntries: a string's `length` and `s[i]` count Unicode scalar values, not UTF-16 code units. An object's own `length` that is a string, array or object is taken as giving no entries, although `<` would convert it to a number. An own numeric `length` above 2^53 counts `ceil(length)` entries and stops, whereas the source's double-precision `i++` stays at 2^53 and the loop never ends (an `Infinity` length, which the model's values cannot hold, loops the same way).
- McQuestionCard.OptionLetter: bounded below the surrogate range of Dafny's `char`; the source has no bound.
- The typed card content used by the UI (`McQuestionCard.Content`, `FillInBlankCard.Content`) is taken as already well-typed. The source casts it without checking.
