# NovaX career counselling: a Dafny model

NovaX is a Django web application. It helps students in Myanmar choose a career. Its core is a
rule-based assessment dialogue that asks 13 ratings from 1 to 10, one turn at a time: five personality
traits, five aptitudes and three work preferences. The dialogue also lets the student go back and
correct an earlier rating. The collected answers feed the web views. The views turn them into the
report's score bands, the top strengths and the work-style and environment preferences. They also
build the feature vector handed to the career classifier. Around this core sit the student profile
form, with its cross-field checks and the way it stores subject marks, and the derived values of the
data models.

This project models that core in Dafny and proves what it promises.

- `wrappers.dfy`: module `Wrappers`, the `Option` type.
- `text.dfy`: module `Text`, the Python string operations the code relies on (`lower`, `strip`,
  `startswith`, `in`, `replace`, `split`, `join`), for ASCII text.
- `catalogue.dfy`: module `Catalogue`, the fixed question catalogue, the field descriptions and the
  lookups over them.
- `counselor.dfy`: module `Counselor`, the dialogue state machine. It holds the pure transition
  functions (`Turn` and the helpers it dispatches to) and the class `CollectedData`, the answer dict
  that the source mutates in place. It also holds the imperative methods, with their loops, proved
  equal to the transition functions.
- `counselor_props.dfy`: module `CounselorProperties`, the properties of the dialogue, including:
  - a full traversal records all 13 answers and completes exactly on the last one;
  - editing changes only the edited answer and resumes at the first unanswered later field;
  - the reachable-state invariant of the corrected dialogue: from the greeting on, no turn raises
    and every recorded answer is a catalogue field rated from 1 to 10;
  - the dialogue as written raises KeyError on an unmatched edit selection once Perceptual_Aptitude
    is answered, and from the greeting on it raises nowhere else.
- `views.dfy`: module `Views`, covering:
  - the score bands and the preference classifiers;
  - the stable top-five strengths;
  - the classifier's feature vector;
  - the language fallback of translated fields;
  - the checks on a submitted review.
- `models.dfy`: module `Models`, the derived values of the data models, including the related-majors
  keyword query.
- `form.dfy`: module `Form`, the profile form's `clean` and `save`.

Parsing is abstract. A dialogue turn's input `Answer` carries:

- the raw text;
- the result of `float(text)`, as an `Option`;
- the result of `int(text.lower().strip())`, as an `Option`.

The marks field of the form is given as the result of `json.loads`. An exception the source does not
catch is a value of the model:

- `Reply.Raised` in the dialogue, carrying the exception (`ValueError`, `AttributeError` or
  `KeyError` with its key), with the answers unchanged;
- `CleanResult.Crashed` in the form.

## Model

| member | source | states |
|---|---|---|
| Counselor.InitialGreeting | NovaX_webpage/ai_counselor.py:38-52 | the greeting asks the first catalogue field (C_score) in its phase and is not completed |
| Counselor.Answers.Put | NovaX_webpage/ai_counselor.py:380-381 | storing a rating keeps the answer dict well formed (distinct keys in insertion order, each key scored) and records the rating under the field |
| Counselor.CollectedData.constructor | NovaX_webpage/views.py:394 | a new answer dict is empty and well formed |
| Counselor.CollectedData.Put | NovaX_webpage/ai_counselor.py:380-381 | `collected_data[field] = score` updates the dict in place: the new contents are the old contents with the rating put under the field |
| Counselor.EditRequestReply | NovaX_webpage/ai_counselor.py:105-146 | with no answers an edit request restarts at the first field; otherwise it shows the answered fields, in order, as edit options in step "editing" |
| Counselor.MatchByText | NovaX_webpage/ai_counselor.py:239-244 | the corrected text match: a field returned is an answered one that matches the input by name or by a description word; None exactly when no answered field matches |
| Counselor.MatchByTextFirst | NovaX_webpage/ai_counselor.py:239-242 | the loop returns the first answered field that matches: a matching field with no match before it is the result |
| Counselor.FindField | NovaX_webpage/ai_counselor.py:224-244 | a number n from 1 to the number of answers selects the n-th answered field; any other input is the corrected text match on the lower-cased, stripped text; any field returned is an answered one |
| Counselor.MatchByTextAsWritten | NovaX_webpage/ai_counselor.py:239-244 | the as-written text match raises KeyError only on an answered field that has no description; when every answered field has one it agrees with the corrected match |
| Counselor.FindFieldAsWritten | NovaX_webpage/ai_counselor.py:224-244 | the as-written lookup: the same agreement, and a KeyError only on a field lacking a description |
| Counselor.SelectionReply | NovaX_webpage/ai_counselor.py:174-244 | in the corrected dialogue the selection never raises or completes; it moves to step "editing_field" exactly when the lookup finds a non-empty field, and then asks that field again under the `editing_` marker; otherwise the menu of the answered fields is shown again |
| Counselor.EditAnswer | NovaX_webpage/ai_counselor.py:284-359 | an invalid corrected rating changes nothing and asks again for the same field; a valid one overwrites the field and resumes at the first unanswered catalogue field after it, in that field's phase, or completes when there is none |
| Counselor.RuleBased | NovaX_webpage/ai_counselor.py:369-434 | the rule-based step of the corrected dialogue never changes the answers when it raises |
| Counselor.Turn | NovaX_webpage/ai_counselor.py:54-86 | a turn of the corrected dialogue keeps the answers well formed, only ever adds at most one new key, and changes nothing when it raises |
| Counselor.SelectionReplyAsWritten | NovaX_webpage/ai_counselor.py:174-244 | the selection as written raises exactly when the as-written lookup does, with KeyError on an answered field lacking a description; otherwise it replies as the corrected selection |
| Counselor.TurnAsWritten | NovaX_webpage/ai_counselor.py:54-86 | a turn as written changes nothing when it raises; it differs from the corrected turn only by a KeyError in the edit menu on an answered undescribed field, and not at all when every answered field is described |
| Counselor.FindIndex | NovaX_webpage/ai_counselor.py:377-382 | the search loop over the catalogue finds the first entry for the field, or None |
| Counselor.CurrentQuestion | NovaX_webpage/ai_counselor.py:166-172 | the loop returns the catalogue prompt of the field, or the generic prompt |
| Counselor.QuestionAt | NovaX_webpage/ai_counselor.py:166-172 | a field first listed at entry i is asked with the prompt of entry i |
| Counselor.QuestionAbsent | NovaX_webpage/ai_counselor.py:166-172 | a field the catalogue does not list gets the generic prompt |
| Counselor.NextFieldAfterEdit | NovaX_webpage/ai_counselor.py:338-359 | the two loops return the first unanswered catalogue field after the edited one |
| Counselor.ProcessEditAnswer | NovaX_webpage/ai_counselor.py:284-336 | the in-place edit leaves the dict in the state, and gives the reply, of `EditAnswer` |
| Counselor.RuleBasedNextQuestion | NovaX_webpage/ai_counselor.py:369-434 | the in-place rule-based step matches `RuleBased`, of the corrected dialogue, on the dict's contents |
| Counselor.ProcessAnswer | NovaX_webpage/ai_counselor.py:54-86 | `process_answer` of the corrected dialogue on the mutable dict matches `Turn`, and the dict stays well formed |
| Catalogue.FlowFields | NovaX_webpage/ai_counselor.py:436-462 | the catalogue has 13 entries, listed by `Fields` |
| Catalogue.FieldsDistinct | NovaX_webpage/ai_counselor.py:436-462 | each field is asked exactly once |
| Catalogue.FlowPhases | NovaX_webpage/ai_counselor.py:436-462 | every entry belongs to the personality, aptitude or preference phase |
| Catalogue.FieldsUnmarked | NovaX_webpage/ai_counselor.py:436-462 | no field name is empty or contains the `editing_` marker |
| Catalogue.IndexOf | NovaX_webpage/ai_counselor.py:377-382 | the position found holds the field; None exactly when the catalogue does not ask the field |
| Catalogue.IndexOfField | NovaX_webpage/ai_counselor.py:377-382 | every catalogue field is found at its own position |
| Catalogue.StepForField | NovaX_webpage/ai_counselor.py:361-367 | the phase of a catalogue field, and "personality" for any other field |
| Catalogue.QuestionFor | NovaX_webpage/ai_counselor.py:166-172 | the prompt of a catalogue field, and the generic prompt for None or an unknown field |
| Catalogue.FirstUnanswered | NovaX_webpage/ai_counselor.py:348-357 | the first unanswered position from a start point; every position skipped is answered |
| Catalogue.NextAfterEdit | NovaX_webpage/ai_counselor.py:338-359 | resumes strictly after the edited field at its first unanswered successor; None when all later fields are answered or the field is not in the catalogue |
| Text.PrefixRemoved | NovaX_webpage/ai_counselor.py:376 | removing the `editing_` marker gives back the field it was put on |
| CounselorProperties.PutExisting | NovaX_webpage/ai_counselor.py:380-381 | re-rating an answered field keeps the key order and every other score |
| CounselorProperties.PutNew | NovaX_webpage/ai_counselor.py:380-381 | rating a field not yet answered appends it after the answered ones |
| CounselorProperties.KeywordDetected | NovaX_webpage/ai_counselor.py:88-91 | any text containing an edit keyword, in any letter case, is an edit request |
| CounselorProperties.NumeralNotEditRequest | NovaX_webpage/ai_counselor.py:88-91 | a plain number is never taken for an edit request |
| CounselorProperties.PhaseNotEditMode | NovaX_webpage/ai_counselor.py:93-95 | the catalogue phases are not edit-mode steps |
| CounselorProperties.UnmarkedField | NovaX_webpage/ai_counselor.py:379-381 | a catalogue field is always stored: it is non-empty and unmarked |
| CounselorProperties.InvalidAnswerRepeats | NovaX_webpage/ai_counselor.py:61-75 | outside edit mode a non-rating records nothing and asks the same field again in the same step |
| CounselorProperties.ValidAnswerAdvances | NovaX_webpage/ai_counselor.py:379-415 | a valid rating of entry i records it and asks entry i + 1, or completes after the last entry |
| CounselorProperties.UncataloguedFieldCompletes | NovaX_webpage/ai_counselor.py:416-434 | a rating for a field outside the catalogue is stored and completes the assessment |
| CounselorProperties.Collected | NovaX_webpage/ai_counselor.py:380-381 | ratings accumulated one per turn stay between 1 and 10 |
| CounselorProperties.CollectedShape | NovaX_webpage/ai_counselor.py:380-381 | rating k distinct fields in turn records them in that order, each with its own rating |
| CounselorProperties.CollectedKeys | NovaX_webpage/ai_counselor.py:380-381 | rating the first k fields of a list without repetitions, one per turn, leaves a well-formed dict whose keys are those k fields in order |
| CounselorProperties.CollectedScores | NovaX_webpage/ai_counselor.py:380-381 | each of those k fields holds the rating given on its own turn |
| CounselorProperties.TraversalPrefix | NovaX_webpage/ai_counselor.py:369-434 | after k valid ratings the dialogue asks entry k with the first k answers recorded |
| CounselorProperties.AnswerEntry | NovaX_webpage/ai_counselor.py:369-415 | a valid rating of entry i records it and moves the session to entry i + 1, or to "completed" after the last |
| CounselorProperties.TraversalTurn | NovaX_webpage/ai_counselor.py:369-434 | each turn of a traversal replies, and completes only on the last entry |
| CounselorProperties.TraversalEnd | NovaX_webpage/ai_counselor.py:416-434 | after 13 ratings the session is completed with every field recorded |
| CounselorProperties.TraversalCompletesOnLast | NovaX_webpage/ai_counselor.py:369-434 | thirteen valid ratings: every turn replies and exactly the thirteenth completes |
| CounselorProperties.TraversalRecordsAll | NovaX_webpage/ai_counselor.py:369-434 | after thirteen valid ratings the answers are exactly the 13 fields in catalogue order, each with its rating |
| CounselorProperties.EditRequestKeepsAnswers | NovaX_webpage/ai_counselor.py:57-59 | an edit request, in any state, changes no answer |
| CounselorProperties.SelectByNumber | NovaX_webpage/ai_counselor.py:174-222 | in the edit menu, the number n selects the n-th answered field |
| CounselorProperties.SelectByText | NovaX_webpage/ai_counselor.py:174-244 | in the edit menu, text that is not a menu number asks again the first answered field it matches by name or description |
| CounselorProperties.EditOverwritesOnlyField | NovaX_webpage/ai_counselor.py:284-300 | a valid correction changes the edited score and nothing else |
| CounselorProperties.EditIdempotent | NovaX_webpage/ai_counselor.py:284-300 | submitting the same correction twice stores what submitting it once does |
| CounselorProperties.ResumeAfterPersonality | NovaX_webpage/ai_counselor.py:338-359 | re-rating E_score with the personality phase answered resumes at Numerical_Aptitude |
| CounselorProperties.ResumeSkipsAnswered | NovaX_webpage/ai_counselor.py:338-359 | the resume point skips answered fields and stops at the first gap |
| CounselorProperties.ResumeAtEnd | NovaX_webpage/ai_counselor.py:338-359 | re-rating the last catalogue field completes the assessment |
| CounselorProperties.ResumeOutsideCatalogue | NovaX_webpage/ai_counselor.py:338-359 | re-rating a field outside the catalogue (the retired Logical_Reasoning) completes the assessment |
| CounselorProperties.NotMatchedBy | NovaX_webpage/ai_counselor.py:239-244 | a character absent from a field's name and description does not select it |
| CounselorProperties.AsWrittenSkips | NovaX_webpage/ai_counselor.py:239-244 | the as-written match passes over described fields that do not match |
| CounselorProperties.FieldNamesWithoutQuestionMark | NovaX_webpage/ai_counselor.py:436-462 | no field name contains '?' |
| CounselorProperties.DescribedFields | NovaX_webpage/ai_counselor.py:148-164 | the first eight catalogue fields have descriptions |
| CounselorProperties.DescriptionWithoutQuestionMark | NovaX_webpage/ai_counselor.py:148-164 | each of the first eight fields has a description without '?' |
| CounselorProperties.PerceptualUndescribed | NovaX_webpage/ai_counselor.py:148-164 | Perceptual_Aptitude, the ninth field, has no description |
| CounselorProperties.QuestionMarkMatchesNothing | NovaX_webpage/ai_counselor.py:239-244 | "?" matches none of the first nine fields |
| CounselorProperties.NothingMatched | NovaX_webpage/ai_counselor.py:239-244 | when no answered field matches the text, the corrected match finds nothing |
| CounselorProperties.FirstNineFields | NovaX_webpage/ai_counselor.py:148-164 | of the first nine catalogue fields the first eight are described, the ninth (Perceptual_Aptitude) is not, and none matches "?" |
| CounselorProperties.AsWrittenRaises | NovaX_webpage/ai_counselor.py:239-244 | the as-written match raises on the first undescribed field when nothing before it matched |
| CounselorProperties.UnmatchedSelectionRaises | NovaX_webpage/ai_counselor.py:241 | with the first nine fields answered, an unmatched selection raises KeyError on Perceptual_Aptitude |
| CounselorProperties.UnmatchedSelectionShowsMenu | NovaX_webpage/ai_counselor.py:174-222 | the corrected lookup finds nothing and the menu is shown again |
| CounselorProperties.UnmatchedSelectionRaisesInTurn | NovaX_webpage/ai_counselor.py:54-86 | with the first nine fields answered, the as-written turn in the edit menu raises KeyError on Perceptual_Aptitude for the input "?" and keeps the answers |
| CounselorProperties.RatingsRecorded | NovaX_webpage/ai_counselor.py:369-415 | n valid ratings from the greeting record exactly the first n catalogue fields with their ratings |
| CounselorProperties.CollectedPrefix | NovaX_webpage/ai_counselor.py:380-381 | the answers collected from the first n catalogue fields are well formed with those n keys in order |
| CounselorProperties.EditRequestOpensMenu | NovaX_webpage/ai_counselor.py:105-146 | with answers recorded, an edit request opens the edit menu and keeps the answers |
| CounselorProperties.AsWrittenRunRaises | NovaX_webpage/ai_counselor.py:54-86 | the greeting, nine valid ratings and "edit" reach the edit menu, where the as-written turn on "?" raises KeyError on Perceptual_Aptitude |
| CounselorProperties.StartWellFormed | NovaX_webpage/ai_counselor.py:38-52 | the greeting state satisfies the dialogue invariant |
| CounselorProperties.EditRequestTurn | NovaX_webpage/ai_counselor.py:105-146 | an edit request from a valid state replies and keeps the invariant |
| CounselorProperties.PhaseTurn | NovaX_webpage/ai_counselor.py:369-434 | a turn while a catalogue field is asked replies and keeps the invariant |
| CounselorProperties.SelectionTurn | NovaX_webpage/ai_counselor.py:174-244 | in the corrected dialogue a turn in the edit menu replies and keeps the invariant |
| CounselorProperties.SelectionDispatch | NovaX_webpage/ai_counselor.py:371-373 | in the edit menu, a turn that is not an edit request processes the selection and changes no answer |
| CounselorProperties.EditFieldDispatch | NovaX_webpage/ai_counselor.py:375-377 | awaiting a correction, a turn processes it for the unmarked field |
| CounselorProperties.EditFieldTurn | NovaX_webpage/ai_counselor.py:284-336 | a corrected rating turn replies and keeps the invariant |
| CounselorProperties.CompletedTurn | NovaX_webpage/ai_counselor.py:416-434 | a turn after completion replies and keeps the invariant |
| CounselorProperties.TurnKeepsWellFormed | NovaX_webpage/ai_counselor.py:54-86 | in the corrected dialogue every turn from a valid state replies without raising and leads to a valid state |
| CounselorProperties.RunWellFormed | NovaX_webpage/ai_counselor.py:54-86 | in the corrected dialogue, whatever the student types, from the greeting on no turn raises and every answer is a catalogue field rated 1 to 10 |
| CounselorProperties.AsWrittenRaisesOnlyOnSelection | NovaX_webpage/ai_counselor.py:54-86 | from any valid state the as-written turn raises only in the edit menu, and only KeyError on an answered field without a description |
| CounselorProperties.NextAsWrittenWellFormed | NovaX_webpage/views.py:427-502 | a turn of the dialogue as written keeps the invariant, a raise leaving the session as it was |
| CounselorProperties.RunAsWrittenWellFormed | NovaX_webpage/ai_counselor.py:54-86 | from the greeting on, the dialogue as written stays in its known states and raises only KeyError in the edit menu, on an answered field without a description |
| Views.Level | NovaX_webpage/views.py:330-343 | "Not assessed" exactly for a missing score; Basic exactly up to 3, Intermediate above 3 up to 6, Advanced above 6 up to 8, Expert above 8 |
| Views.LevelMonotone | NovaX_webpage/views.py:330-343 | a higher score never gets a lower level |
| Views.LevelBoundaries | NovaX_webpage/views.py:330-343 | 3, 6 and 8 are inclusive upper bounds of Basic, Intermediate and Advanced |
| Views.Band | NovaX_webpage/views.py:321-326 | "low" exactly up to 4, "medium" exactly above 4 up to 7, "high" exactly above 7 |
| Views.Interpretation | NovaX_webpage/views.py:287-328 | "Not assessed" for a missing score; "Average" for a trait the table lacks |
| Views.InterpretationByBand | NovaX_webpage/views.py:287-328 | two scores in the same band get the same interpretation |
| Views.InterpretationKnownTrait | NovaX_webpage/views.py:287-328 | every band of the five traits has its own description, never "Average" |
| Views.ScoredItems | NovaX_webpage/views.py:347-350 | a pair is kept exactly when its score is not None: every kept pair is an item of the dict and every scored item is kept |
| Views.ScoredItemsConcat | NovaX_webpage/views.py:347-350 | the items are kept in dict order: the scored items of two runs of items are those of the first run followed by those of the second |
| Views.Insert | NovaX_webpage/views.py:352 | insertion adds the element, and keeps a sorted list sorted |
| Views.InsertSorted | NovaX_webpage/views.py:352 | placing an element behind a head that outscores it keeps the order |
| Views.SortDesc | NovaX_webpage/views.py:352 | the sort is a permutation ordered by non-increasing score |
| Views.InsertWithScore | NovaX_webpage/views.py:352 | insertion puts an element before the others of its own score |
| Views.SortStable | NovaX_webpage/views.py:352 | the sort keeps entries of equal score in their dict order |
| Views.TopEntries | NovaX_webpage/views.py:353-354 | five entries, or all of them when fewer are scored |
| Views.TopStrengths | NovaX_webpage/views.py:345-354 | at most five fields |
| Views.SortedPrefixMaximal | NovaX_webpage/views.py:352-354 | in a sorted list nothing after the cut outscores anything before it |
| Views.TopStrengthsScored | NovaX_webpage/views.py:345-354 | every strength is a field with a score, listed by non-increasing score |
| Views.TopStrengthsMaximal | NovaX_webpage/views.py:345-354 | no scored field left out outscores one reported |
| Views.StrengthsForCareer | NovaX_webpage/views.py:345-354 | the append loop, the sort and the slice compute the top strengths |
| Views.WorkStyle | NovaX_webpage/views.py:356-369 | teamwork of 8 or more decides first; "balanced and varied work" exactly when all three are below 8 |
| Views.WorkStylePriority | NovaX_webpage/views.py:356-369 | creativity decides only below the teamwork threshold, detail only below both |
| Views.WorkStyleEmpty | NovaX_webpage/views.py:356-369 | missing answers default to 5, giving the balanced style |
| Views.Environment | NovaX_webpage/views.py:371-383 | each of the four settings holds exactly for its combination of extraversion and openness at 7 or more |
| Views.FeatureVector | NovaX_webpage/views.py:553-582 | one slot per feature, 13 in all |
| Views.DirectFeatures | NovaX_webpage/views.py:553-582 | the five traits and the three preferences fill their slots with the answer of the same name |
| Views.AbsentAnswerDefaults | NovaX_webpage/views.py:570-582 | a slot whose answer is not collected, or that has no answer key, is 5 |
| Views.BuildFeatures | NovaX_webpage/views.py:570-582 | the append loop builds the feature vector |
| Views.PerceptualIgnored | NovaX_webpage/views.py:561-579 | the Perceptual Aptitude slot is always 5; the collected Perceptual_Aptitude answer has no effect |
| Views.EmptyFeatures | NovaX_webpage/views.py:553-582 | with no answers every slot is 5 |
| Views.RenamedFeatures | NovaX_webpage/views.py:561-576 | the renamed slots read Numerical_Aptitude, Spatial_Aptitude, Abstract_Reasoning and Verbal_Aptitude |
| Views.FirstValue | NovaX_webpage/views.py:845-852 | empty exactly when every candidate is absent or empty |
| Views.FirstValueIsFirst | NovaX_webpage/views.py:845-852 | a non-empty result is the value of a candidate before which every candidate is empty |
| Views.Translate | NovaX_webpage/views.py:845-852 | the loop with early return yields the first non-empty candidate value |
| Views.TranslatePrefersLanguage | NovaX_webpage/views.py:845-852 | the requested language wins when its value is non-empty |
| Views.LeadingZero | NovaX_webpage/views.py:1428 | leading zeros do not change `int(rating)` |
| Views.AddReview | NovaX_webpage/views.py:1422-1441 | a review is created exactly for a digit rating from 1 to 5 and a non-blank text; it stores the rating's decimal value and the stripped text |
| Views.SingleDigitRating | NovaX_webpage/views.py:1428-1430 | a one-character rating is accepted exactly for 1 to 5 |
| Views.BlankReviewRejected | NovaX_webpage/views.py:1432-1434 | white-space text is rejected whatever the rating |
| Models.IsComplete | NovaX_webpage/models.py:933-943 | with exam "none" the four personal fields decide; otherwise the school and the passed date are also needed |
| Models.CompleteWithoutExam | NovaX_webpage/models.py:933-943 | with exam "none" the exam details play no part |
| Models.CompleteDropExam | NovaX_webpage/models.py:933-943 | a complete profile stays complete when the exam becomes "none" |
| Models.Snippet | NovaX_webpage/models.py:286-288 | unchanged up to 150 characters; otherwise exactly 150: the first 147 and "..." |
| Models.MetaDescription | NovaX_webpage/models.py:282-289 | the title, " – ", then the snippet of the description, an absent description counting as empty |
| Models.SnippetIdempotent | NovaX_webpage/models.py:286-288 | truncating a snippet again changes nothing |
| Models.JobOutlook | NovaX_webpage/models.py:202-209 | "Unknown" exactly for a value outside the four known ones |
| Models.JobOutlookMy | NovaX_webpage/models.py:211-218 | the Myanmar "unknown" exactly for a value outside the four known ones |
| Models.OutlookLanguagesAgree | NovaX_webpage/models.py:202-218 | a value is unknown in English exactly when it is unknown in Myanmar |
| Models.MyanmarOrEnglish | NovaX_webpage/models.py:149-156 | the Myanmar text when non-empty, else the English one |
| Models.FallbackNonEmpty | NovaX_webpage/models.py:149-156 | the result is empty only when both texts are |
| Models.LastUpdated | NovaX_webpage/models.py:388-391 | the data update time when set, else the record's update time |
| Models.UniversityName | NovaX_webpage/models.py:781-786 | the public university first, then the private college, else "Unknown University" |
| Models.EitherListed | NovaX_webpage/models.py:523-533 | a degree level is offered exactly when its English or Myanmar list is non-empty |
| Models.ProgrammeFlagsIndependent | NovaX_webpage/models.py:722-733 | each flag depends only on its own degree level's lists: changing the lists of one level leaves the other two flags, and sets that level's flag exactly when a new list is non-empty |
| Models.KeywordList | NovaX_webpage/models.py:159-170 | the keywords are exactly the comma-separated parts, stripped and lower-cased; none for an empty text |
| Models.Keywords | NovaX_webpage/models.py:158-172 | the keyword set is exactly the category keywords, the career keywords and the lower-cased title words |
| Models.TitleOnlyKeywords | NovaX_webpage/models.py:158-172 | a career with no keyword texts and a one-word title has exactly that word as its keyword set |
| Models.QueryTerms | NovaX_webpage/models.py:176-180 | the query uses exactly the keywords longer than two characters |
| Models.RelatedQueryAsWritten | NovaX_webpage/models.py:173-182 | no majors for no keywords; all majors when keywords exist but none is longer than two characters |
| Models.RelatedQuery | NovaX_webpage/models.py:173-182 | the corrected query: no majors exactly when no keyword is long enough, and never all majors |
| Models.RelatedMajorsShareKeyword | NovaX_webpage/models.py:176-182 | a major is selected exactly when it shares a long keyword with the career |
| Models.RelatedQueriesAgree | NovaX_webpage/models.py:173-182 | both queries agree when a long keyword exists |
| Models.ShortKeywordsSelectEverything | NovaX_webpage/models.py:173-182 | a career titled with one short word selects every major as written and none as corrected |
| Models.RelatedMajors | NovaX_webpage/models.py:176-182 | the first `limit` majors the query selects, in order: exactly `limit` of them when at least that many are selected |
| Models.Selected | NovaX_webpage/models.py:176-182 | a major is in the filter result exactly when it is given and the query selects it |
| Form.MissingUpTo | NovaX_webpage/form.py:29-41 | among the first n required fields, a display name is listed exactly when its field is falsy, and only names of those n fields |
| Form.MissingStep | NovaX_webpage/form.py:37-41 | checking one more field appends at most its own display name |
| Form.MissingInOrder | NovaX_webpage/form.py:29-41 | the missing names are listed in the fixed order of the required fields |
| Form.Tally | NovaX_webpage/form.py:67-70 | the count never exceeds the number of entries |
| Form.TallyRaisesOnward | NovaX_webpage/form.py:68-70 | once an entry raises, the loop raises |
| Form.EntryRaises | NovaX_webpage/form.py:67-70 | an entry with a subject and a truthy non-string mark makes the whole count raise |
| Form.CheckMarks | NovaX_webpage/form.py:60-80 | marks pass exactly when they decode to an object with at least four counted entries; fewer than four give the few-marks error; the check raises exactly when counting an object's entries raises; blank or malformed text and a non-object give their own messages |
| Form.OptionalMarks | NovaX_webpage/form.py:82-89 | with no exam, an object is kept, an empty text keeps the empty object, and decode errors store nothing |
| Form.CleanSpec | NovaX_webpage/form.py:25-91 | missing fields give one error naming all of them; with no exam the marks never cause rejection; with an exam, a missing date gives the date error, then a missing school the school error; with both present the result is the marks check, so acceptance holds exactly when four counted marks are there |
| Form.MissingNamesExactly | NovaX_webpage/form.py:29-46 | the error names exactly the falsy fields |
| Form.AcceptedIsComplete | NovaX_webpage/form.py:25-91 | a profile the form accepts is complete for quiz access |
| Form.DateCheckedFirst | NovaX_webpage/form.py:51-57 | with an exam taken, a missing date is reported before a missing school |
| Form.UndecodableMarksRejected | NovaX_webpage/form.py:60-64 | with an exam taken, marks that do not decode to an object are rejected with their messages |
| Form.NonStringMarkRaises | NovaX_webpage/form.py:68-69 | a truthy non-string mark under a named subject makes `clean` raise |
| Form.TallyStep | NovaX_webpage/form.py:68-70 | one more entry extends the count by its verdict |
| Form.CountEntries | NovaX_webpage/form.py:67-70 | the counting loop computes the count, or stops where it raises |
| Form.Clean | NovaX_webpage/form.py:25-91 | the loop over required fields and the checks in order give `CleanSpec` |
| Form.MergeMarks | NovaX_webpage/form.py:97-103 | with an exam and non-empty marks the exam's entry is set and the other exams kept; otherwise nothing changes |
| Form.MergeKeepsOtherExams | NovaX_webpage/form.py:100-103 | the merge only adds or replaces the selected exam |
| Form.MergeIdempotent | NovaX_webpage/form.py:100-103 | merging the same marks twice stores what merging once does |
| Form.ProfileRecord.constructor | NovaX_webpage/form.py:94 | the instance starts with its stored marks |
| Form.ProfileRecord.Save | NovaX_webpage/form.py:93-108 | `save` updates the stored marks in place as `MergeMarks` says |

## Left out

- The Gemini-enhanced reply path. It is a network client with retries, and the model sets it
  absent, as when no API key is configured.
- The wording of messages. The source picks them with `random.choice`. Every reply models
  `next_question`, `field`, `conversation_step`, `show_edit_option`, `completed` and the edit options,
  but not `message`.
- The wording of `_get_question_for_field`. A re-rating prompt is modelled as `AskRating(field)`.
- The `field_to_edit` key of the selection reply.
- The parsing of `float` and `int`. They are inputs of each turn, and NaN and infinities are not
  modelled.
- Python's Unicode rules for `lower`, `strip`, `split` and `isdigit`. The model follows their ASCII
  behaviour.
- Counselor.Turn: uses the corrected field lookup, so it does not raise where the source raises
  KeyError (see Findings). `Counselor.TurnAsWritten` is the turn as written, and
  `CounselorProperties.AsWrittenRaisesOnlyOnSelection` bounds where the two differ.
- Counselor.SelectionReply: the corrected selection; `Counselor.SelectionReplyAsWritten` raises
  the KeyError of the source.
- Counselor.RuleBased: dispatches to the corrected selection, so it shares that gap.
- Counselor.RuleBasedNextQuestion: the in-place rule-based step is proved against `RuleBased`, so it
  shows the menu again where the source raises KeyError on an unmatched selection.
- Counselor.ProcessAnswer: the in-place turn is proved against the corrected `Turn`, with the same
  gap; the as-written turn is modelled only on values, by `Counselor.TurnAsWritten`.
- CounselorProperties.SelectionTurn: "replies without raising" holds for the corrected selection
  only; as written the selection raises KeyError once Perceptual_Aptitude is answered.
- CounselorProperties.TurnKeepsWellFormed: "never raises" holds for the corrected dialogue only.
- CounselorProperties.RunWellFormed: the no-raise invariant holds for the corrected dialogue. As
  written, a session that has answered Perceptual_Aptitude raises on an unmatched edit selection;
  the view turns the exception into a JSON error and the session is not updated.
  `CounselorProperties.RunAsWrittenWellFormed` is the invariant of the dialogue as written.
- The classifier itself: model loading, scaling, soft voting, ranking and rounding. This is
  floating-point numerics in foreign libraries. Only the feature vector is modelled.
- The PDF report layout.
- Django plumbing:
  - sessions, JSON responses, authentication and password reset;
  - database writes (`inst.save()`, `AppReview.objects.create`);
  - the non-POST branch of `add_review`, which only redirects.
- The database ordering and `distinct()` of the related-majors query. `Models.RelatedMajors` takes
  the majors in the order given.
- Views.WorkStyle: None values in the answer dict are not modelled. The source would raise a
  TypeError on comparing None; the dialogue never stores one. The same holds for
  `Views.Environment` and `Views.FeatureVector`.
- Views.AddReview: only ASCII digits count as digits, where `str.isdigit` also accepts other
  Unicode digits.
- Form.CleanSpec: marks decoding to an object with duplicate keys are taken as decoded, with the
  last value kept by `json.loads`.
- Form.ProfileRecord.Save: a stored marks value that is truthy but not a dict is not modelled.

## Findings

| source | as written | input that shows it | evidently intended | confidence | as-written member | corrected member |
|---|---|---|---|---|---|---|
| NovaX_webpage/ai_counselor.py:241 | the text match looks up `field_descriptions[field]` for each answered field, and `Perceptual_Aptitude` has no description | with the first nine fields answered, the selection "?" in the edit menu raises KeyError | fall back to the field name, so an unmatched selection shows the menu again | not executed | CounselorProperties.AsWrittenRunRaises | CounselorProperties.UnmatchedSelectionShowsMenu |
| NovaX_webpage/models.py:173-182 | when keywords exist but none is longer than two characters, the query stays an empty `Q()`, which selects every major | a career titled "IT" with no keyword lists | no related majors, as for a career with no keywords | not executed | Models.ShortKeywordsSelectEverything | Models.RelatedMajorsShareKeyword |
