/**
 * Properties of the assessment dialogue: how a rating moves the dialogue forward, that rating
 * every catalogue question in order completes the assessment with exactly those answers, what
 * the edit sub-flow may change, and an invariant of every session reachable from the greeting.
 */
module CounselorProperties {
  import opened Wrappers
  import opened Text
  import opened Catalogue
  import opened Counselor

  // ---------------------------------------------------------------------------------------
  // The answer dict
  // ---------------------------------------------------------------------------------------

  /** Re-answering a field keeps the order of the keys and changes only that field's score. */
  lemma PutExisting(a: Answers, f: string, v: real)
    requires a.Valid() && f in a.scores
    ensures a.Put(f, v).keys == a.keys
    ensures forall k :: k != f ==> (k in a.Put(f, v).scores <==> k in a.scores)
    ensures forall k :: k != f && k in a.scores ==> a.Put(f, v).scores[k] == a.scores[k]
  {
  }

  /** A new field goes after every field answered before it. */
  lemma PutNew(a: Answers, f: string, v: real)
    requires a.Valid() && f !in a.keys
    ensures a.Put(f, v).keys == a.keys + [f]
  {
  }

  // ---------------------------------------------------------------------------------------
  // Recognising edit requests
  // ---------------------------------------------------------------------------------------

  /** Any text that contains an edit keyword, in any letter case, is an edit request. */
  lemma KeywordDetected(before: string, w: string, after: string, k: nat)
    requires k < |EditKeywords| && Lower(w) == EditKeywords[k]
    ensures IsEditRequest(before + w + after)
  {
    LowerConcat(before + w, after);
    LowerConcat(before, w);
    ContainsInfix(Lower(before), Lower(w), Lower(after));
  }

  /** A plain number (digits and a decimal point) is never taken for an edit request. */
  lemma NumeralNotEditRequest(text: string)
    requires forall i :: 0 <= i < |text| ==> IsDigit(text[i]) || text[i] == '.'
    ensures !IsEditRequest(text)
  {
    LowerFixed(text);
    forall k | 0 <= k < |EditKeywords|
      ensures !Contains(Lower(text), EditKeywords[k])
    {
      assert EditKeywords[k][0] !in text;
      if Contains(Lower(text), EditKeywords[k]) {
        ContainsChars(Lower(text), EditKeywords[k], 0);
      }
    }
  }

  // ---------------------------------------------------------------------------------------
  // The main question flow
  // ---------------------------------------------------------------------------------------

  /** The catalogue's phases are not edit-mode steps. */
  lemma PhaseNotEditMode(step: string)
    requires IsPhase(step)
    ensures !IsEditMode(step) && step != "editing" && step != "editing_field"
  {
    assert step[0] != 'e';
    assert |step| >= 7 ==> step[..7][0] == step[0];
  }

  /** A catalogue field is non-empty and does not carry the edit marker. */
  lemma UnmarkedField(f: string)
    requires f in Fields
    ensures f != "" && !Contains(f, EditPrefix) && !StartsWith(f, EditPrefix)
  {
    FieldsUnmarked();
    var i :| 0 <= i < |Fields| && Fields[i] == f;
  }

  /** Outside edit mode, an answer that is not a rating from 1 to 10 records nothing and asks
      the same question again, keeping the field and step. */
  lemma InvalidAnswerRepeats(a: Answers, x: Answer, field: Option<string>, step: string)
    requires !IsEditRequest(x.text) && !IsEditMode(step) && !IsValidScore(x.number)
    ensures var o := Turn(a, x, field, step);
      && o.data == a
      && o.reply.Reply? && o.reply.nextQuestion == Ask(QuestionFor(field))
      && o.reply.field == field && o.reply.step == step && !o.reply.completed
  {
  }

  /** A valid rating of catalogue entry i records exactly that field and moves on to entry i + 1,
      or completes the assessment after the last entry. */
  lemma ValidAnswerAdvances(a: Answers, x: Answer, i: nat)
    requires i < |Flow| && IsPlainScore(x)
    ensures var o := Turn(a, x, Some(Flow[i].field), Flow[i].step);
      && o.data == a.Put(Flow[i].field, x.number.value)
      && (i + 1 < |Flow| ==>
            o.reply == Reply(Ask(QuestionText(i + 1)), Some(Flow[i + 1].field), Flow[i + 1].step, true, false, None))
      && (i + 1 == |Flow| ==> o.reply == CompletedReply)
  {
    var f := Flow[i].field;
    var step := Flow[i].step;
    FlowFields();
    FlowPhases();
    IndexOfField(i);
    PhaseNotEditMode(step);
    UnmarkedField(f);
    PlainTurnStores(a, x, f, step);
    if i + 1 < |Flow| {
      StoredAnswerAdvances(a, x, i, step);
    } else {
      StoredAnswerCompletes(a, x, step);
    }
  }

  /** Outside edit mode a valid rating for a plain field is recorded under that field. */
  lemma PlainTurnStores(a: Answers, x: Answer, f: string, step: string)
    requires IsPlainScore(x) && !IsEditMode(step) && step != "editing" && step != "editing_field"
    requires f != "" && !StartsWith(f, EditPrefix)
    ensures Turn(a, x, Some(f), step) == RuleBased(a, x, Some(f), step)
    ensures Turn(a, x, Some(f), step).data == a.Put(f, x.number.value)
  {
  }

  lemma StoredAnswerAdvances(a: Answers, x: Answer, i: nat, step: string)
    requires i + 1 < |Flow| && IsPlainScore(x) && step != "editing" && step != "editing_field"
    requires Flow[i].field != "" && !StartsWith(Flow[i].field, EditPrefix) && IndexOf(Flow[i].field) == Some(i)
    ensures RuleBased(a, x, Some(Flow[i].field), step).reply ==
      Reply(Ask(QuestionText(i + 1)), Some(Flow[i + 1].field), Flow[i + 1].step, true, false, None)
  {
  }

  lemma StoredAnswerCompletes(a: Answers, x: Answer, step: string)
    requires IsPlainScore(x) && step != "editing" && step != "editing_field"
    requires IndexOf(Flow[12].field) == Some(12) && Flow[12].field != "" && !StartsWith(Flow[12].field, EditPrefix)
    ensures RuleBased(a, x, Some(Flow[12].field), step).reply == CompletedReply
  {
  }

  /** A valid rating for a field the catalogue does not ask is recorded and ends the assessment. */
  lemma UncataloguedFieldCompletes(a: Answers, x: Answer, f: string, step: string)
    requires f !in Fields && f != "" && !StartsWith(f, EditPrefix)
    requires !IsEditMode(step) && IsPlainScore(x)
    ensures Turn(a, x, Some(f), step) == Outcome(CompletedReply, a.Put(f, x.number.value))
  {
  }

  predicate AllPlain(xs: seq<Answer>) {
    forall i :: 0 <= i < |xs| ==> IsPlainScore(xs[i])
  }

  /** The answers after rating the first k of `names` with xs[0], ..., xs[k - 1]. */
  function Collected(names: seq<string>, xs: seq<Answer>, k: nat): (a: Answers)
    requires AllPlain(xs) && k <= |xs| && k <= |names|
    ensures forall f :: f in a.scores ==> 1.0 <= a.scores[f] <= 10.0
  {
    if k == 0 then NoAnswers else Collected(names, xs, k - 1).Put(names[k - 1], xs[k - 1].number.value)
  }

  /** In a list without repetitions no entry occurs before its own position. */
  lemma DistinctFromEarlier(names: seq<string>, i: nat)
    requires i < |names|
    requires forall i, j :: 0 <= i < j < |names| ==> names[i] != names[j]
    ensures names[i] !in names[..i]
  {
  }

  /** Rating k distinct fields in turn keeps the dict well formed, with the fields as keys in order. */
  lemma {:induction false} CollectedKeys(names: seq<string>, xs: seq<Answer>, k: nat)
    requires AllPlain(xs) && k <= |xs| && k <= |names|
    requires forall i :: 0 <= i < |names| ==> names[i] !in names[..i]
    ensures Collected(names, xs, k).Valid()
    ensures Collected(names, xs, k).keys == names[..k]
  {
    if k > 0 {
      CollectedKeys(names, xs, k - 1);
      PutNextName(Collected(names, xs, k - 1), names, k, xs[k - 1].number.value);
    }
  }

  /** Rating the next name of a list after its earlier names appends it to the keys. */
  lemma PutNextName(a: Answers, names: seq<string>, k: nat, v: real)
    requires 0 < k <= |names| && names[k - 1] !in names[..k - 1]
    requires a.Valid() && a.keys == names[..k - 1]
    ensures a.Put(names[k - 1], v).Valid() && a.Put(names[k - 1], v).keys == names[..k]
  {
    PutNew(a, names[k - 1], v);
    assert names[..k] == names[..k - 1] + [names[k - 1]];
  }

  /** Rating k distinct fields in turn gives each field its own rating. */
  lemma {:induction false} CollectedScores(names: seq<string>, xs: seq<Answer>, k: nat)
    requires AllPlain(xs) && k <= |xs| && k <= |names|
    requires forall i, j :: 0 <= i < j < |names| ==> names[i] != names[j]
    ensures forall i :: 0 <= i < k ==>
              names[i] in Collected(names, xs, k).scores && Collected(names, xs, k).scores[names[i]] == xs[i].number.value
  {
    if k > 0 {
      CollectedScores(names, xs, k - 1);
      var f := names[k - 1];
      assert Collected(names, xs, k).scores == Collected(names, xs, k - 1).scores[f := xs[k - 1].number.value];
      forall i | 0 <= i < k - 1
        ensures names[i] != f
      {
      }
    }
  }

  /** Rating k distinct fields in turn records them in that order, each with its own rating. */
  lemma CollectedShape(names: seq<string>, xs: seq<Answer>, k: nat)
    requires AllPlain(xs) && k <= |xs| && k <= |names|
    requires forall i, j :: 0 <= i < j < |names| ==> names[i] != names[j]
    ensures Collected(names, xs, k).Valid()
    ensures Collected(names, xs, k).keys == names[..k]
    ensures forall i :: 0 <= i < k ==> Collected(names, xs, k).scores[names[i]] == xs[i].number.value
  {
    forall i | 0 <= i < |names|
      ensures names[i] !in names[..i]
    {
      DistinctFromEarlier(names, i);
    }
    CollectedKeys(names, xs, k);
    CollectedScores(names, xs, k);
  }

  /** After k valid ratings from a new session, the dialogue asks catalogue entry k, or has
      completed once all entries are rated. */
  lemma {:induction false} TraversalPrefix(xs: seq<Answer>, k: nat)
    requires AllPlain(xs) && k <= |xs| && k <= |Flow|
    ensures Run(Start, xs[..k]) ==
      if k < |Flow| then Session(Collected(Fields, xs, k), Some(Flow[k].field), Flow[k].step)
      else Session(Collected(Fields, xs, k), None, "completed")
  {
    if k > 0 {
      FlowField(k - 1);
      TraversalPrefix(xs, k - 1);
      var a := Collected(Fields, xs, k - 1);
      var prev := Session(a, Some(Flow[k - 1].field), Flow[k - 1].step);
      assert Run(Start, xs[..k - 1]) == prev;
      RunLast(Start, xs, k);
      AnswerEntry(a, xs[k - 1], k - 1);
      assert Collected(Fields, xs, k) == a.Put(Flow[k - 1].field, xs[k - 1].number.value);
    }
  }

  /** The run over the first k answers is the run over the first k - 1 followed by one more turn. */
  lemma RunLast(s: Session, xs: seq<Answer>, k: nat)
    requires 0 < k <= |xs|
    ensures Run(s, xs[..k]) == Next(Run(s, xs[..k - 1]), xs[k - 1])
  {
    assert xs[..k][..k - 1] == xs[..k - 1];
  }

  /** A valid rating of catalogue entry i moves the session to entry i + 1, or completes it. */
  lemma AnswerEntry(a: Answers, x: Answer, i: nat)
    requires i < |Flow| && IsPlainScore(x)
    ensures Next(Session(a, Some(Flow[i].field), Flow[i].step), x) ==
      if i + 1 < |Flow| then Session(a.Put(Flow[i].field, x.number.value), Some(Flow[i + 1].field), Flow[i + 1].step)
      else Session(a.Put(Flow[i].field, x.number.value), None, "completed")
  {
    ValidAnswerAdvances(a, x, i);
  }

  /** The turn answering entry k of a traversal replies, and completes only for the last entry. */
  lemma TraversalTurn(xs: seq<Answer>, k: nat)
    requires AllPlain(xs) && k < |xs| && k < |Flow|
    ensures TurnAt(Run(Start, xs[..k]), xs[k]).reply.Reply?
    ensures TurnAt(Run(Start, xs[..k]), xs[k]).reply.completed <==> k + 1 == |Flow|
  {
    TraversalPrefix(xs, k);
    ValidAnswerAdvances(Collected(Fields, xs, k), xs[k], k);
  }

  /** The session and answers after a full traversal, stated for a traversal of length n. */
  lemma TraversalEnd(xs: seq<Answer>, n: nat)
    requires AllPlain(xs) && |xs| == n && n == |Flow|
    ensures Run(Start, xs) == Session(Collected(Fields, xs, n), None, "completed")
    ensures Collected(Fields, xs, n).keys == Fields
    ensures forall i :: 0 <= i < n ==> Fields[i] in Collected(Fields, xs, n).scores && Collected(Fields, xs, n).scores[Fields[i]] == xs[i].number.value
  {
    FlowFields();
    TraversalPrefix(xs, n);
    assert xs[..n] == xs;
    FieldsDistinct();
    CollectedShape(Fields, xs, n);
  }

  /** Thirteen valid ratings from a new session: every turn replies, and the assessment
      completes on the thirteenth and never before. */
  lemma TraversalCompletesOnLast(xs: seq<Answer>)
    requires AllPlain(xs) && |xs| == |Flow|
    ensures forall k :: 0 <= k < |Flow| ==> TurnAt(Run(Start, xs[..k]), xs[k]).reply.Reply?
    ensures forall k :: 0 <= k < |Flow| ==> (TurnAt(Run(Start, xs[..k]), xs[k]).reply.completed <==> k + 1 == |Flow|)
  {
    forall k | 0 <= k < |Flow|
      ensures TurnAt(Run(Start, xs[..k]), xs[k]).reply.Reply?
      ensures TurnAt(Run(Start, xs[..k]), xs[k]).reply.completed <==> k + 1 == |Flow|
    {
      TraversalTurn(xs, k);
    }
  }

  /** After thirteen valid ratings from a new session the dialogue is completed, and the answers
      hold each catalogue field once, in catalogue order, with the rating given for it. */
  lemma TraversalRecordsAll(xs: seq<Answer>)
    requires AllPlain(xs) && |xs| == |Flow|
    ensures Run(Start, xs).field.None? && Run(Start, xs).step == "completed"
    ensures Run(Start, xs).data.keys == Fields
    ensures forall i :: 0 <= i < |Fields| ==> Fields[i] in Run(Start, xs).data.scores && Run(Start, xs).data.scores[Fields[i]] == xs[i].number.value
  {
    TraversalEnd(xs, |xs|);
  }

  // ---------------------------------------------------------------------------------------
  // The edit sub-flow
  // ---------------------------------------------------------------------------------------

  /** An edit request never changes the answers. */
  lemma EditRequestKeepsAnswers(a: Answers, x: Answer, field: Option<string>, step: string)
    requires IsEditRequest(x.text)
    ensures Turn(a, x, field, step) == Outcome(EditRequestReply(a), a)
  {
  }

  /** In the edit menu, the number n selects the n-th answered field for re-rating. */
  lemma SelectByNumber(a: Answers, x: Answer, n: int)
    requires !IsEditRequest(x.text) && x.integer == Some(n) && 1 <= n <= |a.keys| && a.keys[n - 1] != ""
    ensures Turn(a, x, Some("edit_mode"), "editing") ==
      Outcome(Reply(AskRating(a.keys[n - 1]), Some(EditPrefix + a.keys[n - 1]), "editing_field", false, false, None), a)
  {
  }

  /** In the edit menu, text that is not a menu number selects the first answered field it
      matches by name or description, and that field is asked again. */
  lemma SelectByText(a: Answers, x: Answer, i: nat)
    requires !IsEditRequest(x.text) && !(x.integer.Some? && 1 <= x.integer.value <= |a.keys|)
    requires i < |a.keys| && a.keys[i] != "" && MatchesText(Strip(Lower(x.text)), a.keys[i])
    requires forall j :: 0 <= j < i ==> !MatchesText(Strip(Lower(x.text)), a.keys[j])
    ensures Turn(a, x, Some("edit_mode"), "editing") ==
      Outcome(Reply(AskRating(a.keys[i]), Some(EditPrefix + a.keys[i]), "editing_field", false, false, None), a)
  {
    MatchByTextFirst(Strip(Lower(x.text)), a.keys, i);
  }

  /** A valid corrected rating changes the edited field's score and nothing else. */
  lemma EditOverwritesOnlyField(a: Answers, x: Answer, f: string)
    requires a.Valid() && f in a.scores && IsValidScore(x.number)
    ensures var b := EditAnswer(a, x, f).data;
      && b.keys == a.keys && b.scores[f] == x.number.value
      && (forall k :: k != f ==> (k in b.scores <==> k in a.scores))
      && (forall k :: k != f && k in a.scores ==> b.scores[k] == a.scores[k])
  {
    PutExisting(a, f, x.number.value);
  }

  /** Submitting the same correction twice leaves the answers as the first submission did. */
  lemma EditIdempotent(a: Answers, x: Answer, f: string)
    ensures EditAnswer(EditAnswer(a, x, f).data, x, f).data == EditAnswer(a, x, f).data
  {
  }

  /** After re-rating E_score with the personality phase answered, the dialogue resumes at
      Numerical_Aptitude. */
  lemma ResumeAfterPersonality()
    ensures NextAfterEdit("E_score", {"C_score", "O_score", "E_score", "A_score", "N_score"}) == Some("Numerical_Aptitude")
  {
    var answered: set<string> := {"C_score", "O_score", "E_score", "A_score", "N_score"};
    IndexOfField(2);
    assert Flow[3].field in answered && Flow[4].field in answered;
    assert Flow[5].field !in answered;
  }

  /** Answered fields after the edited one are skipped, even when a later one is answered too. */
  lemma ResumeSkipsAnswered()
    ensures NextAfterEdit("C_score", {"C_score", "O_score", "E_score", "A_score", "N_score", "Verbal_Aptitude"}) == Some("Numerical_Aptitude")
  {
    var answered: set<string> := {"C_score", "O_score", "E_score", "A_score", "N_score", "Verbal_Aptitude"};
    IndexOfField(0);
    assert Flow[1].field in answered && Flow[2].field in answered && Flow[3].field in answered && Flow[4].field in answered;
    assert Flow[5].field !in answered;
  }

  /** Re-rating the last field ends the assessment. */
  lemma ResumeAtEnd()
    ensures NextAfterEdit("Attention_to_Detail", {"Attention_to_Detail"}) == None
  {
    IndexOfField(12);
  }

  /** Re-rating a field the catalogue does not ask ends the assessment, even with nothing
      answered. */
  lemma ResumeOutsideCatalogue()
    ensures NextAfterEdit("Logical_Reasoning", {}) == None
  {
    assert "Logical_Reasoning" !in Fields;
  }

  // ---------------------------------------------------------------------------------------
  // The field-selection lookup and the missing description
  // ---------------------------------------------------------------------------------------

  /** A character found neither in a field's name nor in its description, and not a lower-case
      letter, matches that field neither by name nor by any description word. */
  lemma NotMatchedBy(c: char, field: string)
    requires c !in field && c !in Description(field) && !('a' <= c <= 'z')
    ensures !MatchesText([c], field)
  {
    LowerAbsent(field, c);
    if Contains(Lower(field), [c]) {
      ContainsChars(Lower(field), [c], 0);
    }
    LowerAbsent(Description(field), c);
    var words := Words(Lower(Description(field)));
    forall k | 0 <= k < |words|
      ensures !Contains([c], words[k])
    {
      WordsAvoid(Lower(Description(field)), c, k);
      if Contains([c], words[k]) {
        ContainsChars([c], words[k], 0);
      }
    }
  }

  /** The as-written match passes over leading fields that have a description and do not match. */
  lemma {:induction false} AsWrittenSkips(s: string, keys: seq<string>, n: nat)
    requires n <= |keys|
    requires forall k :: 0 <= k < n ==> keys[k] in FieldDescriptions && !MatchesText(s, keys[k])
    ensures MatchByTextAsWritten(s, keys) == MatchByTextAsWritten(s, keys[n..])
  {
    if n > 0 {
      AsWrittenSkips(s, keys[1..], n - 1);
      assert keys[1..][n - 1..] == keys[n..];
    }
  }

  /** No field name contains '?'. */
  lemma FieldNamesWithoutQuestionMark()
    ensures forall i :: 0 <= i < |Fields| ==> '?' !in Fields[i]
  {
  }

  /** The first eight fields have descriptions. */
  lemma DescribedFields()
    ensures forall i :: 0 <= i < 8 ==> Fields[i] in FieldDescriptions
  {
  }

  /** The descriptions of the first eight fields are free of '?', shown three, two and three
      at a time. */
  lemma FirstDescriptionsWithoutQuestionMark()
    ensures forall i :: 0 <= i < 3 ==> Fields[i] in FieldDescriptions && '?' !in FieldDescriptions[Fields[i]]
  {
  }

  lemma LastPersonalityDescriptionsWithoutQuestionMark()
    ensures forall i :: 3 <= i < 5 ==> Fields[i] in FieldDescriptions && '?' !in FieldDescriptions[Fields[i]]
  {
  }

  lemma AptitudeDescriptionsWithoutQuestionMark()
    ensures forall i :: 5 <= i < 8 ==> Fields[i] in FieldDescriptions && '?' !in FieldDescriptions[Fields[i]]
  {
  }

  lemma DescriptionWithoutQuestionMark(i: nat)
    requires i < 8
    ensures Fields[i] in FieldDescriptions && '?' !in FieldDescriptions[Fields[i]]
  {
    if i < 3 {
      FirstDescriptionsWithoutQuestionMark();
    } else if i < 5 {
      LastPersonalityDescriptionsWithoutQuestionMark();
    } else {
      AptitudeDescriptionsWithoutQuestionMark();
    }
  }

  /** The ninth field, Perceptual_Aptitude, has no description. */
  lemma PerceptualUndescribed()
    ensures Fields[8] == "Perceptual_Aptitude" && Fields[8] !in FieldDescriptions
  {
  }

  /** The input "?" matches none of the first nine fields, by name or by description. */
  lemma QuestionMarkMatchesNothing(k: nat)
    requires k < 9
    ensures !MatchesText("?", Fields[k])
  {
    FieldNamesWithoutQuestionMark();
    if k < 8 {
      DescriptionWithoutQuestionMark(k);
    } else {
      PerceptualUndescribed();
    }
    NotMatchedBy('?', Fields[k]);
  }

  /** Text that matches none of the keys finds nothing. */
  lemma {:induction false} NothingMatched(s: string, keys: seq<string>)
    requires forall k :: 0 <= k < |keys| ==> !MatchesText(s, keys[k])
    ensures MatchByText(s, keys) == None
  {
    if keys != [] {
      NothingMatched(s, keys[1..]);
    }
  }

  /** What the two lookups meet in the first nine fields: eight described fields, then
      Perceptual_Aptitude without a description, and none of them matched by "?". */
  lemma FirstNineFields(keys: seq<string>)
    requires keys == Fields[..9]
    ensures |keys| == 9 && keys[8] == "Perceptual_Aptitude" && keys[8] !in FieldDescriptions
    ensures forall k :: 0 <= k < 8 ==> keys[k] in FieldDescriptions
    ensures forall k :: 0 <= k < 9 ==> !MatchesText("?", keys[k])
  {
    DescribedFields();
    PerceptualUndescribed();
    forall k | 0 <= k < 9
      ensures !MatchesText("?", keys[k])
    {
      QuestionMarkMatchesNothing(k);
    }
  }

  /** The as-written match raises on the first field without a description when neither it
      nor any field before it matches. */
  lemma AsWrittenRaises(s: string, keys: seq<string>, n: nat)
    requires n < |keys|
    requires forall k :: 0 <= k < n ==> keys[k] in FieldDescriptions
    requires forall k :: 0 <= k <= n ==> !MatchesText(s, keys[k])
    requires keys[n] !in FieldDescriptions
    ensures MatchByTextAsWritten(s, keys) == KeyErrorOn(keys[n])
  {
    AsWrittenSkips(s, keys, n);
    assert keys[n..][0] == keys[n];
  }

  /** With the first nine catalogue fields answered, a selection such as "?" that matches no
      field makes the as-written lookup raise KeyError on Perceptual_Aptitude, which has no
      description, instead of reaching the numbered menu. */
  lemma UnmatchedSelectionRaises(x: Answer, keys: seq<string>)
    requires x.integer.None? && Strip(Lower(x.text)) == "?" && keys == Fields[..9]
    ensures FindFieldAsWritten(x, keys) == KeyErrorOn("Perceptual_Aptitude")
  {
    FirstNineFields(keys);
    AsWrittenRaises("?", keys, 8);
  }

  /** The corrected lookup falls back to the field name for a field without a description, so
      the same selection finds nothing and the numbered menu of answered fields is shown. */
  lemma UnmatchedSelectionShowsMenu(x: Answer, a: Answers)
    requires x.integer.None? && Strip(Lower(x.text)) == "?" && a.keys == Fields[..9]
    ensures FindField(x, a.keys) == None
    ensures SelectionReply(x, a) == Reply(OptionMenu(a.keys), Some("edit_mode"), "editing", false, false, Some(a.keys))
  {
    FirstNineFields(a.keys);
    NothingMatched("?", a.keys);
    assert FindField(x, a.keys) == MatchByText("?", a.keys);
  }

  /** In the dialogue as written, the same selection in the edit menu raises KeyError on
      Perceptual_Aptitude and leaves the answers as they were. */
  lemma UnmatchedSelectionRaisesInTurn(a: Answers, x: Answer)
    requires x.integer.None? && Strip(Lower(x.text)) == "?" && !IsEditRequest(x.text) && a.keys == Fields[..9]
    ensures TurnAsWritten(a, x, Some("edit_mode"), "editing") == Outcome(Raised(KeyError("Perceptual_Aptitude")), a)
  {
    UnmatchedSelectionRaises(x, a.keys);
  }

  /** Nine valid ratings from the greeting, an edit request, then a selection such as "?":
      the dialogue as written raises KeyError on Perceptual_Aptitude. */
  lemma AsWrittenRunRaises(xs: seq<Answer>, e: Answer, q: Answer)
    requires AllPlain(xs) && |xs| == 9 && IsEditRequest(e.text)
    requires q.integer.None? && Strip(Lower(q.text)) == "?" && !IsEditRequest(q.text)
    ensures var s := Next(Run(Start, xs), e);
      s.field == Some("edit_mode") && s.step == "editing" &&
      TurnAsWritten(s.data, q, s.field, s.step).reply == Raised(KeyError("Perceptual_Aptitude"))
  {
    var a := Collected(Fields, xs, 9);
    RatingsRecorded(xs, 9);
    CollectedPrefix(xs, 9);
    EditRequestOpensMenu(Run(Start, xs), e);
    UnmatchedSelectionRaisesInTurn(a, q);
  }

  /** n valid ratings from the greeting, fewer than the catalogue holds, leave the answers that
      rating the first n catalogue fields in turn collects. */
  lemma RatingsRecorded(xs: seq<Answer>, n: nat)
    requires AllPlain(xs) && |xs| == n && n < |Flow|
    ensures Run(Start, xs).data == Collected(Fields, xs, n)
  {
    TraversalPrefix(xs, n);
    assert xs[..n] == xs;
  }

  /** Rating the first n catalogue fields in turn records exactly those fields, in order. */
  lemma CollectedPrefix(xs: seq<Answer>, n: nat)
    requires AllPlain(xs) && n <= |xs| && n <= |Fields|
    ensures Collected(Fields, xs, n).Valid() && Collected(Fields, xs, n).keys == Fields[..n]
  {
    FieldsDistinct();
    CollectedShape(Fields, xs, n);
  }

  /** With at least one answer, an edit request opens the menu and keeps the answers. */
  lemma EditRequestOpensMenu(s: Session, e: Answer)
    requires IsEditRequest(e.text) && s.data.Valid() && s.data.keys != []
    ensures Next(s, e) == Session(s.data, Some("edit_mode"), "editing")
  {
    assert s.data.keys[0] in s.data.scores;
  }

  // ---------------------------------------------------------------------------------------
  // An invariant of every reachable session
  // ---------------------------------------------------------------------------------------

  /** The answers are a proper dict of catalogue fields rated from 1 to 10. */
  ghost predicate Recorded(a: Answers) {
    a.Valid() && forall k :: k in a.scores ==> k in Fields && 1.0 <= a.scores[k] <= 10.0
  }

  /** A session state the dialogue can be in: asking a catalogue field in its phase, showing the
      edit menu, awaiting a corrected rating for an answered field, or completed. */
  ghost predicate WellFormed(s: Session) {
    && Recorded(s.data)
    && (|| (s.field.Some? && s.field.value in Fields && s.step == StepForField(s.field.value))
        || (s.field == Some("edit_mode") && s.step == "editing")
        || (s.field.Some? && s.step == "editing_field" && exists f :: f in s.data.scores && s.field.value == EditPrefix + f)
        || (s.field.None? && s.step == "completed"))
  }

  lemma StartWellFormed()
    ensures WellFormed(Start)
  {
    FlowFields();
    IndexOfField(0);
  }

  lemma EditRequestTurn(s: Session, x: Answer)
    requires WellFormed(s) && IsEditRequest(x.text)
    ensures TurnAt(s, x).reply.Reply? && WellFormed(Next(s, x))
  {
    FlowFields();
    IndexOfField(0);
  }

  lemma PhaseTurn(s: Session, x: Answer)
    requires WellFormed(s) && !IsEditRequest(x.text)
    requires s.field.Some? && s.field.value in Fields && s.step == StepForField(s.field.value)
    ensures TurnAt(s, x).reply.Reply? && WellFormed(Next(s, x))
  {
    var i := IndexOf(s.field.value).value;
    PhaseNotEditMode(s.step);
    if IsValidScore(x.number) {
      ValidAnswerAdvances(s.data, x, i);
      var a := s.data.Put(Flow[i].field, x.number.value);
      RecordedPut(s.data, Flow[i].field, x.number.value);
      if i + 1 < |Flow| {
        AskingWellFormed(a, i + 1);
      }
    }
  }

  /** Rating a catalogue field from 1 to 10 keeps the answers recorded. */
  lemma RecordedPut(a: Answers, f: string, v: real)
    requires Recorded(a) && f in Fields && 1.0 <= v <= 10.0
    ensures Recorded(a.Put(f, v))
  {
  }

  /** Asking any catalogue entry in its own phase is a well-formed session. */
  lemma AskingWellFormed(a: Answers, i: nat)
    requires Recorded(a) && i < |Flow|
    ensures WellFormed(Session(a, Some(Flow[i].field), Flow[i].step))
  {
    FlowFields();
    IndexOfField(i);
  }

  lemma SelectionTurn(s: Session, x: Answer)
    requires WellFormed(s) && !IsEditRequest(x.text) && s.field == Some("edit_mode") && s.step == "editing"
    ensures TurnAt(s, x).reply.Reply? && WellFormed(Next(s, x))
  {
    var r := SelectionReply(x, s.data);
    SelectionDispatch(s.data, x);
    if r.step == "editing_field" {
      var i :| 0 <= i < |s.data.keys| && r.field == Some(EditPrefix + s.data.keys[i]);
      assert s.data.keys[i] in Next(s, x).data.scores;
    }
  }

  /** In the edit menu, a turn that is not an edit request processes the selection. */
  lemma SelectionDispatch(a: Answers, x: Answer)
    requires !IsEditRequest(x.text)
    ensures Turn(a, x, Some("edit_mode"), "editing") == Outcome(SelectionReply(x, a), a)
  {
    assert IsEditMode("editing");
  }

  /** Awaiting a corrected rating, a turn that is not an edit request processes the correction
      for the field named after the marker. */
  lemma EditFieldDispatch(a: Answers, x: Answer, f: string)
    requires !IsEditRequest(x.text) && f != [] && !Contains(f, EditPrefix)
    ensures Turn(a, x, Some(EditPrefix + f), "editing_field") == EditAnswer(a, x, f)
  {
    PrefixRemoved(EditPrefix, f);
    assert (EditPrefix + f)[..|EditPrefix|] == EditPrefix;
  }

  lemma EditFieldTurn(s: Session, x: Answer, f: string)
    requires WellFormed(s) && !IsEditRequest(x.text)
    requires s.step == "editing_field" && f in s.data.scores && s.field == Some(EditPrefix + f)
    ensures TurnAt(s, x).reply.Reply? && WellFormed(Next(s, x))
  {
    UnmarkedField(f);
    EditFieldDispatch(s.data, x, f);
    var o := EditAnswer(s.data, x, f);
    if !IsValidScore(x.number) {
      assert o.data == s.data;
      assert f in Next(s, x).data.scores;
    } else {
      PutExisting(s.data, f, x.number.value);
      RecordedPut(s.data, f, x.number.value);
    }
  }

  lemma CompletedTurn(s: Session, x: Answer)
    requires WellFormed(s) && !IsEditRequest(x.text) && s.field.None? && s.step == "completed"
    ensures TurnAt(s, x).reply.Reply? && WellFormed(Next(s, x))
  {
  }

  /** Every turn from a well-formed session replies without raising and leads to a
      well-formed session. */
  lemma TurnKeepsWellFormed(s: Session, x: Answer)
    requires WellFormed(s)
    ensures TurnAt(s, x).reply.Reply? && WellFormed(Next(s, x))
  {
    if IsEditRequest(x.text) {
      EditRequestTurn(s, x);
    } else if s.field.Some? && s.field.value in Fields && s.step == StepForField(s.field.value) {
      PhaseTurn(s, x);
    } else if s.field == Some("edit_mode") && s.step == "editing" {
      SelectionTurn(s, x);
    } else if s.field.None? && s.step == "completed" {
      CompletedTurn(s, x);
    } else {
      var f :| f in s.data.scores && s.field.value == EditPrefix + f;
      EditFieldTurn(s, x, f);
    }
  }

  /** Whatever the user types, from the greeting on no turn raises, every recorded answer is a
      catalogue field rated from 1 to 10, and the dialogue is in one of its known states. */
  lemma {:induction false} RunWellFormed(xs: seq<Answer>)
    ensures WellFormed(Run(Start, xs))
    ensures forall x :: TurnAt(Run(Start, xs), x).reply.Reply?
  {
    if xs == [] {
      StartWellFormed();
    } else {
      RunWellFormed(xs[..|xs| - 1]);
      TurnKeepsWellFormed(Run(Start, xs[..|xs| - 1]), xs[|xs| - 1]);
    }
    forall x {
      TurnKeepsWellFormed(Run(Start, xs), x);
    }
  }

  /** From a well-formed session the dialogue as written raises only on a selection in the edit
      menu, and then with KeyError on an answered field that has no description. */
  lemma AsWrittenRaisesOnlyOnSelection(s: Session, x: Answer)
    requires WellFormed(s)
    ensures var o := TurnAsWritten(s.data, x, s.field, s.step);
      o.reply.Raised? ==>
        (s.step == "editing" && o.reply.error.KeyError? &&
         o.reply.error.key in s.data.keys && o.reply.error.key !in FieldDescriptions)
  {
    TurnKeepsWellFormed(s, x);
  }

  /** One turn of the dialogue as written keeps the invariant: where it does not raise it is the
      corrected turn, and where it raises the session stays as it was. */
  lemma NextAsWrittenWellFormed(s: Session, x: Answer)
    requires WellFormed(s)
    ensures WellFormed(NextAsWritten(s, x))
  {
    TurnKeepsWellFormed(s, x);
  }

  /** From the greeting on, the dialogue as written stays in its known states, and its only raise
      is the KeyError of a selection in the edit menu on an answered field without a description. */
  lemma {:induction false} RunAsWrittenWellFormed(xs: seq<Answer>)
    ensures WellFormed(RunAsWritten(Start, xs))
    ensures forall x ::
      var s := RunAsWritten(Start, xs);
      var o := TurnAsWritten(s.data, x, s.field, s.step);
      o.reply.Raised? ==>
        (s.step == "editing" && o.reply.error.KeyError? &&
         o.reply.error.key in s.data.keys && o.reply.error.key !in FieldDescriptions)
  {
    if xs == [] {
      StartWellFormed();
    } else {
      RunAsWrittenWellFormed(xs[..|xs| - 1]);
      NextAsWrittenWellFormed(RunAsWritten(Start, xs[..|xs| - 1]), xs[|xs| - 1]);
    }
    forall x {
      AsWrittenRaisesOnlyOnSelection(RunAsWritten(Start, xs), x);
    }
  }
}
