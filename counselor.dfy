/**
 * The rule-based assessment dialogue of `EducationalCounselor` (the generative model is absent,
 * so every turn takes the deterministic path). A turn receives the user's answer, the current
 * field and conversation step, and the answers collected so far, which it updates in place;
 * it replies with the next prompt, field and step.
 */
module Counselor {
  import opened Wrappers
  import opened Text
  import opened Catalogue

  /** One user answer: the raw text, with what `float(text)` and `int(text.lower().strip())`
      make of it (None where Python raises ValueError). */
  datatype Answer = Answer(text: string, number: Option<real>, integer: Option<int>)

  /** The collected answers, a dict: its keys in insertion order and the score of each key. */
  datatype Answers = Answers(keys: seq<string>, scores: map<string, real>) {

    /** Every key once, and exactly the keys that have a score. */
    ghost predicate Valid() {
      && (forall i, j :: 0 <= i < j < |keys| ==> keys[i] != keys[j])
      && (forall k :: k in scores <==> k in keys)
    }

    /** `d[field] = score`: an existing key keeps its position, a new key goes last. */
    function Put(field: string, score: real): (r: Answers)
      ensures Valid() ==> r.Valid()
      ensures field in r.scores && r.scores[field] == score
    {
      Answers(if field in scores then keys else keys + [field], scores[field := score])
    }
  }

  const NoAnswers := Answers([], map[])

  /** What the reply asks next. The wording of the question is kept where it is fixed text;
      lists shown to the user are represented by the fields they enumerate. */
  datatype Prompt =
    | Ask(question: string)             // a catalogue prompt or the generic one
    | AskRating(field: string)          // the re-rating question for a field being edited
    | AnswerList(fields: seq<string>)   // the bulleted list of answered fields and their scores
    | OptionMenu(fields: seq<string>)   // the numbered list of answered fields to choose from
    | NoQuestion

  /** The Python exceptions a turn can raise. */
  datatype Error = ValueError | AttributeError | KeyError(key: string)

  /** The dict a turn returns (its free-text `message` is not modelled), or the exception it raises. */
  datatype Reply =
    | Reply(nextQuestion: Prompt, field: Option<string>, step: string,
            showEditOption: bool, completed: bool, editOptions: Option<seq<string>>)
    | Raised(error: Error)

  /** A turn's reply together with the collected answers after the turn. */
  datatype Outcome = Outcome(reply: Reply, data: Answers)

  const EditKeywords: seq<string> :=
    ["edit", "change", "modify", "back", "previous", "correction", "mistake", "wrong", "go back"]

  /** Marker that prefixes the field of a reply awaiting a corrected value. */
  const EditPrefix := "editing_"

  const GreetingQuestion :=
    "Let's begin with understanding your work style. On a scale of 1-10, how would you rate your natural tendency to be organized and pay attention to details?"

  const CompletedReply := Reply(NoQuestion, None, "completed", false, true, None)

  /** `get_initial_greeting`: the first question is the catalogue's first field, in its phase. */
  function InitialGreeting(): (r: Reply)
    ensures r.Reply? && r.field == Some(Flow[0].field) && r.step == Flow[0].step && !r.completed
  {
    Reply(Ask(GreetingQuestion), Some("C_score"), "personality", false, false, None)
  }

  /** `_is_edit_request`: the lower-cased text contains one of the edit keywords. */
  predicate IsEditRequest(text: string) {
    exists k :: 0 <= k < |EditKeywords| && Contains(Lower(text), EditKeywords[k])
  }

  /** `_is_edit_mode`: the step starts with "editing". */
  predicate IsEditMode(step: string) {
    StartsWith(step, "editing")
  }

  /** `_is_valid_score`: the text parses as a number and 1 <= number <= 10. */
  predicate IsValidScore(number: Option<real>) {
    number.Some? && 1.0 <= number.value <= 10.0
  }

  /** A plain rating: not an edit request and a valid score. */
  predicate IsPlainScore(x: Answer) {
    !IsEditRequest(x.text) && IsValidScore(x.number)
  }

  // ---------------------------------------------------------------------------------------
  // Edit sub-flow
  // ---------------------------------------------------------------------------------------

  /** `_handle_edit_request`: with nothing collected, restart at the first question; otherwise
      list the answered fields, in insertion order, for the user to choose from. */
  function EditRequestReply(a: Answers): (r: Reply)
    ensures r.Reply? && !r.completed
    ensures a.scores == map[] ==> r.field == Some(Flow[0].field) && r.step == Flow[0].step
    ensures a.scores != map[] ==> r.step == "editing" && r.editOptions == Some(a.keys)
  {
    if a.scores == map[] then
      Reply(Ask(QuestionFor(Some("C_score"))), Some("C_score"), "personality", false, false, None)
    else
      Reply(AnswerList(a.keys), Some("edit_mode"), "editing", false, false, Some(a.keys))
  }

  /** The text matched against a field when choosing what to edit: its description, or the
      field name where the descriptions have no entry for it. */
  function Description(field: string): string {
    if field in FieldDescriptions then FieldDescriptions[field] else field
  }

  /** The field name contains the input, or the input contains a word of the description. */
  predicate MatchesText(s: string, field: string) {
    var words := Words(Lower(Description(field)));
    Contains(Lower(field), s) || exists k :: 0 <= k < |words| && Contains(s, words[k])
  }

  /** The first answered field that the input text matches. */
  function MatchByText(s: string, keys: seq<string>): (r: Option<string>)
    ensures r.Some? ==> r.value in keys && MatchesText(s, r.value)
    ensures r.None? ==> forall k :: 0 <= k < |keys| ==> !MatchesText(s, keys[k])
  {
    if keys == [] then None
    else if MatchesText(s, keys[0]) then Some(keys[0])
    else MatchByText(s, keys[1..])
  }

  /** The match is the first answered field that the text matches: every field before it is
      passed over. */
  lemma {:induction false} MatchByTextFirst(s: string, keys: seq<string>, i: nat)
    requires i < |keys| && MatchesText(s, keys[i])
    requires forall j :: 0 <= j < i ==> !MatchesText(s, keys[j])
    ensures MatchByText(s, keys) == Some(keys[i])
  {
    if i > 0 {
      MatchByTextFirst(s, keys[1..], i - 1);
    }
  }

  /** `_find_field_by_input`: a number n in 1..|keys| picks the n-th answered field; any other
      input is matched as text. Whatever it picks is an answered field. */
  function FindField(x: Answer, keys: seq<string>): (r: Option<string>)
    ensures r.Some? ==> r.value in keys
    ensures x.integer.Some? && 1 <= x.integer.value <= |keys| ==> r == Some(keys[x.integer.value - 1])
    ensures !(x.integer.Some? && 1 <= x.integer.value <= |keys|) ==> r == MatchByText(Strip(Lower(x.text)), keys)
  {
    if x.integer.Some? && 1 <= x.integer.value <= |keys| then Some(keys[x.integer.value - 1])
    else MatchByText(Strip(Lower(x.text)), keys)
  }

  /** The result of the text match as the source writes it, which can raise KeyError. */
  datatype Lookup = Found(field: string) | NotFound | KeyErrorOn(key: string)

  function AsLookup(r: Option<string>): Lookup {
    match r
    case Some(f) => Found(f)
    case None => NotFound
  }

  /** The text match as written: the description is looked up with `field_descriptions[field]`,
      so a field that has no description raises KeyError as soon as its name does not match.
      Where every answered field has a description it agrees with `MatchByText`. */
  function MatchByTextAsWritten(s: string, keys: seq<string>): (r: Lookup)
    ensures r.KeyErrorOn? ==> r.key in keys && r.key !in FieldDescriptions
    ensures (forall k :: 0 <= k < |keys| ==> keys[k] in FieldDescriptions) ==> r == AsLookup(MatchByText(s, keys))
    ensures !r.KeyErrorOn? ==> r == AsLookup(MatchByText(s, keys))
  {
    if keys == [] then NotFound
    else if Contains(Lower(keys[0]), s) then Found(keys[0])
    else if keys[0] !in FieldDescriptions then KeyErrorOn(keys[0])
    else
      var words := Words(Lower(FieldDescriptions[keys[0]]));
      if exists k :: 0 <= k < |words| && Contains(s, words[k]) then Found(keys[0])
      else MatchByTextAsWritten(s, keys[1..])
  }

  /** `_find_field_by_input` as written. */
  function FindFieldAsWritten(x: Answer, keys: seq<string>): (r: Lookup)
    ensures r.KeyErrorOn? ==> r.key in keys && r.key !in FieldDescriptions
    ensures (forall k :: 0 <= k < |keys| ==> keys[k] in FieldDescriptions) ==> r == AsLookup(FindField(x, keys))
    ensures !r.KeyErrorOn? ==> r == AsLookup(FindField(x, keys))
  {
    if x.integer.Some? && 1 <= x.integer.value <= |keys| then Found(keys[x.integer.value - 1])
    else MatchByTextAsWritten(Strip(Lower(x.text)), keys)
  }

  /** `_process_edit_field_selection` with the corrected lookup `FindField`: a chosen field is
      asked again; otherwise the numbered menu of answered fields is shown and the dialogue
      stays in "editing". `SelectionReplyAsWritten` is the version that can raise KeyError. */
  function SelectionReply(x: Answer, a: Answers): (r: Reply)
    ensures r.Reply? && !r.completed
    ensures r.step == "editing_field" ==> exists i :: 0 <= i < |a.keys| && r.field == Some(EditPrefix + a.keys[i])
    ensures r.step != "editing_field" ==> r.step == "editing" && r.editOptions == Some(a.keys)
    ensures r.step == "editing_field" <==> FindField(x, a.keys).Some? && FindField(x, a.keys).value != ""
    ensures r.step == "editing_field" ==>
      r.field == Some(EditPrefix + FindField(x, a.keys).value) && r.nextQuestion == AskRating(FindField(x, a.keys).value)
  {
    var found := FindField(x, a.keys);
    if found.Some? && found.value != "" then
      Reply(AskRating(found.value), Some(EditPrefix + found.value), "editing_field", false, false, None)
    else
      Reply(OptionMenu(a.keys), Some("edit_mode"), "editing", false, false, Some(a.keys))
  }

  /** `_process_edit_answer`: an invalid value asks again; a valid one overwrites `f` and the
      dialogue resumes at the first unanswered field after `f`, or completes. */
  function EditAnswer(a: Answers, x: Answer, f: string): (o: Outcome)
    ensures o.reply.Reply?
    ensures !IsValidScore(x.number) ==> o.data == a && o.reply.step == "editing_field" && o.reply.field == Some(EditPrefix + f)
    ensures IsValidScore(x.number) ==> o.data == a.Put(f, x.number.value)
    ensures IsValidScore(x.number) ==>
      var n := NextAfterEdit(f, o.data.scores.Keys);
      && (n.Some? ==> o.reply.field == n && o.reply.step == StepForField(n.value) && o.reply.showEditOption && !o.reply.completed)
      && (n.None? ==> o.reply.field.None? && o.reply.step == "completed" && o.reply.completed)
  {
    if !IsValidScore(x.number) then
      Outcome(Reply(AskRating(f), Some(EditPrefix + f), "editing_field", false, false, None), a)
    else
      var a' := a.Put(f, x.number.value);
      match NextAfterEdit(f, a'.scores.Keys)
      case Some(n) => Outcome(Reply(Ask(QuestionFor(Some(n))), Some(n), StepForField(n), true, false, None), a')
      case None => Outcome(CompletedReply, a')
  }

  // ---------------------------------------------------------------------------------------
  // One turn
  // ---------------------------------------------------------------------------------------

  /** `_rule_based_next_question`. */
  function RuleBased(a: Answers, x: Answer, field: Option<string>, step: string): (o: Outcome)
    ensures o.reply.Raised? ==> o.data == a
  {
    if step == "editing" then Outcome(SelectionReply(x, a), a)
    else if step == "editing_field" && field.None? then Outcome(Raised(AttributeError), a)
    else if step == "editing_field" && StartsWith(field.value, EditPrefix) then
      EditAnswer(a, x, RemoveAll(field.value, EditPrefix))
    else
      var stores := field.Some? && field.value != "" && !StartsWith(field.value, EditPrefix);
      if stores && x.number.None? then Outcome(Raised(ValueError), a)
      else
        var a' := if stores then a.Put(field.value, x.number.value) else a;
        Outcome(AdvanceFrom(if field.Some? then IndexOf(field.value) else None), a')
  }

  /** The reply after a stored rating: the entry after catalogue position `idx`, or completion
      when there is none. */
  function AdvanceFrom(idx: Option<nat>): Reply {
    if idx.Some? && idx.value + 1 < |Flow| then
      Reply(Ask(QuestionText(idx.value + 1)), Some(Flow[idx.value + 1].field), Flow[idx.value + 1].step, true, false, None)
    else
      CompletedReply
  }

  /** `process_answer` of the corrected dialogue (the selection uses `FindField`): edit requests first, then score validation outside edit mode, then the
      rule-based step. A turn never removes an answer and adds at most one. */
  function Turn(a: Answers, x: Answer, field: Option<string>, step: string): (o: Outcome)
    ensures a.Valid() ==> o.data.Valid()
    ensures a.keys <= o.data.keys && |o.data.keys| <= |a.keys| + 1
    ensures o.reply.Raised? ==> o.data == a
  {
    if IsEditRequest(x.text) then Outcome(EditRequestReply(a), a)
    else if !IsEditMode(step) && !IsValidScore(x.number) then
      Outcome(Reply(Ask(QuestionFor(field)), field, step, |a.keys| > 0, false, None), a)
    else RuleBased(a, x, field, step)
  }

  /** `_process_edit_field_selection` as written: the lookup raises KeyError on an answered field
      that has no description, and otherwise the reply is the corrected one. */
  function SelectionReplyAsWritten(x: Answer, a: Answers): (r: Reply)
    ensures r.Raised? <==> FindFieldAsWritten(x, a.keys).KeyErrorOn?
    ensures r.Raised? ==> r.error.KeyError? && r.error.key in a.keys && r.error.key !in FieldDescriptions
    ensures !r.Raised? ==> r == SelectionReply(x, a)
  {
    match FindFieldAsWritten(x, a.keys)
    case KeyErrorOn(key) => Raised(KeyError(key))
    case Found(f) =>
      if f != "" then Reply(AskRating(f), Some(EditPrefix + f), "editing_field", false, false, None)
      else Reply(OptionMenu(a.keys), Some("edit_mode"), "editing", false, false, Some(a.keys))
    case NotFound => Reply(OptionMenu(a.keys), Some("edit_mode"), "editing", false, false, Some(a.keys))
  }

  /** `process_answer` as written. It differs from the corrected `Turn` only in the edit menu,
      where a selection can raise KeyError on an answered field without a description; where
      every answered field has a description the two are the same turn. */
  function TurnAsWritten(a: Answers, x: Answer, field: Option<string>, step: string): (o: Outcome)
    ensures o.reply.Raised? ==> o.data == a
    ensures o != Turn(a, x, field, step) ==>
      step == "editing" && o.reply.Raised? && o.reply.error.KeyError? &&
      o.reply.error.key in a.keys && o.reply.error.key !in FieldDescriptions
    ensures (forall k :: 0 <= k < |a.keys| ==> a.keys[k] in FieldDescriptions) ==> o == Turn(a, x, field, step)
  {
    if !IsEditRequest(x.text) && step == "editing" then
      assert IsEditMode(step);
      Outcome(SelectionReplyAsWritten(x, a), a)
    else Turn(a, x, field, step)
  }

  // ---------------------------------------------------------------------------------------
  // The session: what the web view keeps between turns
  // ---------------------------------------------------------------------------------------

  /** The session state: collected answers, current field and conversation step. */
  datatype Session = Session(data: Answers, field: Option<string>, step: string)

  /** A new session, as the greeting starts it. */
  const Start := Session(NoAnswers, Some("C_score"), "personality")

  function TurnAt(s: Session, x: Answer): Outcome {
    Turn(s.data, x, s.field, s.step)
  }

  /** The session after one answer; a turn that raises leaves the session as it was. */
  function Next(s: Session, x: Answer): Session {
    var o := TurnAt(s, x);
    if o.reply.Raised? then s else Session(o.data, o.reply.field, o.reply.step)
  }

  /** The session after a sequence of answers. */
  function Run(s: Session, xs: seq<Answer>): Session {
    if xs == [] then s else Next(Run(s, xs[..|xs| - 1]), xs[|xs| - 1])
  }

  /** The session after one answer in the dialogue as written; a raise leaves the session as it
      was, since the view answers with an error before storing anything. */
  function NextAsWritten(s: Session, x: Answer): Session {
    var o := TurnAsWritten(s.data, x, s.field, s.step);
    if o.reply.Raised? then s else Session(o.data, o.reply.field, o.reply.step)
  }

  /** The session after a sequence of answers in the dialogue as written. */
  function RunAsWritten(s: Session, xs: seq<Answer>): Session {
    if xs == [] then s else NextAsWritten(RunAsWritten(s, xs[..|xs| - 1]), xs[|xs| - 1])
  }

  // ---------------------------------------------------------------------------------------
  // The mutable answer dict and the imperative turn
  // ---------------------------------------------------------------------------------------

  /** The session's `collected_data` dict, updated in place by a turn. */
  class CollectedData {
    var keys: seq<string>
    var scores: map<string, real>

    function Value(): Answers
      reads this
    {
      Answers(keys, scores)
    }

    ghost predicate Valid()
      reads this
    {
      Value().Valid()
    }

    constructor ()
      ensures Valid() && Value() == NoAnswers
    {
      keys := [];
      scores := map[];
    }

    /** `collected_data[field] = score`. */
    method Put(field: string, score: real)
      requires Valid()
      modifies this
      ensures Valid() && Value() == old(Value()).Put(field, score)
    {
      if field !in scores {
        keys := keys + [field];
      }
      scores := scores[field := score];
    }
  }

  /** The catalogue position search of `_rule_based_next_question`: the first entry for `field`. */
  method FindIndex(field: string) returns (idx: Option<nat>)
    ensures idx == IndexOf(field)
  {
    var i := 0;
    while i < |Flow|
      invariant 0 <= i <= |Flow|
      invariant forall j :: 0 <= j < i ==> Flow[j].field != field
    {
      if Flow[i].field == field {
        return Some(i);
      }
      i := i + 1;
    }
    return None;
  }

  /** The prompt of the first catalogue entry for the field. */
  lemma QuestionAt(field: Option<string>, i: nat)
    requires i < |Flow| && field == Some(Flow[i].field)
    requires forall j :: 0 <= j < i ==> Some(Flow[j].field) != field
    ensures QuestionFor(field) == QuestionText(i)
  {
    assert IndexOf(field.value) == Some(i);
  }

  /** The generic prompt for a field that no catalogue entry asks. */
  lemma QuestionAbsent(field: Option<string>)
    requires forall j :: 0 <= j < |Flow| ==> Some(Flow[j].field) != field
    ensures QuestionFor(field) == GenericQuestion
  {
  }

  /** `_get_current_question`: the prompt of the first entry for `field`, else the generic one. */
  method CurrentQuestion(field: Option<string>) returns (q: string)
    ensures q == QuestionFor(field)
  {
    var i := 0;
    while i < |Flow|
      invariant 0 <= i <= |Flow|
      invariant forall j :: 0 <= j < i ==> Some(Flow[j].field) != field
    {
      if Some(Flow[i].field) == field {
        QuestionAt(field, i);
        return QuestionText(i);
      }
      i := i + 1;
    }
    QuestionAbsent(field);
    return GenericQuestion;
  }

  /** `_get_next_field_after_edit`: locate the edited field, then scan forward for the first
      catalogue field that has no answer. */
  method NextFieldAfterEdit(edited: string, data: CollectedData) returns (next: Option<string>)
    ensures next == NextAfterEdit(edited, data.scores.Keys)
  {
    var current: Option<nat> := None;
    var i := 0;
    while i < |Flow|
      invariant 0 <= i <= |Flow|
      invariant forall j :: 0 <= j < i ==> Flow[j].field != edited
    {
      if Flow[i].field == edited {
        current := Some(i);
        break;
      }
      i := i + 1;
    }
    assert current == IndexOf(edited);
    if current.None? {
      return None;
    }
    i := current.value + 1;
    while i < |Flow|
      invariant current.value + 1 <= i <= |Flow|
      invariant FirstUnanswered(data.scores.Keys, current.value + 1) == FirstUnanswered(data.scores.Keys, i)
    {
      if Flow[i].field !in data.scores {
        return Some(Flow[i].field);
      }
      i := i + 1;
    }
    return None;
  }

  /** `_process_edit_answer` on the session dict. */
  method ProcessEditAnswer(x: Answer, fieldToEdit: string, data: CollectedData) returns (r: Reply)
    requires data.Valid()
    modifies data
    ensures data.Valid()
    ensures Outcome(r, data.Value()) == EditAnswer(old(data.Value()), x, fieldToEdit)
  {
    if !IsValidScore(x.number) {
      return Reply(AskRating(fieldToEdit), Some(EditPrefix + fieldToEdit), "editing_field", false, false, None);
    }
    data.Put(fieldToEdit, x.number.value);
    var next := NextFieldAfterEdit(fieldToEdit, data);
    if next.Some? {
      var question := CurrentQuestion(next);
      r := Reply(Ask(question), next, StepForField(next.value), true, false, None);
    } else {
      r := CompletedReply;
    }
  }

  /** `_rule_based_next_question` on the session dict. */
  method RuleBasedNextQuestion(x: Answer, currentField: Option<string>, step: string, data: CollectedData)
    returns (r: Reply)
    requires data.Valid()
    modifies data
    ensures data.Valid()
    ensures Outcome(r, data.Value()) == RuleBased(old(data.Value()), x, currentField, step)
  {
    if step == "editing" {
      return SelectionReply(x, data.Value());
    }
    if step == "editing_field" && currentField.None? {
      return Raised(AttributeError);
    }
    if step == "editing_field" && StartsWith(currentField.value, EditPrefix) {
      r := ProcessEditAnswer(x, RemoveAll(currentField.value, EditPrefix), data);
      return;
    }
    if currentField.Some? && currentField.value != "" && !StartsWith(currentField.value, EditPrefix) {
      if x.number.None? {
        return Raised(ValueError);
      }
      data.Put(currentField.value, x.number.value);
    }
    var idx: Option<nat> := None;
    if currentField.Some? {
      idx := FindIndex(currentField.value);
    }
    r := AdvanceFrom(idx);
  }

  /** `process_answer` on the session dict. */
  method ProcessAnswer(x: Answer, currentField: Option<string>, step: string, data: CollectedData)
    returns (r: Reply)
    requires data.Valid()
    modifies data
    ensures data.Valid()
    ensures Outcome(r, data.Value()) == Turn(old(data.Value()), x, currentField, step)
  {
    if IsEditRequest(x.text) {
      return EditRequestReply(data.Value());
    }
    if !IsEditMode(step) && !IsValidScore(x.number) {
      var question := CurrentQuestion(currentField);
      return Reply(Ask(question), currentField, step, |data.keys| > 0, false, None);
    }
    r := RuleBasedNextQuestion(x, currentField, step, data);
  }
}
