/**
 * The fixed, ordered question catalogue of the assessment dialogue (`_get_questions_flow`),
 * the field descriptions used when editing, and the lookups over the catalogue.
 */
module Catalogue {
  import opened Wrappers
  import opened Text

  /** One rated question: the answer field it fills and its phase. Its prompt is `QuestionText(i)`. */
  datatype Entry = Entry(field: string, step: string)

  /** The 13 questions in the order they are asked: five personality, five aptitude, three preference. */
  const Flow: seq<Entry> := [
    Entry("C_score", "personality"),
    Entry("O_score", "personality"),
    Entry("E_score", "personality"),
    Entry("A_score", "personality"),
    Entry("N_score", "personality"),
    Entry("Numerical_Aptitude", "aptitude"),
    Entry("Verbal_Aptitude", "aptitude"),
    Entry("Abstract_Reasoning", "aptitude"),
    Entry("Perceptual_Aptitude", "aptitude"),
    Entry("Spatial_Aptitude", "aptitude"),
    Entry("Enjoy_Teamwork", "preference"),
    Entry("Creative_Thinking", "preference"),
    Entry("Attention_to_Detail", "preference")
  ]

  /** The prompt of catalogue entry i, the third element of each entry of `_get_questions_flow`. */
  function QuestionText(i: nat): string
    requires i < |Flow|
  {
    if i == 0 then "On a scale of 1-10, how organized and detail-oriented are you? (1 = very disorganized, 10 = extremely organized)"
    else if i == 1 then "How open are you to new experiences and ideas? (1 = prefer routine and familiarity, 10 = love exploring new possibilities)"
    else if i == 2 then "How outgoing and sociable would you describe yourself? (1 = more reserved and private, 10 = highly outgoing and social)"
    else if i == 3 then "How cooperative and compassionate are you in your interactions? (1 = more competitive and direct, 10 = highly cooperative and empathetic)"
    else if i == 4 then "How do you typically handle stress and challenging emotions? (1 = quite sensitive to stress, 10 = very resilient and calm under pressure)"
    else if i == 5 then "How comfortable are you with numbers and calculations?"
    else if i == 6 then "How strong are your language and communication skills?"
    else if i == 7 then "How easily can you identify patterns and solve abstract problems?"
    else if i == 8 then "How quickly do you notice small differences or errors in what you see or read?"
    else if i == 9 then "How well can you visualize and manipulate objects in space?"
    else if i == 10 then "Now about your work style preferences: How much do you enjoy collaborating in teams? (1 = strongly prefer working independently, 10 = thrive in team environments)"
    else if i == 11 then "How would you rate your creative problem-solving approach? (1 = prefer established methods, 10 = highly innovative and creative)"
    else "Finally, how important is attention to detail in your ideal work? (1 = prefer big-picture thinking, 10 = extremely detail-oriented and precise)"
  }

  /** The catalogue's field names in order. */
  const Fields: seq<string> := [
    "C_score", "O_score", "E_score", "A_score", "N_score",
    "Numerical_Aptitude", "Verbal_Aptitude", "Abstract_Reasoning", "Perceptual_Aptitude", "Spatial_Aptitude",
    "Enjoy_Teamwork", "Creative_Thinking", "Attention_to_Detail"
  ]

  /** Fallback prompt for a field that is not in the catalogue. */
  const GenericQuestion := "Please continue with our assessment."

  /** Human-readable descriptions of the fields (`_get_field_descriptions`); it has an entry for
      the retired `Logical_Reasoning` field and none for `Perceptual_Aptitude`. */
  const FieldDescriptions: map<string, string> := map[
    "C_score" := "Organization & Attention to Detail",
    "O_score" := "Openness to New Experiences",
    "E_score" := "Outgoing & Social Nature",
    "A_score" := "Cooperation & Team Spirit",
    "N_score" := "Stress Management & Resilience",
    "Numerical_Aptitude" := "Comfort with Numbers & Math",
    "Verbal_Aptitude" := "Language & Communication Skills",
    "Abstract_Reasoning" := "Pattern Recognition Ability",
    "Logical_Reasoning" := "Logical Thinking Skills",
    "Spatial_Aptitude" := "Spatial Visualization",
    "Enjoy_Teamwork" := "Enjoyment of Team Collaboration",
    "Creative_Thinking" := "Creative Problem-Solving",
    "Attention_to_Detail" := "Focus on Details"
  ]

  predicate IsPhase(step: string) {
    step == "personality" || step == "aptitude" || step == "preference"
  }

  /** `Fields` lists the catalogue's fields in order. */
  lemma FlowFields()
    ensures |Flow| == |Fields| == 13
    ensures forall i :: 0 <= i < |Flow| ==> Flow[i].field == Fields[i]
  {
  }

  /** Entry i of the catalogue asks for `Fields[i]`. */
  lemma FlowField(i: nat)
    requires i < |Flow|
    ensures |Fields| == |Flow| && Flow[i].field == Fields[i]
  {
    FlowFields();
  }

  /** Each field is asked once. */
  lemma FieldsDistinct()
    ensures forall i, j :: 0 <= i < j < |Fields| ==> Fields[i] != Fields[j]
  {
  }

  /** Each entry belongs to one of the three phases. */
  lemma FlowPhases()
    ensures forall i :: 0 <= i < |Flow| ==> IsPhase(Flow[i].step)
  {
  }

  /** No field name is empty or contains the `editing_` marker of the edit sub-flow. */
  lemma FieldsUnmarked()
    ensures forall i :: 0 <= i < |Fields| ==> Fields[i] != "" && !Contains(Fields[i], "editing_")
  {
    forall i | 0 <= i < |Fields|
      ensures Fields[i] != "" && !Contains(Fields[i], "editing_")
    {
      if i < 5 { PersonalityFieldsLackLetter(i); }
      else if i < 10 { AptitudeFieldsLackLetter(i); }
      else { PreferenceFieldsLackLetter(i); }
      LacksMarker(Fields[i]);
    }
  }

  lemma PersonalityFieldsLackLetter(i: nat)
    requires i < 5
    ensures Fields[i] != "" && ('d' !in Fields[i] || 'g' !in Fields[i])
  {
  }

  lemma AptitudeFieldsLackLetter(i: nat)
    requires 5 <= i < 10
    ensures Fields[i] != "" && ('d' !in Fields[i] || 'g' !in Fields[i])
  {
  }

  lemma PreferenceFieldsLackLetter(i: nat)
    requires 10 <= i < |Fields|
    ensures Fields[i] != "" && ('d' !in Fields[i] || 'g' !in Fields[i])
  {
  }

  /** A string missing either the `d` or the `g` of `editing_` cannot contain the marker. */
  lemma LacksMarker(s: string)
    requires 'd' !in s || 'g' !in s
    ensures !Contains(s, "editing_")
  {
    if Contains(s, "editing_") {
      ContainsChars(s, "editing_", 1);
      ContainsChars(s, "editing_", 6);
    }
  }

  lemma CatalogueShape()
    ensures |Flow| == |Fields| == 13
    ensures forall i :: 0 <= i < |Flow| ==> Flow[i].field == Fields[i]
    ensures forall i, j :: 0 <= i < j < |Fields| ==> Fields[i] != Fields[j]
    ensures forall i :: 0 <= i < |Flow| ==> IsPhase(Flow[i].step)
    ensures forall i :: 0 <= i < |Fields| ==> Fields[i] != "" && !Contains(Fields[i], "editing_")
  {
    FlowFields();
    FieldsDistinct();
    FlowPhases();
    FieldsUnmarked();
  }

  /** Position of the first catalogue entry for `field`, searching from `from`. */
  function IndexFrom(field: string, from: nat): (r: Option<nat>)
    requires from <= |Flow|
    ensures r.Some? ==> from <= r.value < |Flow| && Flow[r.value].field == field
    ensures r.Some? ==> forall j :: from <= j < r.value ==> Flow[j].field != field
    ensures r.None? ==> forall j :: from <= j < |Flow| ==> Flow[j].field != field
    decreases |Flow| - from
  {
    if from == |Flow| then None
    else if Flow[from].field == field then Some(from)
    else IndexFrom(field, from + 1)
  }

  /** Position of `field` in the catalogue, or None when the catalogue does not ask for it. */
  function IndexOf(field: string): (r: Option<nat>)
    ensures r.Some? ==> r.value < |Flow| && Flow[r.value].field == field
    ensures r.Some? ==> forall j :: 0 <= j < r.value ==> Flow[j].field != field
    ensures r.None? ==> forall j :: 0 <= j < |Flow| ==> Flow[j].field != field
    ensures r.None? <==> field !in Fields
  {
    CatalogueShape();
    IndexFrom(field, 0)
  }

  /** Every catalogue field is found at its own position. */
  lemma IndexOfField(i: nat)
    requires i < |Flow|
    ensures IndexOf(Flow[i].field) == Some(i)
  {
    FlowFields();
    FieldsDistinct();
    var r := IndexOf(Flow[i].field);
    assert Fields[i] in Fields;
    assert Fields[r.value] == Fields[i];
  }

  /** The phase of a field (`_get_step_for_field`); "personality" for a field the catalogue lacks. */
  function StepForField(field: string): (step: string)
    ensures IsPhase(step)
    ensures field in Fields ==> step == Flow[IndexOf(field).value].step
  {
    CatalogueShape();
    match IndexOf(field)
    case Some(i) => Flow[i].step
    case None => "personality"
  }

  /** The prompt for a field (`_get_current_question`); the generic prompt when it is absent. */
  function QuestionFor(field: Option<string>): (q: string)
    ensures field.Some? && field.value in Fields ==> q == QuestionText(IndexOf(field.value).value)
    ensures field.None? || field.value !in Fields ==> q == GenericQuestion
  {
    if field.None? then GenericQuestion
    else match IndexOf(field.value)
      case Some(i) => QuestionText(i)
      case None => GenericQuestion
  }

  /** Position of the first catalogue field at or after `from` that is not answered. */
  function FirstUnanswered(answered: set<string>, from: nat): (r: Option<nat>)
    requires from <= |Flow|
    ensures r.Some? ==> from <= r.value < |Flow| && Flow[r.value].field !in answered
    ensures r.Some? ==> forall j :: from <= j < r.value ==> Flow[j].field in answered
    ensures r.None? ==> forall j :: from <= j < |Flow| ==> Flow[j].field in answered
    decreases |Flow| - from
  {
    if from == |Flow| then None
    else if Flow[from].field !in answered then Some(from)
    else FirstUnanswered(answered, from + 1)
  }

  /** Where the dialogue resumes after `edited` was re-answered (`_get_next_field_after_edit`):
      the first unanswered catalogue field strictly after the edited one, or None when there is
      none or the edited field is not in the catalogue. */
  function NextAfterEdit(edited: string, answered: set<string>): (r: Option<string>)
    ensures edited !in Fields ==> r.None?
    ensures r.Some? ==> r.value in Fields && r.value !in answered
    ensures r.Some? ==> IndexOf(edited).Some? && IndexOf(edited).value < IndexOf(r.value).value
    ensures r.Some? ==> forall j :: IndexOf(edited).value < j < IndexOf(r.value).value ==> Flow[j].field in answered
    ensures r.None? && edited in Fields ==> forall j :: IndexOf(edited).value < j < |Flow| ==> Flow[j].field in answered
  {
    match IndexOf(edited)
    case None => None
    case Some(e) =>
      match FirstUnanswered(answered, e + 1)
      case None => None
      case Some(n) =>
        CatalogueShape();
        IndexOfField(n);
        Some(Flow[n].field)
  }
}
