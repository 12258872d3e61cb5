/**
 * The student profile form: the cross-field validation of `clean` and the merge of the
 * decoded subject marks into the stored profile in `save`.
 */
module Form {
  import opened Wrappers
  import opened Text
  import opened Models

  /** A mark as the decoded JSON gives it: a string, or another JSON value with its truthiness. */
  datatype Mark = Text(s: string) | OtherValue(truthy: bool)

  /** The items of a decoded JSON object, in order. */
  type MarkEntries = seq<(string, Mark)>

  /** The hidden `subject_marks_json` input after `json.loads`: an empty text, text that is not
      JSON, JSON that is not an object, or an object. An absent input reads as "{}", the empty
      object. */
  datatype Decoded = Blank | Malformed | NotObject | Object(entries: MarkEntries)

  /** The outcome of `clean`: accepted with the marks it stored under `parsed_subject_marks`
      (None when it stored none), a validation error with its message, or an uncaught
      exception. */
  datatype CleanResult = Accepted(parsedMarks: Option<MarkEntries>) | Invalid(message: string) | Crashed

  const RequiredNames: seq<string> := ["Full Name", "Gender", "Age", "Phone Number", "Exam Type"]

  const RequiredPrefix := "Please fill in the following required fields: "
  const DateMessage := "Passed date is required when an exam type is selected."
  const SchoolMessage := "School name is required when an exam type is selected."
  const DecodeMessage := "Invalid marks data format. Please add at least four subjects with marks."
  const FormatMessage := "Invalid marks format. Please check your subject entries."
  const FewMarksMessage := "Please add at least four subjects with marks for the selected exam."

  /** The i-th required field (full name, gender, age, phone, exam type) is truthy. */
  predicate Filled(p: StudentProfile, i: nat) {
    if i == 0 then p.fullName != ""
    else if i == 1 then p.gender != ""
    else if i == 2 then AgeGiven(p.age)
    else if i == 3 then p.phone != ""
    else p.examType != ""
  }

  /** Position of a display name in `RequiredNames`; 5 for any other name. */
  function Rank(name: string): (i: nat)
    ensures i < |RequiredNames| ==> RequiredNames[i] == name
  {
    if name == "Full Name" then 0
    else if name == "Gender" then 1
    else if name == "Age" then 2
    else if name == "Phone Number" then 3
    else if name == "Exam Type" then 4
    else 5
  }

  /** The display names of the first n required fields that are not filled, in the order of
      the required fields. */
  function MissingUpTo(p: StudentProfile, n: nat): (r: seq<string>)
    requires n <= |RequiredNames|
    ensures |r| <= n
    ensures forall i :: 0 <= i < n ==> (RequiredNames[i] in r <==> !Filled(p, i))
    ensures forall k :: 0 <= k < |r| ==> Rank(r[k]) < n
  {
    if n == 0 then []
    else
      var before := MissingUpTo(p, n - 1);
      RankOf(n - 1);
      assert forall i :: 0 <= i < n - 1 ==> RequiredNames[i] != RequiredNames[n - 1];
      before + (if Filled(p, n - 1) then [] else [RequiredNames[n - 1]])
  }

  /** The missing names follow the order of the required fields. */
  lemma {:induction false} MissingInOrder(p: StudentProfile, n: nat)
    requires n <= |RequiredNames|
    ensures forall k, l :: 0 <= k < l < |MissingUpTo(p, n)| ==> Rank(MissingUpTo(p, n)[k]) < Rank(MissingUpTo(p, n)[l])
  {
    if n > 0 {
      MissingInOrder(p, n - 1);
      var last := MissingStep(p, n);
      AppendRanked(MissingUpTo(p, n - 1), last, n - 1);
    }
  }

  /** The names added for the n-th required field: its own name when it is not filled. */
  lemma MissingStep(p: StudentProfile, n: nat) returns (last: seq<string>)
    requires 0 < n <= |RequiredNames|
    ensures MissingUpTo(p, n) == MissingUpTo(p, n - 1) + last
    ensures |last| <= 1 && forall k :: 0 <= k < |last| ==> Rank(last[k]) == n - 1
  {
    RankOf(n - 1);
    last := if Filled(p, n - 1) then [] else [RequiredNames[n - 1]];
  }

  /** Names ranked below m, in increasing rank, followed by at most one name of rank m, stay in
      increasing rank. */
  lemma AppendRanked(before: seq<string>, last: seq<string>, m: nat)
    requires forall k :: 0 <= k < |before| ==> Rank(before[k]) < m
    requires forall k, l :: 0 <= k < l < |before| ==> Rank(before[k]) < Rank(before[l])
    requires |last| <= 1 && forall k :: 0 <= k < |last| ==> Rank(last[k]) == m
    ensures forall k, l :: 0 <= k < l < |before + last| ==> Rank((before + last)[k]) < Rank((before + last)[l])
  {
  }

  lemma RankOf(i: nat)
    requires i < |RequiredNames|
    ensures Rank(RequiredNames[i]) == i
  {
  }

  function Missing(p: StudentProfile): seq<string> {
    MissingUpTo(p, |RequiredNames|)
  }

  /** An exam other than "none" was selected. */
  predicate ExamTaken(p: StudentProfile) {
    p.examType != "" && p.examType != "none"
  }

  /** `subject and subject.strip() and mark and mark.strip()` on one entry, stopping with None
      where `mark.strip()` is called on a truthy value that is not a string. */
  function EntryCounts(subject: string, mark: Mark): Option<bool> {
    if Strip(subject) == "" then Some(false)
    else match mark
      case Text(m) => Some(Strip(m) != "")
      case OtherValue(truthy) => if truthy then None else Some(false)
  }

  /** The `valid_entries` count of the loop over the first entries, or None once an entry made it
      raise. */
  function Tally(entries: MarkEntries): (r: Option<nat>)
    ensures r.Some? ==> r.value <= |entries|
  {
    if entries == [] then Some(0)
    else
      var last := entries[|entries| - 1];
      match Tally(entries[..|entries| - 1])
      case None => None
      case Some(n) =>
        match EntryCounts(last.0, last.1)
        case None => None
        case Some(counts) => Some(if counts then n + 1 else n)
  }

  /** Once an entry raises, the whole loop raises. */
  lemma {:induction false} TallyRaisesOnward(entries: MarkEntries, j: nat)
    requires j <= |entries| && Tally(entries[..j]).None?
    ensures Tally(entries).None?
    decreases |entries|
  {
    if j < |entries| {
      var init := entries[..|entries| - 1];
      assert init[..j] == entries[..j];
      TallyRaisesOnward(init, j);
    } else {
      assert entries[..j] == entries;
    }
  }

  /** The marks check for a taken exam, once the date and the school are present. */
  function CheckMarks(marks: Decoded): (r: CleanResult)
    ensures r.Accepted? ==> marks.Object? && r.parsedMarks == Some(marks.entries)
    ensures r.Accepted? <==> marks.Object? && Tally(marks.entries).Some? && Tally(marks.entries).value >= 4
    ensures marks.Object? && Tally(marks.entries).Some? && Tally(marks.entries).value < 4 ==> r == Invalid(FewMarksMessage)
    ensures r.Crashed? <==> marks.Object? && Tally(marks.entries).None?
    ensures marks.Blank? || marks.Malformed? ==> r == Invalid(DecodeMessage)
    ensures marks.NotObject? ==> r == Invalid(FormatMessage)
  {
    match marks
    case Blank => Invalid(DecodeMessage)
    case Malformed => Invalid(DecodeMessage)
    case NotObject => Invalid(FormatMessage)
    case Object(entries) =>
      match Tally(entries)
      case None => Crashed
      case Some(n) => if n < 4 then Invalid(FewMarksMessage) else Accepted(Some(entries))
  }

  /** What the "none" branch stores: the decoded object, the empty object for an empty text,
      nothing otherwise. */
  function OptionalMarks(marks: Decoded): (r: Option<MarkEntries>)
    ensures marks.Object? ==> r == Some(marks.entries)
    ensures marks.Blank? ==> r == Some([])
    ensures marks.Malformed? || marks.NotObject? ==> r.None?
  {
    match marks
    case Blank => Some([])
    case Object(entries) => Some(entries)
    case _ => None
  }

  /** `StudentProfileForm.clean`. */
  function CleanSpec(p: StudentProfile, marks: Decoded): (r: CleanResult)
    ensures Missing(p) != [] ==> r == Invalid(RequiredPrefix + Join(Missing(p), ", "))
    ensures Missing(p) == [] && !ExamTaken(p) ==> r == Accepted(OptionalMarks(marks))
    ensures r.Accepted? ==> Missing(p) == []
    ensures r.Accepted? && ExamTaken(p) ==>
      p.passedDate.Some? && p.passedSchool != "" && marks.Object? && r.parsedMarks == Some(marks.entries) &&
      Tally(marks.entries).Some? && Tally(marks.entries).value >= 4
    ensures Missing(p) == [] && ExamTaken(p) && p.passedDate.Some? && p.passedSchool == "" ==> r == Invalid(SchoolMessage)
    ensures (Missing(p) == [] && ExamTaken(p) && p.passedDate.Some? && p.passedSchool != "" &&
             marks.Object? && Tally(marks.entries).Some? && Tally(marks.entries).value >= 4)
      ==> r == Accepted(Some(marks.entries))
    ensures Missing(p) == [] && ExamTaken(p) && p.passedDate.None? ==> r == Invalid(DateMessage)
    ensures Missing(p) == [] && ExamTaken(p) && p.passedDate.Some? && p.passedSchool != "" ==> r == CheckMarks(marks)
  {
    var missing := Missing(p);
    if missing != [] then Invalid(RequiredPrefix + Join(missing, ", "))
    else if ExamTaken(p) then
      if p.passedDate.None? then Invalid(DateMessage)
      else if p.passedSchool == "" then Invalid(SchoolMessage)
      else CheckMarks(marks)
    else Accepted(OptionalMarks(marks))
  }

  /** The error for missing fields names exactly the fields that are not filled. */
  lemma MissingNamesExactly(p: StudentProfile)
    ensures forall i :: 0 <= i < 5 ==> (RequiredNames[i] in Missing(p) <==> !Filled(p, i))
    ensures Missing(p) == [] <==> forall i :: 0 <= i < 5 ==> Filled(p, i)
  {
    if Missing(p) != [] {
      assert Missing(p)[0] == RequiredNames[Rank(Missing(p)[0])];
    }
  }

  /** A form that `clean` accepts describes a complete profile. */
  lemma AcceptedIsComplete(p: StudentProfile, marks: Decoded)
    requires CleanSpec(p, marks).Accepted?
    ensures IsComplete(p)
  {
    MissingNamesExactly(p);
    assert Filled(p, 0) && Filled(p, 1) && Filled(p, 2) && Filled(p, 3) && Filled(p, 4);
  }

  /** With an exam taken, the date is checked before the school. */
  lemma DateCheckedFirst(p: StudentProfile, marks: Decoded)
    requires Missing(p) == [] && ExamTaken(p) && p.passedDate.None?
    ensures CleanSpec(p, marks) == Invalid(DateMessage)
  {
  }

  /** With an exam taken, marks that do not decode to a JSON object are rejected. */
  lemma UndecodableMarksRejected(p: StudentProfile, marks: Decoded)
    requires Missing(p) == [] && ExamTaken(p) && p.passedDate.Some? && p.passedSchool != ""
    ensures marks.Blank? || marks.Malformed? ==> CleanSpec(p, marks) == Invalid(DecodeMessage)
    ensures marks.NotObject? ==> CleanSpec(p, marks) == Invalid(FormatMessage)
  {
  }

  /** A subject with a truthy mark that is not a string (a number, say) makes `clean` raise
      instead of reporting a validation error. */
  lemma NonStringMarkRaises(p: StudentProfile, entries: MarkEntries, j: nat)
    requires Missing(p) == [] && ExamTaken(p) && p.passedDate.Some? && p.passedSchool != ""
    requires j < |entries| && Tally(entries[..j]).Some?
    requires Strip(entries[j].0) != "" && entries[j].1 == OtherValue(true)
    ensures CleanSpec(p, Object(entries)) == Crashed
  {
    EntryRaises(entries, j);
  }

  /** An entry that raises makes the whole count raise. */
  lemma EntryRaises(entries: MarkEntries, j: nat)
    requires j < |entries| && Tally(entries[..j]).Some?
    requires EntryCounts(entries[j].0, entries[j].1).None?
    ensures Tally(entries).None?
  {
    TallyStep(entries, j);
    TallyRaisesOnward(entries, j + 1);
  }

  /** One more entry extends the count by that entry's verdict. */
  lemma TallyStep(entries: MarkEntries, i: nat)
    requires i < |entries|
    ensures Tally(entries[..i + 1]) ==
      match Tally(entries[..i])
      case None => None
      case Some(n) =>
        match EntryCounts(entries[i].0, entries[i].1)
        case None => None
        case Some(counts) => Some(if counts then n + 1 else n)
  {
    assert entries[..i + 1][..i] == entries[..i];
  }

  /** The loop of `clean` that counts the subject entries with a subject and a mark; None when
      it raises. */
  method CountEntries(entries: MarkEntries) returns (r: Option<nat>)
    ensures r == Tally(entries)
  {
    var validEntries := 0;
    for i := 0 to |entries|
      invariant Tally(entries[..i]) == Some(validEntries)
    {
      TallyStep(entries, i);
      var (subject, mark) := entries[i];
      if Strip(subject) != "" {
        match mark {
          case Text(m) =>
            if Strip(m) != "" {
              validEntries := validEntries + 1;
            }
          case OtherValue(truthy) =>
            if truthy {
              TallyRaisesOnward(entries, i + 1);
              return None;
            }
        }
      }
    }
    assert entries[..|entries|] == entries;
    return Some(validEntries);
  }

  /** `clean` as written: the loop collecting the missing fields, then the checks in order. */
  method Clean(p: StudentProfile, marks: Decoded) returns (r: CleanResult)
    ensures r == CleanSpec(p, marks)
  {
    var missing: seq<string> := [];
    for i := 0 to |RequiredNames|
      invariant missing == MissingUpTo(p, i)
    {
      if !Filled(p, i) {
        missing := missing + [RequiredNames[i]];
      }
    }
    if missing != [] {
      return Invalid(RequiredPrefix + Join(missing, ", "));
    }
    if !ExamTaken(p) {
      return Accepted(OptionalMarks(marks));
    }
    if p.passedDate.None? {
      return Invalid(DateMessage);
    }
    if p.passedSchool == "" {
      return Invalid(SchoolMessage);
    }
    match marks {
      case Blank => r := Invalid(DecodeMessage);
      case Malformed => r := Invalid(DecodeMessage);
      case NotObject => r := Invalid(FormatMessage);
      case Object(entries) =>
        var validEntries := CountEntries(entries);
        if validEntries.None? {
          r := Crashed;
        } else if validEntries.value < 4 {
          r := Invalid(FewMarksMessage);
        } else {
          r := Accepted(Some(entries));
        }
    }
  }

  // ---------------------------------------------------------------------------------------
  // Saving
  // ---------------------------------------------------------------------------------------

  /** The merge `save` performs on the stored marks, keyed by exam type; a null store reads as
      the empty one. */
  function MergeMarks(stored: Option<map<string, MarkEntries>>, examType: string, parsed: MarkEntries)
    : (r: Option<map<string, MarkEntries>>)
    ensures examType != "" && examType != "none" && parsed != [] ==>
      r.Some? && examType in r.value && r.value[examType] == parsed &&
      forall k :: k in stored.GetOr(map[]) && k != examType ==> k in r.value && r.value[k] == stored.value[k]
    ensures examType == "" || examType == "none" || parsed == [] ==> r == stored
  {
    if examType != "" && examType != "none" && parsed != [] then
      Some(stored.GetOr(map[])[examType := parsed])
    else stored
  }

  /** The marks merge only ever adds or replaces the entry of the selected exam. */
  lemma MergeKeepsOtherExams(stored: map<string, MarkEntries>, examType: string, parsed: MarkEntries)
    ensures MergeMarks(Some(stored), examType, parsed).Some?
    ensures stored.Keys <= MergeMarks(Some(stored), examType, parsed).value.Keys <= stored.Keys + {examType}
  {
  }

  /** Merging the same marks twice stores what merging once does. */
  lemma MergeIdempotent(stored: Option<map<string, MarkEntries>>, examType: string, parsed: MarkEntries)
    ensures MergeMarks(MergeMarks(stored, examType, parsed), examType, parsed) == MergeMarks(stored, examType, parsed)
  {
    var m := stored.GetOr(map[]);
    assert m[examType := parsed][examType := parsed] == m[examType := parsed];
  }

  /** The profile instance `save` updates: its stored subject marks. */
  class ProfileRecord {
    var subjectMarks: Option<map<string, MarkEntries>>

    constructor(stored: Option<map<string, MarkEntries>>)
      ensures subjectMarks == stored
    {
      subjectMarks := stored;
    }

    /** `StudentProfileForm.save`: stores the marks `clean` parsed under the selected exam. */
    method Save(examType: string, cleaned: CleanResult)
      modifies this
      ensures subjectMarks == MergeMarks(old(subjectMarks), examType,
        if cleaned.Accepted? then cleaned.parsedMarks.GetOr([]) else [])
    {
      var parsed := if cleaned.Accepted? then cleaned.parsedMarks.GetOr([]) else [];
      if examType != "" && examType != "none" && parsed != [] {
        var existing := subjectMarks.GetOr(map[]);
        existing := existing[examType := parsed];
        subjectMarks := Some(existing);
      }
    }
  }
}
