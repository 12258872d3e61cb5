/**
 * The derived values of the data models: profile completeness, the meta-description snippet,
 * the job-outlook labels, the language and university fallbacks, the `last_updated` choice,
 * the programme flags of universities and colleges, and the keyword query behind a career's
 * related majors.
 */
module Models {
  import opened Wrappers
  import opened Text

  // ---------------------------------------------------------------------------------------
  // Student profile
  // ---------------------------------------------------------------------------------------

  datatype Date = Date(year: int, month: int, day: int)

  /** The profile fields that take part in validation; an empty string stands for a blank or
      null text field. */
  datatype StudentProfile = StudentProfile(
    fullName: string, gender: string, age: Option<int>, phone: string,
    examType: string, passedDate: Option<Date>, passedSchool: string)

  /** Python truthiness of the age: set and non-zero. */
  predicate AgeGiven(age: Option<int>) {
    age.Some? && age.value != 0
  }

  /** The four personal fields are all truthy. */
  predicate BasicOk(p: StudentProfile) {
    p.fullName != "" && p.gender != "" && AgeGiven(p.age) && p.phone != ""
  }

  /** `StudentProfile.is_complete`: the personal fields, and for an exam other than "none"
      also the school and the date it was passed. */
  function IsComplete(p: StudentProfile): (r: bool)
    ensures p.examType == "none" ==> (r <==> BasicOk(p))
    ensures p.examType != "none" ==> (r <==> BasicOk(p) && p.passedSchool != "" && p.passedDate.Some?)
  {
    var basicOk := BasicOk(p);
    if p.examType == "none" then basicOk
    else basicOk && p.passedSchool != "" && p.passedDate.Some?
  }

  /** With no exam taken, the exam details play no part in completeness. */
  lemma CompleteWithoutExam(p: StudentProfile, date: Option<Date>, school: string)
    requires p.examType == "none"
    ensures IsComplete(p.(passedDate := date, passedSchool := school)) == IsComplete(p)
  {
  }

  /** A complete profile stays complete when the exam is changed to "none". */
  lemma CompleteDropExam(p: StudentProfile)
    requires IsComplete(p)
    ensures IsComplete(p.(examType := "none"))
  {
  }

  // ---------------------------------------------------------------------------------------
  // Meta description
  // ---------------------------------------------------------------------------------------

  /** The description shortened for a meta tag: unchanged up to 150 characters, otherwise its
      first 147 characters followed by "...". */
  function Snippet(desc: string): (r: string)
    ensures |r| <= 150
    ensures |desc| <= 150 ==> r == desc
    ensures |desc| > 150 ==> |r| == 150 && r[..147] == desc[..147] && r[147..] == "..."
  {
    if |desc| > 150 then desc[..147] + "..." else desc
  }

  /** `get_meta_description`: the title, an en dash and the snippet of the description, an
      absent description counting as empty. */
  function MetaDescription(title: string, desc: Option<string>): (r: string)
    ensures |title| + 3 <= |r| <= |title| + 3 + 150
    ensures r[..|title|] == title && r[|title|..|title| + 3] == " – "
    ensures r[|title| + 3..] == Snippet(desc.GetOr(""))
    ensures desc.None? ==> r == title + " – "
  {
    title + " – " + Snippet(desc.GetOr(""))
  }

  /** Truncation is idempotent: a snippet is its own snippet. */
  lemma SnippetIdempotent(desc: string)
    ensures Snippet(Snippet(desc)) == Snippet(desc)
  {
  }

  // ---------------------------------------------------------------------------------------
  // Job outlook
  // ---------------------------------------------------------------------------------------

  const OutlookLabels: map<string, string> := map[
    "very_high" := "Very High", "high" := "High", "average" := "Average", "low" := "Low"
  ]

  const OutlookLabelsMy: map<string, string> := map[
    "very_high" := "အလွန်မြင့်မားသော",
    "high" := "မြင့်မားသော",
    "average" := "ပျမ်းမျှ",
    "low" := "နိမ့်သော"
  ]

  /** The Myanmar word for "unknown". */
  const UnknownMy := "မသိရ"

  /** `Career.get_job_outlook`. */
  function JobOutlook(key: string): (r: string)
    ensures r == "Unknown" <==> key !in OutlookLabels
  {
    if key in OutlookLabels then OutlookLabels[key] else "Unknown"
  }

  /** `Career.get_job_outlook_my`, keyed by the same stored outlook value. */
  function JobOutlookMy(key: string): (r: string)
    ensures r == UnknownMy <==> key !in OutlookLabelsMy
  {
    if key in OutlookLabelsMy then OutlookLabelsMy[key] else UnknownMy
  }

  /** Both languages recognise the same outlook values, so a value is unknown in one exactly
      when it is unknown in the other. */
  lemma OutlookLanguagesAgree(key: string)
    ensures JobOutlook(key) == "Unknown" <==> JobOutlookMy(key) == UnknownMy
  {
    assert OutlookLabels.Keys == OutlookLabelsMy.Keys;
  }

  // ---------------------------------------------------------------------------------------
  // Fallbacks
  // ---------------------------------------------------------------------------------------

  /** `get_title_my` / `get_description_my`: the Myanmar text when it is non-empty, otherwise
      the English one. */
  function MyanmarOrEnglish(my: string, en: string): (r: string)
    ensures my != "" ==> r == my
    ensures my == "" ==> r == en
  {
    if my != "" then my else en
  }

  /** The fallback only yields an empty text when both texts are empty. */
  lemma FallbackNonEmpty(my: string, en: string)
    ensures MyanmarOrEnglish(my, en) == "" <==> my == "" && en == ""
  {
  }

  /** The `last_updated` property of universities and colleges. */
  function LastUpdated<T>(dataUpdatedAt: Option<T>, updatedAt: T): (r: T)
    ensures dataUpdatedAt.Some? ==> r == dataUpdatedAt.value
    ensures dataUpdatedAt.None? ==> r == updatedAt
  {
    dataUpdatedAt.GetOr(updatedAt)
  }

  /** The institutions a major can belong to, each with its name in the requested language. */
  datatype MajorHome = MajorHome(publicUniversity: Option<string>, privateCollege: Option<string>)

  /** `Major.get_university_name`. */
  function UniversityName(m: MajorHome): (r: string)
    ensures m.publicUniversity.Some? ==> r == m.publicUniversity.value
    ensures m.publicUniversity.None? && m.privateCollege.Some? ==> r == m.privateCollege.value
    ensures m.publicUniversity.None? && m.privateCollege.None? ==> r == "Unknown University"
  {
    match m.publicUniversity
    case Some(name) => name
    case None => m.privateCollege.GetOr("Unknown University")
  }

  // ---------------------------------------------------------------------------------------
  // Programme flags
  // ---------------------------------------------------------------------------------------

  /** The major lists of a public university or private college, per degree level and language. */
  datatype Programmes = Programmes(
    undergraduateEn: seq<string>, undergraduateMy: seq<string>,
    graduateEn: seq<string>, graduateMy: seq<string>,
    doctoralEn: seq<string>, doctoralMy: seq<string>)

  /** `bool(en or my)` on two lists. */
  function EitherListed(en: seq<string>, my: seq<string>): (r: bool)
    ensures r <==> |en| + |my| > 0
  {
    en != [] || my != []
  }

  function HasUndergraduate(p: Programmes): bool {
    EitherListed(p.undergraduateEn, p.undergraduateMy)
  }

  function HasGraduate(p: Programmes): bool {
    EitherListed(p.graduateEn, p.graduateMy)
  }

  function HasDoctoral(p: Programmes): bool {
    EitherListed(p.doctoralEn, p.doctoralMy)
  }

  /** Each flag depends only on its own degree level: changing the lists of one level leaves
      the other two flags as they were. */
  lemma ProgrammeFlagsIndependent(p: Programmes, en: seq<string>, my: seq<string>)
    ensures HasUndergraduate(p.(graduateEn := en, graduateMy := my)) == HasUndergraduate(p)
    ensures HasDoctoral(p.(graduateEn := en, graduateMy := my)) == HasDoctoral(p)
    ensures HasGraduate(p.(graduateEn := en, graduateMy := my)) <==> |en| + |my| > 0
    ensures HasGraduate(p.(undergraduateEn := en, undergraduateMy := my)) == HasGraduate(p)
    ensures HasDoctoral(p.(undergraduateEn := en, undergraduateMy := my)) == HasDoctoral(p)
    ensures HasUndergraduate(p.(undergraduateEn := en, undergraduateMy := my)) <==> |en| + |my| > 0
    ensures HasUndergraduate(p.(doctoralEn := en, doctoralMy := my)) == HasUndergraduate(p)
    ensures HasGraduate(p.(doctoralEn := en, doctoralMy := my)) == HasGraduate(p)
    ensures HasDoctoral(p.(doctoralEn := en, doctoralMy := my)) <==> |en| + |my| > 0
  {
  }

  // ---------------------------------------------------------------------------------------
  // Related majors
  // ---------------------------------------------------------------------------------------

  /** The fields of a career that feed its related-majors query. */
  datatype Career = Career(categoryKeywords: string, careerKeywords: string, title: string)

  /** A major as the query sees it. */
  datatype Major = Major(name: string, description: string)

  /** `[kw.strip().lower() for kw in text.split(",")]`, or nothing for an empty text. */
  function KeywordList(text: string): (r: set<string>)
    ensures text == "" ==> r == {}
    ensures text != "" ==> forall kw :: kw in SplitOn(text, ',') ==> Lower(Strip(kw)) in r
    ensures forall k :: k in r ==> exists kw :: kw in SplitOn(text, ',') && k == Lower(Strip(kw))
  {
    if text == "" then {} else set kw | kw in SplitOn(text, ',') :: Lower(Strip(kw))
  }

  /** The de-duplicated keywords of a career: category keywords, career keywords and the
      lower-cased words of its title. */
  function Keywords(c: Career): (r: set<string>)
    ensures forall w :: w in Words(Lower(c.title)) ==> w in r
    ensures KeywordList(c.categoryKeywords) <= r && KeywordList(c.careerKeywords) <= r
    ensures forall k :: k in r ==>
      k in KeywordList(c.categoryKeywords) || k in KeywordList(c.careerKeywords) || k in Words(Lower(c.title))
  {
    KeywordList(c.categoryKeywords) + KeywordList(c.careerKeywords) + set w | w in Words(Lower(c.title))
  }

  /** The keywords that take part in the query: those longer than two characters. */
  function QueryTerms(keywords: set<string>): (r: set<string>)
    ensures forall kw :: kw in r <==> kw in keywords && |kw| > 2
  {
    set kw | kw in keywords && |kw| > 2
  }

  /** What the query selects. */
  datatype MajorQuery = NoMajors | AllMajors | Matching(terms: set<string>)

  /** `icontains` on the name or the description for one lower-case term. */
  predicate MatchesTerm(m: Major, term: string) {
    Contains(Lower(m.name), term) || Contains(Lower(m.description), term)
  }

  predicate Selects(q: MajorQuery, m: Major) {
    match q
    case NoMajors => false
    case AllMajors => true
    case Matching(terms) => exists t :: t in terms && MatchesTerm(m, t)
  }

  /** The query of `get_related_majors` as written: nothing for an empty keyword set, but an
      empty `Q()` — which Django reads as "no condition" — when no keyword is long enough. */
  function RelatedQueryAsWritten(c: Career): (q: MajorQuery)
    ensures Keywords(c) == {} <==> q == NoMajors
    ensures q == AllMajors <==> Keywords(c) != {} && QueryTerms(Keywords(c)) == {}
  {
    var keywords := Keywords(c);
    if keywords == {} then NoMajors
    else if QueryTerms(keywords) == {} then AllMajors
    else Matching(QueryTerms(keywords))
  }

  /** The query as intended: only majors that contain one of the long keywords. */
  function RelatedQuery(c: Career): (q: MajorQuery)
    ensures q.NoMajors? <==> QueryTerms(Keywords(c)) == {}
    ensures !q.AllMajors?
  {
    if QueryTerms(Keywords(c)) == {} then NoMajors else Matching(QueryTerms(Keywords(c)))
  }

  /** Every major the intended query selects shares a keyword longer than two characters with
      the career, and every major that shares one is selected. */
  lemma RelatedMajorsShareKeyword(c: Career, m: Major)
    ensures Selects(RelatedQuery(c), m) <==>
      exists kw :: kw in Keywords(c) && |kw| > 2 && MatchesTerm(m, kw)
  {
  }

  /** The two queries agree whenever the career has a keyword longer than two characters. */
  lemma RelatedQueriesAgree(c: Career)
    requires QueryTerms(Keywords(c)) != {}
    ensures RelatedQueryAsWritten(c) == RelatedQuery(c)
  {
  }

  /** A career without keyword lists has its title words as its keywords. */
  lemma TitleOnlyKeywords(c: Career, w: string)
    requires c.categoryKeywords == "" && c.careerKeywords == "" && Words(Lower(c.title)) == [w]
    ensures Keywords(c) == {w}
  {
    assert (set x | x in [w]) == {w};
  }

  /** The as-written query selects every major for a career whose only keyword is short, such as
      a career titled "IT" with no keyword lists; the intended query selects none. */
  lemma ShortKeywordsSelectEverything(c: Career, w: string, m: Major)
    requires c.categoryKeywords == "" && c.careerKeywords == "" && Words(Lower(c.title)) == [w] && |w| <= 2
    ensures RelatedQueryAsWritten(c) == AllMajors && Selects(RelatedQueryAsWritten(c), m)
    ensures RelatedQuery(c) == NoMajors && !Selects(RelatedQuery(c), m)
  {
    TitleOnlyKeywords(c, w);
    assert QueryTerms({w}) == {};
  }

  /** All the majors the query selects, in catalogue order. */
  function Selected(q: MajorQuery, majors: seq<Major>): (r: seq<Major>)
    ensures forall m :: m in r <==> m in majors && Selects(q, m)
  {
    if majors == [] then []
    else (if Selects(q, majors[0]) then [majors[0]] else []) + Selected(q, majors[1..])
  }

  /** The majors related to a career, `filter(query)[:limit]`: the first `limit` of the majors
      the query selects, in catalogue order, or all of them when fewer are selected. */
  function RelatedMajors(q: MajorQuery, majors: seq<Major>, limit: nat): (r: seq<Major>)
    ensures |r| <= limit
    ensures forall m :: m in r ==> m in majors && Selects(q, m)
    ensures |r| == if |Selected(q, majors)| < limit then |Selected(q, majors)| else limit
    ensures forall i :: 0 <= i < |r| ==> r[i] == Selected(q, majors)[i]
  {
    if majors == [] || limit == 0 then []
    else if Selects(q, majors[0]) then [majors[0]] + RelatedMajors(q, majors[1..], limit - 1)
    else RelatedMajors(q, majors[1..], limit)
  }
}
