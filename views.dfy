/**
 * The decision helpers of the web views: the score bands of the assessment report, the top
 * strengths, the work-style and environment classifiers, the feature vector handed to the
 * career classifier, the language fallback for translated model fields, and the review checks.
 */
module Views {
  import opened Wrappers
  import opened Text
  import opened Catalogue

  // ---------------------------------------------------------------------------------------
  // Score bands
  // ---------------------------------------------------------------------------------------

  /** `get_level`: the proficiency label of an aptitude score. */
  function Level(score: Option<real>): (r: string)
    ensures r == "Not assessed" <==> score.None?
    ensures score.Some? ==> (r == "Basic" <==> score.value <= 3.0)
    ensures score.Some? ==> (r == "Intermediate" <==> 3.0 < score.value <= 6.0)
    ensures score.Some? ==> (r == "Advanced" <==> 6.0 < score.value <= 8.0)
    ensures score.Some? ==> (r == "Expert" <==> 8.0 < score.value)
  {
    match score
    case None => "Not assessed"
    case Some(v) =>
      if v <= 3.0 then "Basic"
      else if v <= 6.0 then "Intermediate"
      else if v <= 8.0 then "Advanced"
      else "Expert"
  }

  /** Position of a proficiency label in the order Basic < Intermediate < Advanced < Expert. */
  function LevelRank(level: string): int {
    if level == "Basic" then 0
    else if level == "Intermediate" then 1
    else if level == "Advanced" then 2
    else if level == "Expert" then 3
    else -1
  }

  /** A higher score never gets a lower proficiency level, and every score gets a level. */
  lemma LevelMonotone(a: real, b: real)
    requires a <= b
    ensures 0 <= LevelRank(Level(Some(a))) <= LevelRank(Level(Some(b)))
  {
  }

  /** The band boundaries are inclusive upper bounds: 3, 6 and 8. */
  lemma LevelBoundaries()
    ensures Level(Some(3.0)) == "Basic" && Level(Some(6.0)) == "Intermediate"
    ensures Level(Some(8.0)) == "Advanced" && Level(Some(8.5)) == "Expert"
  {
  }

  /** The low / medium / high band of a personality score. */
  function Band(v: real): (b: string)
    ensures b == "low" <==> v <= 4.0
    ensures b == "medium" <==> 4.0 < v <= 7.0
    ensures b == "high" <==> 7.0 < v
  {
    if v <= 4.0 then "low" else if v <= 7.0 then "medium" else "high"
  }

  const Interpretations: map<string, map<string, string>> := map[
    "C_score" := map["low" := "Flexible and adaptable approach", "medium" := "Balanced organization skills", "high" := "Highly structured and systematic"],
    "O_score" := map["low" := "Prefer routine and consistency", "medium" := "Open to new experiences", "high" := "Highly innovative and curious"],
    "E_score" := map["low" := "Reflective and reserved", "medium" := "Socially balanced", "high" := "Outgoing and energetic"],
    "A_score" := map["low" := "Independent and direct", "medium" := "Cooperative and considerate", "high" := "Highly empathetic and supportive"],
    "N_score" := map["low" := "Emotionally resilient", "medium" := "Generally stable", "high" := "Sensitive and emotionally aware"]
  ]

  /** `get_interpretation`: the description of a personality score; "Average" for a personality the
      table does not know. */
  function Interpretation(personality: string, score: Option<real>): (r: string)
    ensures score.None? ==> r == "Not assessed"
    ensures score.Some? && personality !in Interpretations ==> r == "Average"
  {
    match score
    case None => "Not assessed"
    case Some(v) =>
      var table := if personality in Interpretations then Interpretations[personality] else map[];
      if Band(v) in table then table[Band(v)] else "Average"
  }

  /** Two scores in the same band get the same interpretation. */
  lemma InterpretationByBand(personality: string, a: real, b: real)
    requires Band(a) == Band(b)
    ensures Interpretation(personality, Some(a)) == Interpretation(personality, Some(b))
  {
  }

  /** Every band of the five personality traits has its own description, never "Average". */
  lemma InterpretationKnownTrait(personality: string, v: real)
    requires personality in Interpretations
    ensures Interpretation(personality, Some(v)) == Interpretations[personality][Band(v)]
    ensures Interpretation(personality, Some(v)) != "Average"
  {
  }

  // ---------------------------------------------------------------------------------------
  // Top strengths
  // ---------------------------------------------------------------------------------------

  /** A field with its numeric score. */
  type Scored = (string, real)

  /** The assessment answers as the view receives them: the dict's items in order. */
  type Items = seq<(string, Option<real>)>

  /** The items that have a score, in order (the append loop of `get_strengths_for_career`). */
  function ScoredItems(data: Items): (r: seq<Scored>)
    ensures |r| <= |data|
    ensures forall y :: y in r ==> (y.0, Some(y.1)) in data
    ensures forall i :: 0 <= i < |data| && data[i].1.Some? ==> (data[i].0, data[i].1.value) in r
  {
    if data == [] then []
    else
      var last := data[|data| - 1];
      ScoredItems(data[..|data| - 1]) + (if last.1.Some? then [(last.0, last.1.value)] else [])
  }

  /** The scored items of two runs of items, in order: those of the first run, then those of the
      second. */
  lemma {:induction false} ScoredItemsConcat(d1: Items, d2: Items)
    ensures ScoredItems(d1 + d2) == ScoredItems(d1) + ScoredItems(d2)
    decreases |d2|
  {
    if d2 != [] {
      var init := d2[..|d2| - 1];
      assert (d1 + d2)[..|d1 + d2| - 1] == d1 + init;
      ScoredItemsConcat(d1, init);
    } else {
      assert d1 + d2 == d1;
    }
  }

  predicate SortedDesc(s: seq<Scored>) {
    forall i, j :: 0 <= i < j < |s| ==> s[i].1 >= s[j].1
  }

  /** Places x before the first element whose score it reaches. */
  function Insert(x: Scored, s: seq<Scored>): (r: seq<Scored>)
    ensures |r| == |s| + 1
    ensures multiset(r) == multiset(s) + multiset{x}
    ensures SortedDesc(s) ==> SortedDesc(r)
  {
    if s == [] || x.1 >= s[0].1 then [x] + s
    else
      var rest := Insert(x, s[1..]);
      assert s == [s[0]] + s[1..];
      InsertSorted(x, s, rest);
      [s[0]] + rest
  }

  /** Re-inserting behind a head that outscores x keeps the order. */
  lemma InsertSorted(x: Scored, s: seq<Scored>, rest: seq<Scored>)
    requires s != [] && x.1 < s[0].1
    requires multiset(rest) == multiset(s[1..]) + multiset{x}
    requires SortedDesc(s) ==> SortedDesc(rest)
    ensures SortedDesc(s) ==> SortedDesc([s[0]] + rest)
  {
    if SortedDesc(s) {
      forall y | y in rest
        ensures y.1 <= s[0].1
      {
        assert y in multiset(rest);
        if y != x {
          assert y in multiset(s[1..]);
          assert y in s[1..];
        }
      }
    }
  }

  /** `list.sort(key=score, reverse=True)`: ordered by non-increasing score, a permutation of its input. */
  function SortDesc(s: seq<Scored>): (r: seq<Scored>)
    ensures |r| == |s|
    ensures multiset(r) == multiset(s)
    ensures SortedDesc(r)
  {
    if s == [] then []
    else
      assert s == [s[0]] + s[1..];
      Insert(s[0], SortDesc(s[1..]))
  }

  /** The entries with score v, in order. */
  function WithScore(s: seq<Scored>, v: real): seq<Scored> {
    if s == [] then [] else (if s[0].1 == v then [s[0]] else []) + WithScore(s[1..], v)
  }

  lemma {:induction false} InsertWithScore(x: Scored, t: seq<Scored>, v: real)
    ensures WithScore(Insert(x, t), v) == if x.1 == v then [x] + WithScore(t, v) else WithScore(t, v)
  {
    if t == [] || x.1 >= t[0].1 {
      assert ([x] + t)[1..] == t;
    } else {
      InsertWithScore(x, t[1..], v);
      assert ([t[0]] + Insert(x, t[1..]))[1..] == Insert(x, t[1..]);
    }
  }

  /** The sort is stable: entries with equal scores keep their original relative order. */
  lemma {:induction false} SortStable(s: seq<Scored>, v: real)
    ensures WithScore(SortDesc(s), v) == WithScore(s, v)
  {
    if s != [] {
      SortStable(s[1..], v);
      InsertWithScore(s[0], SortDesc(s[1..]), v);
    }
  }

  /** The number of strengths reported: five, or fewer when fewer fields have a score. */
  function TopCount(data: Items): nat {
    var n := |ScoredItems(data)|;
    if n < 5 then n else 5
  }

  /** The scored entries reported as strengths: the first five after sorting. */
  function TopEntries(data: Items): (r: seq<Scored>)
    ensures |r| == TopCount(data)
  {
    SortDesc(ScoredItems(data))[..TopCount(data)]
  }

  /** `get_strengths_for_career`. */
  function TopStrengths(data: Items): (r: seq<string>)
    ensures |r| == TopCount(data) <= 5
  {
    var top := TopEntries(data);
    seq(|top|, i requires 0 <= i < |top| => top[i].0)
  }

  /** In a sequence sorted by non-increasing score, nothing after position n outscores
      anything before it. */
  lemma {:induction false} SortedPrefixMaximal(sorted: seq<Scored>, n: nat)
    requires SortedDesc(sorted) && n <= |sorted|
    ensures forall y, z :: y in multiset(sorted) - multiset(sorted[..n]) && z in sorted[..n] ==> z.1 >= y.1
  {
    assert sorted == sorted[..n] + sorted[n..];
    forall y, z | y in multiset(sorted) - multiset(sorted[..n]) && z in sorted[..n]
      ensures z.1 >= y.1
    {
      assert y in multiset(sorted[n..]);
      assert y in sorted[n..];
      var j :| 0 <= j < |sorted[n..]| && sorted[n..][j] == y;
      var i :| 0 <= i < n && sorted[..n][i] == z;
      assert sorted[i] == z && sorted[n + j] == y;
    }
  }

  /** The reported strengths are fields that have a score, listed by non-increasing score. */
  lemma TopStrengthsScored(data: Items)
    ensures forall i :: 0 <= i < TopCount(data) ==> (TopStrengths(data)[i], Some(TopEntries(data)[i].1)) in data
    ensures SortedDesc(TopEntries(data))
  {
    var sorted := SortDesc(ScoredItems(data));
    forall i | 0 <= i < TopCount(data)
      ensures (TopStrengths(data)[i], Some(TopEntries(data)[i].1)) in data
    {
      assert sorted[i] in multiset(ScoredItems(data));
    }
  }

  /** No scored entry left out of the strengths has a higher score than one reported. */
  lemma TopStrengthsMaximal(data: Items)
    ensures forall y, z :: y in multiset(ScoredItems(data)) - multiset(TopEntries(data)) && z in TopEntries(data) ==> z.1 >= y.1
  {
    SortedPrefixMaximal(SortDesc(ScoredItems(data)), TopCount(data));
  }

  /** `get_strengths_for_career` as written: an append loop over the items, then the sort and
      the first five names. */
  method StrengthsForCareer(data: Items) returns (top: seq<string>)
    ensures top == TopStrengths(data)
  {
    var scores: seq<Scored> := [];
    for i := 0 to |data|
      invariant scores == ScoredItems(data[..i])
    {
      assert data[..i + 1][..i] == data[..i];
      if data[i].1.Some? {
        scores := scores + [(data[i].0, data[i].1.value)];
      }
    }
    assert data[..|data|] == data;
    var sorted := SortDesc(scores);
    var n := if |sorted| < 5 then |sorted| else 5;
    top := seq(n, i requires 0 <= i < n => sorted[i].0);
  }

  // ---------------------------------------------------------------------------------------
  // Preference classifiers
  // ---------------------------------------------------------------------------------------

  /** `counseling_data.get(key, 5)`. */
  function Get(data: map<string, real>, key: string): real {
    if key in data then data[key] else 5.0
  }

  /** `get_work_style_preference`: the first of teamwork, creativity and detail that reaches 8. */
  function WorkStyle(data: map<string, real>): (r: string)
    ensures Get(data, "Enjoy_Teamwork") >= 8.0 ==> r == "collaborative team environments"
    ensures r == "balanced and varied work" <==>
      Get(data, "Enjoy_Teamwork") < 8.0 && Get(data, "Creative_Thinking") < 8.0 && Get(data, "Attention_to_Detail") < 8.0
  {
    if Get(data, "Enjoy_Teamwork") >= 8.0 then "collaborative team environments"
    else if Get(data, "Creative_Thinking") >= 8.0 then "innovative and creative work"
    else if Get(data, "Attention_to_Detail") >= 8.0 then "detailed and precise tasks"
    else "balanced and varied work"
  }

  /** Creativity decides only when teamwork is below 8, detail only when both others are. */
  lemma WorkStylePriority(data: map<string, real>)
    ensures WorkStyle(data) == "innovative and creative work" <==>
      Get(data, "Enjoy_Teamwork") < 8.0 && Get(data, "Creative_Thinking") >= 8.0
    ensures WorkStyle(data) == "detailed and precise tasks" <==>
      Get(data, "Enjoy_Teamwork") < 8.0 && Get(data, "Creative_Thinking") < 8.0 && Get(data, "Attention_to_Detail") >= 8.0
  {
  }

  /** Missing answers default to 5, so no answers at all give the balanced style. */
  lemma WorkStyleEmpty()
    ensures WorkStyle(map[]) == "balanced and varied work"
  {
  }

  /** `get_environment_preference`: a four-way split on extraversion >= 7 and openness >= 7. */
  function Environment(data: map<string, real>): (r: string)
    ensures r == "dynamic, social, and innovative settings" <==> Get(data, "E_score") >= 7.0 && Get(data, "O_score") >= 7.0
    ensures r == "social and interactive environments" <==> Get(data, "E_score") >= 7.0 && Get(data, "O_score") < 7.0
    ensures r == "creative and changing circumstances" <==> Get(data, "E_score") < 7.0 && Get(data, "O_score") >= 7.0
    ensures r == "stable and predictable settings" <==> Get(data, "E_score") < 7.0 && Get(data, "O_score") < 7.0
  {
    var extraversion := Get(data, "E_score");
    var openness := Get(data, "O_score");
    if extraversion >= 7.0 && openness >= 7.0 then "dynamic, social, and innovative settings"
    else if extraversion >= 7.0 then "social and interactive environments"
    else if openness >= 7.0 then "creative and changing circumstances"
    else "stable and predictable settings"
  }

  // ---------------------------------------------------------------------------------------
  // The classifier's feature vector
  // ---------------------------------------------------------------------------------------

  /** The features the career classifier was trained on, in its column order. */
  const FeatureNames: seq<string> := [
    "O_score", "C_score", "E_score", "A_score", "N_score",
    "Numerical Aptitude", "Spatial Aptitude", "Perceptual Aptitude",
    "Abstract Reasoning", "Verbal Reasoning",
    "Enjoy_Teamwork", "Creative_Thinking", "Attention_to_Detail"
  ]

  /** Features whose answer is stored under another name; None means the answer is not used. */
  const FeatureMapping: map<string, Option<string>> := map[
    "Numerical Aptitude" := Some("Numerical_Aptitude"),
    "Spatial Aptitude" := Some("Spatial_Aptitude"),
    "Perceptual Aptitude" := None,
    "Abstract Reasoning" := Some("Abstract_Reasoning"),
    "Verbal Reasoning" := Some("Verbal_Aptitude")
  ]

  /** The answer a feature is read from, or None for a feature fixed at 5. */
  function FeatureSource(feature: string): Option<string> {
    if feature in FeatureMapping then FeatureMapping[feature] else Some(feature)
  }

  /** One slot of the vector: the answer it is read from, 5 when that answer is missing, and
      always 5 for a feature that reads no answer. */
  function FeatureValue(data: map<string, real>, feature: string): real {
    match FeatureSource(feature)
    case Some(key) => Get(data, key)
    case None => 5.0
  }

  /** The vector, one slot per feature. */
  function FeatureVector(data: map<string, real>): (v: seq<real>)
    ensures |v| == |FeatureNames| == 13
  {
    seq(|FeatureNames|, i requires 0 <= i < |FeatureNames| => FeatureValue(data, FeatureNames[i]))
  }

  /** The append loop of `generate_career_predictions` and `predict_career`. */
  method BuildFeatures(data: map<string, real>) returns (v: seq<real>)
    ensures v == FeatureVector(data)
  {
    v := [];
    for i := 0 to |FeatureNames|
      invariant |v| == i
      invariant forall k :: 0 <= k < i ==> v[k] == FeatureValue(data, FeatureNames[k])
    {
      var feature := FeatureNames[i];
      if feature in FeatureMapping && FeatureMapping[feature].Some? {
        v := v + [Get(data, FeatureMapping[feature].value)];
      } else if feature in FeatureMapping {
        v := v + [5.0];
      } else {
        v := v + [Get(data, feature)];
      }
    }
  }

  /** The Perceptual Aptitude slot is 5 whatever was collected, and the collected
      Perceptual_Aptitude answer has no effect on the vector. */
  lemma PerceptualIgnored(data: map<string, real>, p: real)
    ensures FeatureVector(data)[7] == 5.0
    ensures FeatureVector(data["Perceptual_Aptitude" := p]) == FeatureVector(data)
  {
    var data' := data["Perceptual_Aptitude" := p];
    forall i | 0 <= i < |FeatureNames|
      ensures FeatureValue(data', FeatureNames[i]) == FeatureValue(data, FeatureNames[i])
    {
      assert FeatureSource(FeatureNames[i]) != Some("Perceptual_Aptitude");
    }
  }

  /** The eight features stored under their own name read the answer of that name. */
  lemma DirectFeatures(data: map<string, real>)
    ensures FeatureVector(data)[0] == Get(data, "O_score") && FeatureVector(data)[1] == Get(data, "C_score")
    ensures FeatureVector(data)[2] == Get(data, "E_score") && FeatureVector(data)[3] == Get(data, "A_score")
    ensures FeatureVector(data)[4] == Get(data, "N_score") && FeatureVector(data)[10] == Get(data, "Enjoy_Teamwork")
    ensures FeatureVector(data)[11] == Get(data, "Creative_Thinking") && FeatureVector(data)[12] == Get(data, "Attention_to_Detail")
  {
  }

  /** A slot whose answer is missing from the dict, or that reads no answer, holds the default 5. */
  lemma AbsentAnswerDefaults(data: map<string, real>, i: nat)
    requires i < |FeatureNames|
    requires FeatureSource(FeatureNames[i]).None? || FeatureSource(FeatureNames[i]).value !in data
    ensures FeatureVector(data)[i] == 5.0
  {
  }

  /** With no answers every slot is the default 5. */
  lemma EmptyFeatures()
    ensures forall i :: 0 <= i < 13 ==> FeatureVector(map[])[i] == 5.0
  {
  }

  /** The renamed features are read from the answers the dialogue stores. */
  lemma RenamedFeatures(data: map<string, real>)
    ensures FeatureVector(data)[5] == Get(data, "Numerical_Aptitude")
    ensures FeatureVector(data)[6] == Get(data, "Spatial_Aptitude")
    ensures FeatureVector(data)[8] == Get(data, "Abstract_Reasoning")
    ensures FeatureVector(data)[9] == Get(data, "Verbal_Aptitude")
  {
  }

  // ---------------------------------------------------------------------------------------
  // Language fallback
  // ---------------------------------------------------------------------------------------

  /** An object's attributes: each present name with its value, None for a null value. */
  type Attributes = map<string, Option<string>>

  /** `getattr(obj, name) or ""` for a present attribute, "" for an absent one. */
  function Value(obj: Attributes, name: string): string {
    if name in obj then obj[name].GetOr("") else ""
  }

  /** The attributes `_tr` tries, in order. */
  function Candidates(base: string, language: string): seq<string> {
    [base + "_" + language, base + "_en", base]
  }

  /** The first non-empty value among `names`, or "" when they are all empty or absent. */
  function FirstValue(obj: Attributes, names: seq<string>): (r: string)
    ensures r == "" <==> forall i :: 0 <= i < |names| ==> Value(obj, names[i]) == ""
  {
    if names == [] then ""
    else if Value(obj, names[0]) != "" then Value(obj, names[0])
    else FirstValue(obj, names[1..])
  }

  /** A non-empty result is the value of a candidate before which every candidate is empty. */
  lemma {:induction false} FirstValueIsFirst(obj: Attributes, names: seq<string>)
    requires FirstValue(obj, names) != ""
    ensures exists i :: 0 <= i < |names| && Value(obj, names[i]) == FirstValue(obj, names) &&
                        (forall j :: 0 <= j < i ==> Value(obj, names[j]) == "")
  {
    if Value(obj, names[0]) == "" {
      var rest := names[1..];
      FirstValueIsFirst(obj, rest);
      var i :| 0 <= i < |rest| && Value(obj, rest[i]) == FirstValue(obj, rest) &&
        (forall j :: 0 <= j < i ==> Value(obj, rest[j]) == "");
      assert names[i + 1] == rest[i];
      assert forall j :: 1 <= j < i + 1 ==> names[j] == rest[j - 1];
    } else {
      assert Value(obj, names[0]) == FirstValue(obj, names);
    }
  }

  /** `_tr`: the loop over the candidate attributes with early return. */
  method Translate(obj: Attributes, base: string, language: string) returns (r: string)
    ensures r == FirstValue(obj, Candidates(base, language))
  {
    var names := Candidates(base, language);
    var i := 0;
    while i < |names|
      invariant 0 <= i <= |names|
      invariant FirstValue(obj, names) == FirstValue(obj, names[i..])
    {
      if names[i] in obj {
        var value := obj[names[i]].GetOr("");
        if value != "" {
          return value;
        }
      }
      assert names[i..][1..] == names[i + 1..];
      i := i + 1;
    }
    return "";
  }

  /** The requested language wins whenever its value is non-empty. */
  lemma TranslatePrefersLanguage(obj: Attributes, base: string, language: string)
    requires Value(obj, base + "_" + language) != ""
    ensures FirstValue(obj, Candidates(base, language)) == Value(obj, base + "_" + language)
  {
  }

  // ---------------------------------------------------------------------------------------
  // Review submission
  // ---------------------------------------------------------------------------------------

  predicate AllDigits(s: string) {
    forall i :: 0 <= i < |s| ==> IsDigit(s[i])
  }

  /** `int(s)` for a string of decimal digits. */
  function DecimalValue(s: string): nat
    requires AllDigits(s)
  {
    if s == [] then 0 else DecimalValue(s[..|s| - 1]) * 10 + (s[|s| - 1] as int - '0' as int)
  }

  /** Leading zeros do not change the value of a digit string. */
  lemma {:induction false} LeadingZero(s: string)
    requires AllDigits(s)
    ensures AllDigits("0" + s) && DecimalValue("0" + s) == DecimalValue(s)
    decreases |s|
  {
    if s != [] {
      LeadingZero(s[..|s| - 1]);
      assert ("0" + s)[..|"0" + s| - 1] == "0" + s[..|s| - 1];
    }
  }

  datatype ReviewOutcome = Created(rating: int, text: string) | Rejected

  /** The checks of `add_review` on a POST: the rating must be a non-empty digit string with
      value 1 to 5 and the stripped text must be non-empty; the review keeps the stripped text. */
  function AddReview(rating: string, text: string): (r: ReviewOutcome)
    ensures r.Created? ==> 1 <= r.rating <= 5 && r.text == Strip(text) && r.text != ""
    ensures r.Created? ==> AllDigits(rating) && r.rating == DecimalValue(rating)
    ensures r.Created? <==> rating != "" && AllDigits(rating) && 1 <= DecimalValue(rating) <= 5 && Strip(text) != ""
  {
    if rating == "" || !AllDigits(rating) || !(1 <= DecimalValue(rating) <= 5) then Rejected
    else if Strip(text) == "" then Rejected
    else Created(DecimalValue(rating), Strip(text))
  }

  /** A one-character rating is accepted exactly when it is one of the digits 1 to 5. */
  lemma SingleDigitRating(c: char, text: string)
    requires Strip(text) != ""
    ensures AddReview([c], text).Created? <==> '1' <= c <= '5'
  {
    assert AllDigits([c]) <==> IsDigit(c);
    if IsDigit(c) {
      assert [c][..0] == [];
      assert DecimalValue([c]) == c as int - '0' as int;
    }
  }

  /** A text of white space only is rejected whatever the rating. */
  lemma BlankReviewRejected(rating: string, text: string)
    requires forall i :: 0 <= i < |text| ==> IsSpace(text[i])
    ensures AddReview(rating, text) == Rejected
  {
  }
}
