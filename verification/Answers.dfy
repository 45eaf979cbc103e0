/** Answers given in a translated form, and how they become answers in the creator's own wording: what
    a respondent is shown, what an answer must be, and the way back from a shown option to the option
    it translates. */
module Answers {
  import opened Wrappers
  import opened Text
  import opened Questions
  import opened Drafts
  import opened Versions

  /** What stands in an answer for having picked Other. */
  const OTHER := "__other__"
  const MAX_ANSWER_TEXT := 10000

  datatype AnswerValue = AnswerValue(text: string, choice: string, choices: seq<string>, number: Option<int>,
                                     flag: Option<bool>, date: string, other: string) {
    predicate IsEmpty() {
      && TrimSpace(text) == "" && choice == "" && choices == [] && number.None? && flag.None?
      && TrimSpace(date) == "" && TrimSpace(other) == ""
    }
  }

  const NO_ANSWER := AnswerValue("", "", [], None, None, "", "")

  datatype Problem =
    | RequiredAnswer | AnswerTooLong | NotAnOption | OutOfRange | NotADate | OtherEmpty | OutOfBounds(min: int, max: int)

  /** Which texts are a calendar day in the one form dates are stored in. */
  type DateRule = string -> bool

  predicate IsOther(q: Question, choice: string) { q.allowOther && choice == OTHER }

  function ValidateAnswer(q: Question, v: AnswerValue, dates: DateRule): Option<Problem> {
    if v.IsEmpty() then if q.required then Some(RequiredAnswer) else None
    else if v.other != "" && !q.allowOther then Some(NotAnOption)
    else if |v.other| > MAX_ANSWER_TEXT then Some(AnswerTooLong)
    else match q.kind
      case LongText | ShortText => if |v.text| > MAX_ANSWER_TEXT then Some(AnswerTooLong) else None
      case SingleChoice | Dropdown =>
        if IsOther(q, v.choice) then if TrimSpace(v.other) == "" then Some(OtherEmpty) else None
        else if v.other != "" || v.choice !in q.options then Some(NotAnOption)
        else None
      case MultipleChoice =>
        var other := exists c <- v.choices :: IsOther(q, c);
        if exists c <- v.choices :: !IsOther(q, c) && c !in q.options then Some(NotAnOption)
        else if other && TrimSpace(v.other) == "" then Some(OtherEmpty)
        else if !other && v.other != "" then Some(NotAnOption)
        else None
      case RatingScale | NPS =>
        if v.number.None? || !(q.Scale().0 <= v.number.value <= q.Scale().1) then Some(OutOfRange) else None
      case YesNo => if v.flag.None? then Some(RequiredAnswer) else None
      case Date => if dates(v.date) then None else Some(NotADate)
      case Number =>
        if v.number.None? || !(q.Scale().0 <= v.number.value <= q.Scale().1) then Some(OutOfBounds(q.Scale().0, q.Scale().1))
        else None
  }

  datatype AnswerProblem = AnswerProblem(identity: string, position: nat, why: Problem)

  function AnswerTo(answers: map<string, AnswerValue>, identity: string): AnswerValue {
    if identity in answers then answers[identity] else NO_ANSWER
  }

  function Problems(answers: map<string, AnswerValue>, questions: seq<Question>, dates: DateRule): seq<AnswerProblem> {
    if questions == [] then []
    else
      var n := |questions| - 1;
      var q := questions[n];
      Problems(answers, questions[..n], dates)
      + match ValidateAnswer(q, AnswerTo(answers, q.identity), dates)
        case None => []
        case Some(why) => [AnswerProblem(q.identity, n + 1, why)]
  }

  /** Every problem of a submission at once, by question. */
  method Validate(answers: map<string, AnswerValue>, questions: seq<Question>, dates: DateRule)
    returns (problems: seq<AnswerProblem>)
    ensures problems == Problems(answers, questions, dates)
  {
    problems := [];
    for i := 0 to |questions|
      invariant problems == Problems(answers, questions[..i], dates)
    {
      assert questions[..i + 1][..i] == questions[..i];
      var q := questions[i];
      match ValidateAnswer(q, AnswerTo(answers, q.identity), dates) {
        case None =>
        case Some(why) => problems := problems + [AnswerProblem(q.identity, i + 1, why)];
      }
    }
    assert questions[..|questions|] == questions;
  }

  ghost predicate Accepted(answers: map<string, AnswerValue>, questions: seq<Question>, dates: DateRule) {
    forall i :: 0 <= i < |questions| ==> ValidateAnswer(questions[i], AnswerTo(answers, questions[i].identity), dates).None?
  }

  /** A submission has no problems exactly when every question accepts its answer. */
  lemma {:induction false} NoProblemsWhenAccepted(answers: map<string, AnswerValue>, questions: seq<Question>, dates: DateRule)
    ensures Problems(answers, questions, dates) == [] <==> Accepted(answers, questions, dates)
  {
    hide ValidateAnswer;
    if questions != [] {
      var n := |questions| - 1;
      NoProblemsWhenAccepted(answers, questions[..n], dates);
      assert forall i :: 0 <= i < n ==> questions[..n][i] == questions[i];
    }
  }

  // --- what is shown ----------------------------------------------------------

  /** A question in one language of its version: reworded where the version has words for it, its
      options with it only when there is one for each of the creator's. */
  function Shown(q: Question, wording: Option<Wording>): Question {
    match wording
    case None => q
    case Some(w) => q.(text := w.text, options := if |w.options| == |q.options| then w.options else q.options)
  }

  function StoredWording(v: Version, lang: string, identity: string): Option<Wording> {
    if lang != "" && lang in v.questionTranslations && identity in v.questionTranslations[lang]
    then Some(v.questionTranslations[lang][identity]) else None
  }

  method LocalizedQuestions(v: Version, lang: string) returns (questions: seq<Question>)
    ensures |questions| == |v.questions|
    ensures forall i :: 0 <= i < |questions| ==> questions[i] == Shown(v.questions[i], StoredWording(v, lang, v.questions[i].identity))
    ensures AreShownFor(questions, v.questions)
  {
    questions := v.questions;
    if lang == "" || lang !in v.questionTranslations {
      return;
    }
    var rows := v.questionTranslations[lang];
    for i := 0 to |questions|
      invariant |questions| == |v.questions|
      invariant forall j :: 0 <= j < i ==> questions[j] == Shown(v.questions[j], StoredWording(v, lang, v.questions[j].identity))
      invariant forall j :: i <= j < |questions| ==> questions[j] == v.questions[j]
    {
      var q := questions[i];
      if q.identity in rows {
        var row := rows[q.identity];
        questions := questions[i := questions[i].(text := row.text)];
        if |row.options| == |q.options| {
          questions := questions[i := questions[i].(options := row.options)];
        }
      }
    }
  }

  /** s stands for q in some language: other words, as many options. */
  predicate IsShownFor(s: Question, q: Question) {
    s == q.(text := s.text, options := s.options) && |s.options| == |q.options|
  }

  ghost predicate AreShownFor(shown: seq<Question>, original: seq<Question>) {
    |shown| == |original| && forall i :: 0 <= i < |shown| ==> IsShownFor(shown[i], original[i])
  }

  // --- the way back -----------------------------------------------------------

  function FirstAt(options: seq<string>, choice: string): (i: nat)
    requires choice in options
    ensures i < |options| && options[i] == choice
    ensures forall j :: 0 <= j < i ==> options[j] != choice
  {
    if options[0] == choice then 0 else 1 + FirstAt(options[1..], choice)
  }

  function Canonical(shown: Question, options: seq<string>, choice: string): string {
    if IsOther(shown, choice) then choice
    else if |options| != |shown.options| then choice
    else if choice in shown.options then options[FirstAt(shown.options, choice)]
    else choice
  }

  function CanonicalChoices(shown: Question, options: seq<string>, choices: seq<string>): (r: seq<string>)
    ensures |r| == |choices|
  {
    seq(|choices|, i requires 0 <= i < |choices| => Canonical(shown, options, choices[i]))
  }

  function CanonicalValue(shown: Question, options: seq<string>, v: AnswerValue): AnswerValue {
    v.(choice := if v.choice != "" then Canonical(shown, options, v.choice) else "",
       choices := CanonicalChoices(shown, options, v.choices))
  }

  function Written(original: seq<Question>): map<string, seq<string>> {
    if original == [] then map[]
    else
      var n := |original| - 1;
      Written(original[..n])[original[n].identity := original[n].options]
  }

  function OptionsIn(written: map<string, seq<string>>, identity: string): seq<string> {
    if identity in written then written[identity] else []
  }

  function CanonicalAll(answers: map<string, AnswerValue>, shown: seq<Question>, written: map<string, seq<string>>)
    : map<string, AnswerValue>
  {
    if shown == [] then answers
    else
      var n := |shown| - 1;
      var before, q := CanonicalAll(answers, shown[..n], written), shown[n];
      if q.identity in before
      then before[q.identity := CanonicalValue(q, OptionsIn(written, q.identity), before[q.identity])] else before
  }

  /** One answer's choices turned back into the creator's options. */
  method CanonicalAnswer(q: Question, options: seq<string>, answer: AnswerValue) returns (value: AnswerValue)
    ensures value == CanonicalValue(q, options, answer)
  {
    hide Canonical;
    value := answer;
    if value.choice != "" {
      value := value.(choice := Canonical(q, options, value.choice));
    }
    if |value.choices| > 0 {
      var choices := [];
      for i := 0 to |value.choices|
        invariant |choices| == i && choices == CanonicalChoices(q, options, value.choices[..i])
      {
        assert value.choices[..i + 1][..i] == value.choices[..i];
        choices := choices + [Canonical(q, options, value.choices[i])];
      }
      assert value.choices[..|value.choices|] == value.choices;
      value := value.(choices := choices);
    } else {
      assert value.choices == CanonicalChoices(q, options, value.choices);
    }
  }

  method CanonicalAnswers(submitted: map<string, AnswerValue>, shown: seq<Question>, original: seq<Question>)
    returns (answers: map<string, AnswerValue>)
    ensures answers == CanonicalAll(submitted, shown, Written(original))
  {
    var written: map<string, seq<string>> := map[];
    for i := 0 to |original|
      invariant written == Written(original[..i])
    {
      written := written[original[i].identity := original[i].options];
      assert original[..i + 1][..i] == original[..i];
    }
    assert original[..|original|] == original;
    answers := submitted;
    for n := 0 to |shown|
      invariant answers == CanonicalAll(submitted, shown[..n], written)
    {
      assert shown[..n + 1][..n] == shown[..n];
      var q := shown[n];
      if q.identity in answers {
        var value := CanonicalAnswer(q, OptionsIn(written, q.identity), answers[q.identity]);
        answers := answers[q.identity := value];
      }
    }
    assert shown[..|shown|] == shown;
  }

  // --- what the way back keeps ------------------------------------------------

  ghost predicate Distinct(questions: seq<Question>) {
    forall i, j :: 0 <= i < j < |questions| ==> questions[i].identity != questions[j].identity
  }

  /** What a question's own check promises of its options. */
  predicate WellWritten(q: Question) {
    "" !in q.options && (q.allowOther ==> OTHER !in q.options)
  }

  /** A choice comes back as one of the creator's options exactly when it was one of those shown, or was
      the creator's option already. */
  lemma CanonicalIsAnOption(s: Question, q: Question, choice: string)
    requires IsShownFor(s, q) && !IsOther(s, choice)
    ensures Canonical(s, q.options, choice) in q.options <==> choice in s.options || choice in q.options
  {
  }

  /** Picking position i stores the creator's option i exactly when no earlier shown option reads the
      same and the shown option is not read as Other. */
  lemma PositionIsKept(s: Question, q: Question, i: nat)
    requires IsShownFor(s, q) && i < |q.options| && WellWritten(q)
    requires forall j, k :: 0 <= j < k < |q.options| ==> q.options[j] != q.options[k]
    ensures Canonical(s, q.options, s.options[i]) == q.options[i]
       <==> !IsOther(s, s.options[i]) && forall j :: 0 <= j < i ==> s.options[j] != s.options[i]
  {
    assert s.options[i] in s.options && q.options[i] in q.options;
    if !IsOther(s, s.options[i]) {
      var first := FirstAt(s.options, s.options[i]);
      assert first <= i;
    }
  }

  /** The options of s at the positions picked. */
  function Picked(s: Question, positions: seq<nat>): seq<string>
    requires forall k :: 0 <= k < |positions| ==> positions[k] < |s.options|
  {
    seq(|positions|, k requires 0 <= k < |positions| => s.options[positions[k]])
  }

  predicate TellsApart(s: Question) {
    && (s.allowOther ==> OTHER !in s.options)
    && forall j, k :: 0 <= j < k < |s.options| ==> s.options[j] != s.options[k]
  }

  /** The same positions picked in any language that tells its options apart are stored as the creator's
      options at those positions, and what was written beside them is stored as it was written. */
  lemma PicksAreStoredAlike(s: Question, q: Question, positions: seq<nat>, v: AnswerValue)
    requires IsShownFor(s, q) && TellsApart(s) && WellWritten(q)
    requires forall k :: 0 <= k < |positions| ==> positions[k] < |q.options|
    requires v.choices == Picked(s, positions)
    ensures CanonicalValue(s, q.options, v) == v.(choice := CanonicalValue(s, q.options, v).choice, choices := Picked(q, positions))
    ensures positions != [] && v.choice == s.options[positions[0]] && v.choice != ""
            ==> CanonicalValue(s, q.options, v).choice == q.options[positions[0]]
    ensures v.choice == "" || IsOther(s, v.choice) ==> CanonicalValue(s, q.options, v).choice == v.choice
  {
    forall k | 0 <= k < |positions|
      ensures Canonical(s, q.options, s.options[positions[k]]) == q.options[positions[k]]
    {
      assert s.options[positions[k]] in s.options;
    }
    assert CanonicalChoices(s, q.options, v.choices) == Picked(q, positions);
  }

  /** The way back keeps an answer empty or not. */
  lemma StaysEmptyOrNot(s: Question, q: Question, v: AnswerValue)
    requires IsShownFor(s, q) && WellWritten(q)
    ensures CanonicalValue(s, q.options, v).IsEmpty() == v.IsEmpty()
  {
    if v.choice in s.options {
      assert q.options[FirstAt(s.options, v.choice)] in q.options;
    }
    if v.choices == [] {
      assert CanonicalChoices(s, q.options, v.choices) == [];
    }
  }

  /** A picked option or Other comes back as an option or as Other, and the same of the two. */
  lemma OtherStaysOther(s: Question, q: Question, choice: string)
    requires IsShownFor(s, q) && WellWritten(q)
    ensures var c := Canonical(s, q.options, choice);
            (IsOther(s, choice) <==> IsOther(q, c)) || (IsOther(q, c) && choice !in s.options)
    ensures IsOther(s, choice) || choice in s.options
            ==> var c := Canonical(s, q.options, choice); (IsOther(s, choice) <==> IsOther(q, c)) && (IsOther(q, c) || c in q.options)
  {
    if choice in s.options {
      assert q.options[FirstAt(s.options, choice)] in q.options;
    }
  }

  lemma ChoicesStayChoices(s: Question, q: Question, v: AnswerValue)
    requires IsShownFor(s, q) && WellWritten(q)
    requires forall c <- v.choices :: IsOther(s, c) || c in s.options
    ensures var r := CanonicalValue(s, q.options, v);
            && (forall c <- r.choices :: IsOther(q, c) || c in q.options)
            && ((exists c <- r.choices :: IsOther(q, c)) <==> (exists c <- v.choices :: IsOther(s, c)))
  {
    var r := CanonicalValue(s, q.options, v);
    forall i | 0 <= i < |v.choices|
      ensures IsOther(q, r.choices[i]) || r.choices[i] in q.options
      ensures IsOther(q, r.choices[i]) <==> IsOther(s, v.choices[i])
    {
      assert v.choices[i] in v.choices;
      OtherStaysOther(s, q, v.choices[i]);
    }
    if c :| c in v.choices && IsOther(s, c) {
      var i :| 0 <= i < |v.choices| && v.choices[i] == c;
      assert r.choices[i] in r.choices;
    }
    if c :| c in r.choices && IsOther(q, c) {
      var i :| 0 <= i < |r.choices| && r.choices[i] == c;
      assert v.choices[i] in v.choices;
    }
  }

  /** The one answer the way back does not carry over: one that says something and names no choice,
      which passes only where an option was translated as nothing. */
  predicate NamesItsChoice(q: Question, v: AnswerValue) {
    q.kind.SingleChoice? || q.kind.Dropdown? ==> v.choice != "" || v.IsEmpty()
  }

  /** An answer valid as shown is valid as the creator wrote the question exactly when it names its
      choice, if it is one choice that is asked for. */
  lemma ValidStaysValid(s: Question, q: Question, v: AnswerValue, dates: DateRule)
    requires IsShownFor(s, q) && WellWritten(q)
    requires ValidateAnswer(s, v, dates).None?
    ensures ValidateAnswer(q, CanonicalValue(s, q.options, v), dates).None? <==> NamesItsChoice(q, v)
  {
    StaysEmptyOrNot(s, q, v);
    OtherStaysOther(s, q, v.choice);
    if q.kind.MultipleChoice? && !v.IsEmpty() {
      ChoicesStayChoices(s, q, v);
    }
  }

  // --- whole submissions ------------------------------------------------------

  lemma {:induction false} WrittenAt(original: seq<Question>, i: nat)
    requires Distinct(original) && i < |original|
    ensures original[i].identity in Written(original) && Written(original)[original[i].identity] == original[i].options
  {
    var n := |original| - 1;
    if i < n {
      WrittenAt(original[..n], i);
    }
  }

  lemma {:induction false} CanonicalAllAt(answers: map<string, AnswerValue>, shown: seq<Question>,
                                          written: map<string, seq<string>>, id: string)
    requires Distinct(shown)
    ensures id in CanonicalAll(answers, shown, written) <==> id in answers
    ensures id in answers && (forall i :: 0 <= i < |shown| ==> shown[i].identity != id)
            ==> CanonicalAll(answers, shown, written)[id] == answers[id]
    ensures forall i :: 0 <= i < |shown| && shown[i].identity == id && id in answers ==>
              CanonicalAll(answers, shown, written)[id] == CanonicalValue(shown[i], OptionsIn(written, id), answers[id])
  {
    if shown != [] {
      var n := |shown| - 1;
      CanonicalAllAt(answers, shown[..n], written, id);
      assert forall i :: 0 <= i < n ==> shown[..n][i] == shown[i];
    }
  }

  /** Each question is answered as the way back has it, an unanswered one stays unanswered, and answers
      to questions that are not asked are left alone. */
  lemma EachAnswerGoesItsOwnWay(submitted: map<string, AnswerValue>, shown: seq<Question>, original: seq<Question>, i: nat)
    requires AreShownFor(shown, original) && Distinct(original) && i < |original|
    ensures var id := original[i].identity;
            AnswerTo(CanonicalAll(submitted, shown, Written(original)), id)
            == CanonicalValue(shown[i], original[i].options, AnswerTo(submitted, id))
  {
    var id := original[i].identity;
    assert Distinct(shown) by {
      forall j, k | 0 <= j < k < |shown| ensures shown[j].identity != shown[k].identity {
        assert IsShownFor(shown[j], original[j]) && IsShownFor(shown[k], original[k]);
      }
    }
    assert IsShownFor(shown[i], original[i]);
    WrittenAt(original, i);
    CanonicalAllAt(submitted, shown, Written(original), id);
    assert CanonicalChoices(shown[i], original[i].options, []) == [];
  }

  /** A submission accepted against the questions as they were shown is accepted against the creator's
      exactly when every question that asks for one choice was answered by naming it, or not at all. */
  lemma AcceptedStaysAccepted(submitted: map<string, AnswerValue>, shown: seq<Question>, original: seq<Question>, dates: DateRule)
    requires AreShownFor(shown, original) && Distinct(original)
    requires forall i :: 0 <= i < |original| ==> WellWritten(original[i])
    requires Accepted(submitted, shown, dates)
    ensures Accepted(CanonicalAll(submitted, shown, Written(original)), original, dates)
       <==> forall i :: 0 <= i < |original| ==> NamesItsChoice(original[i], AnswerTo(submitted, original[i].identity))
  {
    var stored := CanonicalAll(submitted, shown, Written(original));
    forall i | 0 <= i < |original|
      ensures ValidateAnswer(original[i], AnswerTo(stored, original[i].identity), dates).None?
         <==> NamesItsChoice(original[i], AnswerTo(submitted, original[i].identity))
    {
      assert IsShownFor(shown[i], original[i]);
      EachAnswerGoesItsOwnWay(submitted, shown, original, i);
      ValidStaysValid(shown[i], original[i], AnswerTo(submitted, original[i].identity), dates);
    }
  }

  /** The gate compares a translation with the question's text and not with its options: new options put
      to a question under its old text leave every language as ready as it was, and its translated
      options, where as many, are shown for the new ones. */
  lemma NewOptionsKeepTheOldTranslation(d: Draft, identity: string, options: seq<string>, rule: QuestionRule)
    requires d.Knows(identity) && rule(d.questions[d.IndexOf(identity)].(options := options))
    ensures var r := d.Replace(identity, d.questions[d.IndexOf(identity)].(options := options), rule);
            && r.Ok? && r.value.localizations == d.localizations
            && forall lang :: r.value.Pending(lang) == [] <==> d.Pending(lang) == []
  {
    var e := d.Replace(identity, d.questions[d.IndexOf(identity)].(options := options), rule).value;
    forall lang ensures e.Pending(lang) == [] <==> d.Pending(lang) == [] {
      SameWordsArePendingAlike(d, e, lang);
      SameWordsArePendingAlike(e, d, lang);
    }
  }

  lemma SameWordsArePendingAlike(d: Draft, e: Draft, lang: string)
    requires d.localizations == e.localizations && |d.questions| == |e.questions|
    requires forall i :: 0 <= i < |d.questions| ==>
               d.questions[i].identity == e.questions[i].identity && d.questions[i].text == e.questions[i].text
    ensures e.Pending(lang) != [] ==> d.Pending(lang) != []
  {
    if e.Pending(lang) != [] {
      var q := e.Pending(lang)[0];
      assert q in e.Pending(lang);
      var i :| 0 <= i < |e.questions| && e.questions[i] == q;
      assert d.QuestionPending(lang, d.questions[i]);
      assert d.questions[i] in d.Pending(lang);
    }
  }
}
