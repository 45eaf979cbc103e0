/** A survey's answers gathered by question across every version it has had, and how often each choice of
    a question was made. */
module Results {
  import opened Wrappers
  import opened Text
  import opened Questions
  import opened Answers

  /** One version's row of a question; the rows come version by version. */
  datatype QuestionRow = QuestionRow(identity: string, version: int, kind: QuestionType, text: string, options: seq<string>,
                                     required: bool, allowOther: bool, scaleMin: Option<int>, scaleMax: Option<int>)

  datatype AnswerRow = AnswerRow(id: nat, response: nat, identity: string, version: int, value: AnswerValue)

  datatype VersionWording = VersionWording(version: int, text: string)

  datatype QuestionResults =
    QuestionResults(identity: string, kind: QuestionType, text: string, wordings: seq<VersionWording>, options: seq<string>,
                    required: bool, allowOther: bool, scaleMin: int, scaleMax: int, firstVersion: int, lastVersion: int,
                    answers: seq<AnswerRow>)

  // --- what the results of a question are --------------------------------------

  function RowsOf(rows: seq<QuestionRow>, identity: string): seq<QuestionRow> {
    if rows == [] then []
    else
      var n := |rows| - 1;
      RowsOf(rows[..n], identity) + if rows[n].identity == identity then [rows[n]] else []
  }

  /** Each wording with the version it came in, a row that reads as the one before it left out. */
  function WordingsOf(rows: seq<QuestionRow>): seq<VersionWording> {
    if rows == [] then []
    else
      var n := |rows| - 1;
      WordingsOf(rows[..n]) + if n == 0 || rows[n - 1].text != rows[n].text then [VersionWording(rows[n].version, rows[n].text)] else []
  }

  /** The last bound any of the rows has, or none. */
  function LastBound(bounds: seq<Option<int>>): int {
    if bounds == [] then 0
    else
      match bounds[|bounds| - 1]
      case Some(b) => b
      case None => LastBound(bounds[..|bounds| - 1])
  }

  function MinBounds(rows: seq<QuestionRow>): (b: seq<Option<int>>)
    ensures |b| == |rows|
  {
    seq(|rows|, i requires 0 <= i < |rows| => rows[i].scaleMin)
  }

  function MaxBounds(rows: seq<QuestionRow>): (b: seq<Option<int>>)
    ensures |b| == |rows|
  {
    seq(|rows|, i requires 0 <= i < |rows| => rows[i].scaleMax)
  }

  /** The question some rows describe: shaped as the last has it, its life spanning all of them. */
  function Folded(rows: seq<QuestionRow>): QuestionResults
    requires rows != []
  {
    var last := rows[|rows| - 1];
    QuestionResults(rows[0].identity, last.kind, last.text, WordingsOf(rows), last.options, last.required, last.allowOther,
                    LastBound(MinBounds(rows)), LastBound(MaxBounds(rows)), rows[0].version, last.version, [])
  }

  /** The identities of some rows, each where it first comes. */
  function FirstSeen(rows: seq<QuestionRow>): seq<string> {
    if rows == [] then []
    else
      var n := |rows| - 1;
      var before := FirstSeen(rows[..n]);
      if rows[n].identity in before then before else before + [rows[n].identity]
  }

  function AnswersOf(answers: seq<AnswerRow>, identity: string): seq<AnswerRow> {
    if answers == [] then []
    else
      var n := |answers| - 1;
      AnswersOf(answers[..n], identity) + if answers[n].identity == identity then [answers[n]] else []
  }

  /** What one response answered, by question. */
  function GivenIn(answers: seq<AnswerRow>, response: nat): map<string, AnswerValue> {
    if answers == [] then map[]
    else
      var n := |answers| - 1;
      var before := GivenIn(answers[..n], response);
      if answers[n].response == response then before[answers[n].identity := answers[n].value] else before
  }

  // --- the fold ---------------------------------------------------------------

  /** A question nothing is known of yet but its identity and its first version. */
  function Blank(identity: string, version: int): QuestionResults {
    QuestionResults(identity, LongText, "", [], [], false, false, 0, 0, version, 0, [])
  }

  function Reworded(wordings: seq<VersionWording>, row: QuestionRow): seq<VersionWording> {
    if wordings != [] && wordings[|wordings| - 1].text == row.text then wordings
    else wordings + [VersionWording(row.version, row.text)]
  }

  /** A question with one more version's row taken in. */
  function Taken(q: QuestionResults, row: QuestionRow): QuestionResults {
    q.(kind := row.kind, text := row.text, options := row.options, required := row.required, allowOther := row.allowOther,
       lastVersion := row.version,
       scaleMin := if row.scaleMin.Some? then row.scaleMin.value else q.scaleMin,
       scaleMax := if row.scaleMax.Some? then row.scaleMax.value else q.scaleMax,
       wordings := Reworded(q.wordings, row))
  }

  lemma TheFirstRow(row: QuestionRow)
    ensures Taken(Blank(row.identity, row.version), row) == Folded([row])
  {
    assert MinBounds([row])[..0] == [] && MaxBounds([row])[..0] == [] && [row][..0] == [];
    assert WordingsOf([row]) == [] + [VersionWording(row.version, row.text)];
    assert LastBound(MinBounds([row])) == if row.scaleMin.Some? then row.scaleMin.value else 0;
    assert LastBound(MaxBounds([row])) == if row.scaleMax.Some? then row.scaleMax.value else 0;
  }

  /** Taking rows in one by one gives what all of them describe. */
  lemma OneMoreRow(before: seq<QuestionRow>, row: QuestionRow)
    requires before != []
    ensures Taken(Folded(before), row) == Folded(before + [row])
  {
    var after, n := before + [row], |before|;
    assert after[..n] == before && after[n] == row && after[n - 1] == before[n - 1] && after[0] == before[0];
    LastWordingIsTheLastText(before);
    assert MinBounds(after)[..n] == MinBounds(before) && MinBounds(after)[n] == row.scaleMin;
    assert MaxBounds(after)[..n] == MaxBounds(before) && MaxBounds(after)[n] == row.scaleMax;
    assert WordingsOf(after) == WordingsOf(before)
             + if before[n - 1].text != row.text then [VersionWording(row.version, row.text)] else [];
  }

  class Entry {
    const identity: string
    const firstVersion: int
    var kind: QuestionType
    var text: string
    var wordings: seq<VersionWording>
    var options: seq<string>
    var required: bool
    var allowOther: bool
    var scaleMin: int
    var scaleMax: int
    var lastVersion: int
    var answers: seq<AnswerRow>

    constructor (identity: string, version: int)
      ensures View() == Blank(identity, version)
    {
      this.identity := identity;
      firstVersion := version;
      kind, text, wordings, options, required, allowOther := LongText, "", [], [], false, false;
      scaleMin, scaleMax, lastVersion, answers := 0, 0, 0, [];
    }

    function View(): QuestionResults
      reads this
    {
      QuestionResults(identity, kind, text, wordings, options, required, allowOther, scaleMin, scaleMax, firstVersion,
                      lastVersion, answers)
    }

    /** A later version's row wins for the shape, and its wording is kept beside the earlier ones. */
    method Take(row: QuestionRow)
      modifies this
      ensures View() == Taken(old(View()), row)
    {
      kind, text, options, required, allowOther, lastVersion :=
        row.kind, row.text, row.options, row.required, row.allowOther, row.version;
      TakeBounds(row);
      TakeWording(row);
    }

    /** Bounds a row does not have stay as they were. */
    method TakeBounds(row: QuestionRow)
      modifies `scaleMin, `scaleMax
      ensures scaleMin == if row.scaleMin.Some? then row.scaleMin.value else old(scaleMin)
      ensures scaleMax == if row.scaleMax.Some? then row.scaleMax.value else old(scaleMax)
    {
      if row.scaleMin.Some? {
        scaleMin := row.scaleMin.value;
      }
      if row.scaleMax.Some? {
        scaleMax := row.scaleMax.value;
      }
    }

    /** A wording is kept unless it repeats the last. */
    method TakeWording(row: QuestionRow)
      modifies `wordings
      ensures wordings == Reworded(old(wordings), row)
    {
      if wordings == [] || wordings[|wordings| - 1].text != row.text {
        wordings := wordings + [VersionWording(row.version, row.text)];
      }
    }

    method Answered(a: AnswerRow)
      modifies this
      ensures View() == old(View()).(answers := old(answers) + [a])
    {
      answers := answers + [a];
    }
  }

  lemma {:induction false} LastWordingIsTheLastText(rows: seq<QuestionRow>)
    ensures WordingsOf(rows) == [] <==> rows == []
    ensures rows != [] ==> WordingsOf(rows)[|WordingsOf(rows)| - 1].text == rows[|rows| - 1].text
  {
    if rows != [] {
      LastWordingIsTheLastText(rows[..|rows| - 1]);
    }
  }

  /** No wording is listed twice running. */
  lemma {:induction false} NoWordingTwiceRunning(rows: seq<QuestionRow>, k: nat)
    requires 0 < k < |WordingsOf(rows)|
    ensures WordingsOf(rows)[k - 1].text != WordingsOf(rows)[k].text
  {
    var before := rows[..|rows| - 1];
    LastWordingIsTheLastText(before);
    if k < |WordingsOf(before)| {
      NoWordingTwiceRunning(before, k);
    }
  }

  /** No wording is lost, and none is made up. */
  lemma {:induction false} WordingsAreTheTexts(rows: seq<QuestionRow>, text: string)
    ensures (exists k :: 0 <= k < |WordingsOf(rows)| && WordingsOf(rows)[k].text == text)
       <==> (exists i :: 0 <= i < |rows| && rows[i].text == text)
  {
    if rows != [] {
      var n := |rows| - 1;
      var before, after := WordingsOf(rows[..n]), WordingsOf(rows);
      WordingsAreTheTexts(rows[..n], text);
      LastWordingIsTheLastText(rows);
      assert before <= after;
      if k :| 0 <= k < |before| && before[k].text == text {
        assert after[k].text == text;
        var i :| 0 <= i < n && rows[..n][i].text == text;
        assert rows[i].text == text;
      } else if rows[n].text == text {
        assert after[|after| - 1].text == text;
      }
    }
  }

  lemma {:induction false} RowsOfSeen(rows: seq<QuestionRow>, identity: string)
    ensures identity in FirstSeen(rows) <==> RowsOf(rows, identity) != []
    ensures forall k :: 0 <= k < |RowsOf(rows, identity)| ==> RowsOf(rows, identity)[k].identity == identity
  {
    if rows != [] {
      RowsOfSeen(rows[..|rows| - 1], identity);
    }
  }

  /** The questions known, with one more row taken into its own. */
  function Knowing(known: map<string, QuestionResults>, row: QuestionRow): map<string, QuestionResults> {
    known[row.identity := Taken(if row.identity in known then known[row.identity] else Blank(row.identity, row.version), row)]
  }

  /** The questions known after some rows, each shaped by its own. */
  function Gather(rows: seq<QuestionRow>): map<string, QuestionResults> {
    if rows == [] then map[]
    else
      var n := |rows| - 1;
      Knowing(Gather(rows[..n]), rows[n])
  }

  /** The same with some answers given to them. */
  function Land(known: map<string, QuestionResults>, answers: seq<AnswerRow>): map<string, QuestionResults> {
    if answers == [] then known
    else
      var n := |answers| - 1;
      var before, a := Land(known, answers[..n]), answers[n];
      if a.identity in before then before[a.identity := before[a.identity].(answers := before[a.identity].answers + [a])] else before
  }

  lemma {:induction false} GatherIs(rows: seq<QuestionRow>, id: string)
    ensures id in Gather(rows) <==> RowsOf(rows, id) != []
    ensures id in Gather(rows) ==> Gather(rows)[id] == Folded(RowsOf(rows, id))
  {
    if rows != [] {
      var n := |rows| - 1;
      var before, row := RowsOf(rows[..n], id), rows[n];
      GatherIs(rows[..n], id);
      if row.identity != id {
        assert RowsOf(rows, id) == before;
      } else if before == [] {
        TheFirstRow(row);
        assert RowsOf(rows, id) == [row];
      } else {
        OneMoreRow(before, row);
        assert RowsOf(rows, id) == before + [row];
      }
    }
  }

  lemma {:induction false} LandIs(known: map<string, QuestionResults>, answers: seq<AnswerRow>, id: string)
    requires id in known ==> known[id].answers == []
    ensures id in Land(known, answers) <==> id in known
    ensures id in known ==> Land(known, answers)[id] == known[id].(answers := AnswersOf(answers, id))
  {
    if answers != [] {
      LandIs(known, answers[..|answers| - 1], id);
    }
  }

  /** The entries hold these questions, each under its own identity. */
  ghost predicate Holds(byIdentity: map<string, Entry>, known: map<string, QuestionResults>)
    reads byIdentity.Values
  {
    && byIdentity.Keys == known.Keys
    && forall id <- known :: known[id].identity == id && byIdentity[id].View() == known[id]
  }

  method TakeRow(byIdentity: map<string, Entry>, row: QuestionRow, ghost known: map<string, QuestionResults>)
    returns (entries: map<string, Entry>)
    requires Holds(byIdentity, known)
    modifies byIdentity.Values
    ensures Holds(entries, Knowing(known, row))
    ensures forall e <- entries.Values :: e in byIdentity.Values || fresh(e)
  {
    entries := byIdentity;
    if row.identity !in byIdentity {
      var entry := new Entry(row.identity, row.version);
      entries := byIdentity[row.identity := entry];
      assert Holds(entries, known[row.identity := Blank(row.identity, row.version)]);
    }
    entries[row.identity].Take(row);
  }

  /** Every version's questions, gathered by identity. */
  method FoldQuestions(rows: seq<QuestionRow>) returns (byIdentity: map<string, Entry>, order: seq<string>)
    ensures order == FirstSeen(rows) && forall id :: id in byIdentity <==> id in order
    ensures fresh(byIdentity.Values) && Holds(byIdentity, Gather(rows))
  {
    byIdentity, order := map[], [];
    for i := 0 to |rows|
      invariant order == FirstSeen(rows[..i]) && forall id :: id in byIdentity <==> id in order
      invariant fresh(byIdentity.Values) && Holds(byIdentity, Gather(rows[..i]))
    {
      var row := rows[i];
      assert rows[..i + 1][..i] == rows[..i];
      if row.identity !in byIdentity {
        order := order + [row.identity];
      }
      byIdentity := TakeRow(byIdentity, row, Gather(rows[..i]));
    }
    assert rows[..|rows|] == rows;
  }

  datatype ResponseRow = ResponseRow(id: nat, answers: map<string, AnswerValue>)

  method LandOn(byIdentity: map<string, Entry>, a: AnswerRow, ghost known: map<string, QuestionResults>)
    requires Holds(byIdentity, known)
    modifies byIdentity.Values
    ensures Holds(byIdentity, if a.identity in known
                              then known[a.identity := known[a.identity].(answers := known[a.identity].answers + [a])] else known)
  {
    if a.identity in byIdentity {
      byIdentity[a.identity].Answered(a);
    }
  }

  method Gathered(byIdentity: map<string, Entry>, order: seq<string>, ghost known: map<string, QuestionResults>)
    returns (questions: seq<QuestionResults>)
    requires Holds(byIdentity, known) && forall id <- order :: id in byIdentity
    ensures |questions| == |order|
    ensures forall i :: 0 <= i < |order| ==> order[i] in known && questions[i] == known[order[i]]
  {
    questions := [];
    for i := 0 to |order|
      invariant |questions| == i
      invariant forall j :: 0 <= j < i ==> order[j] in known && questions[j] == known[order[j]]
    {
      assert order[i] in order;
      questions := questions + [byIdentity[order[i]].View()];
    }
  }

  function Given(given: map<nat, map<string, AnswerValue>>, response: nat): map<string, AnswerValue> {
    if response in given then given[response] else map[]
  }

  /** Every answer given to its question, and noted under its response. */
  method GiveAnswers(byIdentity: map<string, Entry>, answerRows: seq<AnswerRow>, ghost known: map<string, QuestionResults>)
    returns (given: map<nat, map<string, AnswerValue>>)
    requires Holds(byIdentity, known)
    modifies byIdentity.Values
    ensures Holds(byIdentity, Land(known, answerRows))
    ensures forall r :: Given(given, r) == GivenIn(answerRows, r)
  {
    given := map[];
    for i := 0 to |answerRows|
      invariant Holds(byIdentity, Land(known, answerRows[..i]))
      invariant forall r :: Given(given, r) == GivenIn(answerRows[..i], r)
    {
      var a := answerRows[i];
      assert answerRows[..i + 1][..i] == answerRows[..i];
      LandOn(byIdentity, a, Land(known, answerRows[..i]));
      given := given[a.response := Given(given, a.response)[a.identity := a.value]];
    }
    assert answerRows[..|answerRows|] == answerRows;
  }

  method ResponseRows(responses: seq<nat>, given: map<nat, map<string, AnswerValue>>) returns (rows: seq<ResponseRow>)
    ensures |rows| == |responses|
    ensures forall i :: 0 <= i < |rows| ==> rows[i] == ResponseRow(responses[i], Given(given, responses[i]))
  {
    rows := [];
    for i := 0 to |responses|
      invariant |rows| == i
      invariant forall j :: 0 <= j < i ==> rows[j] == ResponseRow(responses[j], Given(given, responses[j]))
    {
      rows := rows + [ResponseRow(responses[i], Given(given, responses[i]))];
    }
  }

  lemma SeenAreKnown(rows: seq<QuestionRow>)
    ensures forall id :: id in FirstSeen(rows) <==> id in Gather(rows)
  {
    hide FirstSeen, Gather, RowsOf;
    forall id ensures id in FirstSeen(rows) <==> id in Gather(rows) {
      RowsOfSeen(rows, id);
      GatherIs(rows, id);
    }
  }

  /** A survey's results: its questions in the order they first came, each with its answers in the order
      they were given, and each response with what it answered. */
  method SurveyResults(questionRows: seq<QuestionRow>, answerRows: seq<AnswerRow>, responses: seq<nat>)
    returns (questions: seq<QuestionResults>, rows: seq<ResponseRow>)
    ensures |questions| == |FirstSeen(questionRows)|
    ensures forall i :: 0 <= i < |questions| ==>
              && RowsOf(questionRows, FirstSeen(questionRows)[i]) != []
              && questions[i] == ResultsOf(questionRows, answerRows, FirstSeen(questionRows)[i])
    ensures |rows| == |responses|
    ensures forall i :: 0 <= i < |rows| ==> rows[i] == ResponseRow(responses[i], GivenIn(answerRows, responses[i]))
  {
    hide FirstSeen, Gather, Land, RowsOf, GivenIn, ResultsOf, Given, Holds;
    var byIdentity, order := FoldQuestions(questionRows);
    SeenAreKnown(questionRows);
    var given := GiveAnswers(byIdentity, answerRows, Gather(questionRows));
    questions := Gathered(byIdentity, order, Land(Gather(questionRows), answerRows));
    rows := ResponseRows(responses, given);
    forall i | 0 <= i < |questions|
      ensures RowsOf(questionRows, order[i]) != [] && questions[i] == ResultsOf(questionRows, answerRows, order[i])
    {
      EachQuestionsResults(questionRows, answerRows, order[i]);
    }
  }

  /** The results of one question: shaped by its own rows, with its own answers. */
  function ResultsOf(rows: seq<QuestionRow>, answers: seq<AnswerRow>, id: string): QuestionResults
    requires RowsOf(rows, id) != []
  {
    Folded(RowsOf(rows, id)).(answers := AnswersOf(answers, id))
  }

  lemma EachQuestionsResults(rows: seq<QuestionRow>, answers: seq<AnswerRow>, id: string)
    requires id in FirstSeen(rows)
    ensures RowsOf(rows, id) != []
    ensures id in Land(Gather(rows), answers)
    ensures Land(Gather(rows), answers)[id] == ResultsOf(rows, answers, id)
  {
    RowsOfSeen(rows, id);
    GatherIs(rows, id);
    LandIs(Gather(rows), answers, id);
  }

  // --- what the fold keeps ----------------------------------------------------

  /** Every identity the rows have comes once, before those that first come later. */
  lemma {:induction false} SeenInOrder(rows: seq<QuestionRow>)
    ensures forall id :: id in FirstSeen(rows) <==> exists r <- rows :: r.identity == id
    ensures forall i, j :: 0 <= i < j < |FirstSeen(rows)| ==>
              && FirstSeen(rows)[i] != FirstSeen(rows)[j]
              && exists r :: 0 <= r < |rows| && rows[r].identity == FirstSeen(rows)[i] && FirstSeen(rows)[j] !in FirstSeen(rows[..r])
  {
    if rows != [] {
      var n := |rows| - 1;
      var before, seen := rows[..n], FirstSeen(rows);
      SeenInOrder(before);
      assert rows == before + [rows[n]];
      assert rows[n] in rows;
      forall id ensures id in seen <==> exists r <- rows :: r.identity == id {
        if id in FirstSeen(before) {
          var r :| r in before && r.identity == id;
          assert r in rows;
        }
      }
      forall i, j | 0 <= i < j < |seen|
        ensures seen[i] != seen[j]
        ensures exists r :: 0 <= r < |rows| && rows[r].identity == seen[i] && seen[j] !in FirstSeen(rows[..r])
      {
        if j < |FirstSeen(before)| {
          var r :| 0 <= r < |before| && before[r].identity == seen[i] && seen[j] !in FirstSeen(before[..r]);
          assert before[..r] == rows[..r] && rows[r] == before[r];
        } else {
          assert seen[i] in FirstSeen(before) && seen[j] !in FirstSeen(before);
          var row :| row in before && row.identity == seen[i];
          var r :| 0 <= r < |before| && before[r] == row;
          SeenGrows(before, r);
          assert before[..r] == rows[..r] && rows[r] == before[r];
        }
      }
    }
  }

  lemma {:induction false} SeenGrows(rows: seq<QuestionRow>, n: nat)
    requires n <= |rows|
    ensures forall id <- FirstSeen(rows[..n]) :: id in FirstSeen(rows)
    decreases |rows|
  {
    if n < |rows| {
      SeenGrows(rows[..|rows| - 1], n);
      assert rows[..|rows| - 1][..n] == rows[..n];
    } else {
      assert rows[..n] == rows;
    }
  }

  /** How many answers some questions have together. */
  function Landed(ids: seq<string>, answers: seq<AnswerRow>): nat {
    if ids == [] then 0 else Landed(ids[..|ids| - 1], answers) + |AnswersOf(answers, ids[|ids| - 1])|
  }

  lemma AnswersOfOneMore(answers: seq<AnswerRow>, id: string)
    requires answers != []
    ensures var n := |answers| - 1;
            |AnswersOf(answers, id)| == |AnswersOf(answers[..n], id)| + if answers[n].identity == id then 1 else 0
  {
  }

  lemma InOneMore(ids: seq<string>, id: string)
    requires ids != []
    ensures id in ids <==> id in ids[..|ids| - 1] || id == ids[|ids| - 1]
  {
    assert ids == ids[..|ids| - 1] + [ids[|ids| - 1]];
  }

  lemma {:induction false} OneMoreLands(ids: seq<string>, answers: seq<AnswerRow>)
    requires answers != []
    requires forall i, j :: 0 <= i < j < |ids| ==> ids[i] != ids[j]
    ensures var n := |answers| - 1;
            Landed(ids, answers) == Landed(ids, answers[..n]) + if answers[n].identity in ids then 1 else 0
    decreases |ids|
  {
    hide AnswersOf;
    if ids != [] {
      var init, last := ids[..|ids| - 1], ids[|ids| - 1];
      OneMoreLands(init, answers);
      AnswersOfOneMore(answers, last);
      InOneMore(ids, answers[|answers| - 1].identity);
      assert last !in init;
    }
  }

  lemma {:induction false} AllLand(ids: seq<string>, answers: seq<AnswerRow>)
    requires forall i, j :: 0 <= i < j < |ids| ==> ids[i] != ids[j]
    ensures Landed(ids, answers) <= |answers|
    ensures Landed(ids, answers) == |answers| <==> forall a <- answers :: a.identity in ids
  {
    if answers == [] {
      NoneLand(ids);
    } else {
      var n := |answers| - 1;
      OneMoreLands(ids, answers);
      AllLand(ids, answers[..n]);
      assert answers == answers[..n] + [answers[n]];
    }
  }

  lemma {:induction false} NoneLand(ids: seq<string>)
    ensures Landed(ids, []) == 0
  {
    if ids != [] {
      NoneLand(ids[..|ids| - 1]);
    }
  }

  /** Answers are conserved: together the questions hold every answer once, exactly when every answer is to
      a question some version asked. */
  lemma AnswersAreConserved(questionRows: seq<QuestionRow>, answerRows: seq<AnswerRow>)
    ensures Landed(FirstSeen(questionRows), answerRows) == |answerRows|
       <==> forall a <- answerRows :: exists r <- questionRows :: r.identity == a.identity
  {
    SeenInOrder(questionRows);
    AllLand(FirstSeen(questionRows), answerRows);
  }

  /** Each answer is held by the question it is to and by no other, in the order given. */
  lemma {:induction false} AnswerLandsWithItsQuestion(answers: seq<AnswerRow>, id: string)
    ensures forall a :: a in AnswersOf(answers, id) <==> a in answers && a.identity == id
    ensures multiset(AnswersOf(answers, id)) <= multiset(answers)
  {
    if answers != [] {
      var n := |answers| - 1;
      AnswerLandsWithItsQuestion(answers[..n], id);
      assert answers == answers[..n] + [answers[n]];
    }
  }

  // --- how often each choice was made -----------------------------------------

  /** The key Other is counted under: no option can hold a NUL. */
  const OTHER_BAR := "\0other"

  function Key(value: AnswerValue, choice: string): string {
    if choice == OTHER && value.other != "" then OTHER_BAR else choice
  }

  function KeysOf(value: AnswerValue): (keys: seq<string>)
    ensures |keys| == if value.choice != "" then 1 else |value.choices|
  {
    if value.choice != "" then [Key(value, value.choice)]
    else seq(|value.choices|, i requires 0 <= i < |value.choices| => Key(value, value.choices[i]))
  }

  /** Every pick made, in order. */
  function Picks(answers: seq<AnswerRow>): seq<string> {
    if answers == [] then []
    else
      var n := |answers| - 1;
      Picks(answers[..n]) + KeysOf(answers[n].value)
  }

  /** How many answers picked anything. */
  function Pickers(answers: seq<AnswerRow>): nat {
    if answers == [] then 0
    else
      var n := |answers| - 1;
      Pickers(answers[..n]) + if KeysOf(answers[n].value) != [] then 1 else 0
  }

  datatype Bar = Bar(choice: string, count: nat)

  function SumOf(bars: seq<Bar>): nat {
    if bars == [] then 0 else SumOf(bars[..|bars| - 1]) + bars[|bars| - 1].count
  }

  function CountOf(counts: map<string, nat>, key: string): nat {
    if key in counts then counts[key] else 0
  }

  ghost predicate Counts(counts: map<string, nat>, picks: seq<string>) {
    && (forall k <- counts :: counts[k] > 0)
    && (forall k :: CountOf(counts, k) == multiset(picks)[k])
  }

  lemma OneMorePick(counts: map<string, nat>, picks: seq<string>, key: string)
    requires Counts(counts, picks)
    ensures Counts(counts[key := CountOf(counts, key) + 1], picks + [key])
  {
    var after := counts[key := CountOf(counts, key) + 1];
    forall k ensures CountOf(after, k) == multiset(picks + [key])[k] {
      assert CountOf(counts, k) == multiset(picks)[k];
    }
  }

  method CountKeys(before: map<string, nat>, keys: seq<string>, ghost picks: seq<string>) returns (counts: map<string, nat>)
    requires Counts(before, picks)
    ensures Counts(counts, picks + keys)
  {
    counts := before;
    assert picks + keys[..0] == picks;
    for k := 0 to |keys|
      invariant Counts(counts, picks + keys[..k])
    {
      OneMorePick(counts, picks + keys[..k], keys[k]);
      assert picks + keys[..k + 1] == (picks + keys[..k]) + [keys[k]];
      counts := counts[keys[k] := CountOf(counts, keys[k]) + 1];
    }
    assert keys[..|keys|] == keys;
  }

  method CountPicks(answers: seq<AnswerRow>) returns (counts: map<string, nat>, total: nat)
    ensures Counts(counts, Picks(answers)) && total == Pickers(answers)
  {
    counts, total := map[], 0;
    assert Counts(counts, []);
    for i := 0 to |answers|
      invariant Counts(counts, Picks(answers[..i])) && total == Pickers(answers[..i])
    {
      assert answers[..i + 1][..i] == answers[..i];
      var value := answers[i].value;
      counts := CountKeys(counts, KeysOf(value), Picks(answers[..i]));
      if value.choice != "" || |value.choices| > 0 {
        total := total + 1;
      }
    }
    assert answers[..|answers|] == answers;
  }

  lemma CountedWhenPicked(counts: map<string, nat>, picks: seq<string>, c: string)
    requires Counts(counts, picks)
    ensures c in counts <==> c in picks
    ensures CountOf(counts, c) > 0 <==> c in picks
  {
    assert CountOf(counts, c) == multiset(picks)[c];
    assert c in picks <==> c in multiset(picks);
  }

  method BarsFor(labels: seq<string>, counts: map<string, nat>, ghost picks: seq<string>) returns (bars: seq<Bar>)
    requires Counts(counts, picks)
    ensures ChoicesOf(bars) == labels
    ensures CountIn(bars, multiset(picks))
  {
    bars := [];
    for i := 0 to |labels|
      invariant |bars| == i && ChoicesOf(bars) == labels[..i]
      invariant forall k :: 0 <= k < i ==> bars[k].count == multiset(picks)[bars[k].choice]
    {
      bars := bars + [Bar(labels[i], CountOf(counts, labels[i]))];
    }
    assert labels[..|labels|] == labels;
  }

  /** A bar for every option, then for every choice only earlier versions offered, in alphabetical order,
      then for Other where it is offered or was chosen. */
  method ChoiceDistribution(question: QuestionResults) returns (bars: seq<Bar>, total: nat, ghost extra: seq<string>)
    ensures total == Pickers(question.answers)
    ensures CountIn(bars, multiset(Picks(question.answers)))
    ensures ChoicesOf(bars) == question.options + extra + OtherOf(question)
    ensures InOrder(extra) && AreExtra(extra, question)
  {
    var counts: map<string, nat>;
    counts, total := CountPicks(question.answers);
    ghost var picks := Picks(question.answers);
    var unseen := set c | c in counts && c !in question.options && c != OTHER_BAR;
    var labels := CodesInOrder(unseen);
    extra := labels;
    forall c ensures c in extra <==> c in picks && c !in question.options && c != OTHER_BAR {
      CountedWhenPicked(counts, picks, c);
    }
    CountedWhenPicked(counts, picks, OTHER_BAR);
    labels := question.options + labels;
    if question.allowOther || CountOf(counts, OTHER_BAR) > 0 {
      labels := labels + [OTHER_BAR];
    }
    bars := BarsFor(labels, counts, picks);
  }

  function OtherOf(question: QuestionResults): seq<string> {
    if question.allowOther || OTHER_BAR in Picks(question.answers) then [OTHER_BAR] else []
  }

  ghost predicate AreExtra(extra: seq<string>, question: QuestionResults) {
    forall c :: c in extra <==> c in Picks(question.answers) && c !in question.options && c != OTHER_BAR
  }

  function ChoicesOf(bars: seq<Bar>): (r: seq<string>)
    ensures |r| == |bars|
  {
    seq(|bars|, i requires 0 <= i < |bars| => bars[i].choice)
  }

  /** Each bar counts its choice among some picks. */
  ghost predicate CountIn(bars: seq<Bar>, picks: multiset<string>) {
    forall k :: 0 <= k < |bars| ==> bars[k].count == picks[bars[k].choice]
  }

  ghost predicate Cover(bars: seq<Bar>, picks: multiset<string>) {
    forall c :: c in picks ==> exists k :: 0 <= k < |bars| && bars[k].choice == c
  }

  /** No choice picked has two bars. */
  ghost predicate NoneCountedTwice(bars: seq<Bar>) {
    forall i, j :: 0 <= i < j < |bars| && bars[i].choice == bars[j].choice ==> bars[i].count == 0
  }

  /** The last bar is of a choice that has another, and was picked. */
  lemma CoverWithoutTheLast(bars: seq<Bar>, picks: multiset<string>, i: nat)
    requires i < |bars| - 1 && Cover(bars, picks) && bars[i].choice == bars[|bars| - 1].choice
    ensures Cover(bars[..|bars| - 1], picks)
  {
    var n := |bars| - 1;
    forall c | c in picks ensures exists k :: 0 <= k < n && bars[..n][k].choice == c {
      var k :| 0 <= k < |bars| && bars[k].choice == c;
      assert bars[..n][if k == n then i else k].choice == c;
    }
  }

  lemma CoverTheRest(bars: seq<Bar>, picks: multiset<string>)
    requires bars != [] && Cover(bars, picks)
    ensures Cover(bars[..|bars| - 1], picks[bars[|bars| - 1].choice := 0])
  {
    var n := |bars| - 1;
    var rest := picks[bars[n].choice := 0];
    forall c | c in rest ensures exists k :: 0 <= k < n && bars[..n][k].choice == c {
      assert c in picks;
      var k :| 0 <= k < |bars| && bars[k].choice == c;
      assert bars[..n][k] == bars[k];
    }
  }

  /** Bars that cover some picks count each of them, and some more than once exactly where two bars are of
      one choice that was picked. */
  lemma {:induction false} SumOfBars(bars: seq<Bar>, picks: multiset<string>)
    requires CountIn(bars, picks) && Cover(bars, picks)
    ensures SumOf(bars) >= |picks| && (SumOf(bars) == |picks| <==> NoneCountedTwice(bars))
    decreases |bars|
  {
    if bars == [] {
      NothingCovered(picks);
    } else {
      var n := |bars| - 1;
      if i :| 0 <= i < n && bars[i].choice == bars[n].choice && bars[i].count > 0 {
        CoverWithoutTheLast(bars, picks, i);
        SumOfBars(bars[..n], picks);
      } else {
        var rest := picks[bars[n].choice := 0];
        CoverTheRest(bars, picks);
        SumOfBars(bars[..n], rest);
        assert |picks| == |rest| + picks[bars[n].choice];
        OneMoreBar(bars);
      }
    }
  }

  lemma NothingCovered(picks: multiset<string>)
    requires Cover([], picks)
    ensures |picks| == 0
  {
    assert picks == multiset{};
  }

  lemma OneMoreBar(bars: seq<Bar>)
    requires bars != []
    requires forall i :: 0 <= i < |bars| - 1 && bars[i].choice == bars[|bars| - 1].choice ==> bars[i].count == 0
    ensures NoneCountedTwice(bars) <==> NoneCountedTwice(bars[..|bars| - 1])
  {
    var n := |bars| - 1;
    if NoneCountedTwice(bars[..n]) {
      forall i, j | 0 <= i < j < |bars| && bars[i].choice == bars[j].choice ensures bars[i].count == 0 {
        if j < n {
          assert bars[..n][i] == bars[i] && bars[..n][j] == bars[j];
        }
      }
    }
  }

  lemma EveryPickHasItsBar(question: QuestionResults, extra: seq<string>)
    requires AreExtra(extra, question)
    ensures forall c <- Picks(question.answers) :: c in question.options + extra + OtherOf(question)
  {
  }

  lemma BarsCoverThePicks(bars: seq<Bar>, picks: seq<string>)
    requires forall c <- picks :: c in ChoicesOf(bars)
    ensures Cover(bars, multiset(picks))
  {
    var choices := ChoicesOf(bars);
    forall c | c in multiset(picks) ensures exists k :: 0 <= k < |bars| && bars[k].choice == c {
      assert c in picks;
      var k :| 0 <= k < |choices| && choices[k] == c;
      assert bars[k].choice == c;
    }
  }

  /** Picks are conserved: the bars of a choice question sum to the picks made, those of options only an
      earlier version had and of Other among them, exactly when no choice that was picked has two bars. */
  lemma BarsSumToThePicks(question: QuestionResults, bars: seq<Bar>, extra: seq<string>)
    requires AreExtra(extra, question) && ChoicesOf(bars) == question.options + extra + OtherOf(question)
    requires CountIn(bars, multiset(Picks(question.answers)))
    ensures SumOf(bars) >= |Picks(question.answers)|
    ensures SumOf(bars) == |Picks(question.answers)| <==> NoneCountedTwice(bars)
  {
    EveryPickHasItsBar(question, extra);
    BarsCoverThePicks(bars, Picks(question.answers));
    SumOfBars(bars, multiset(Picks(question.answers)));
  }

  ghost predicate NoneTwice(list: seq<string>) { forall i, j :: 0 <= i < j < |list| ==> list[i] != list[j] }

  lemma ApartTogether(a: seq<string>, b: seq<string>)
    requires NoneTwice(a) && NoneTwice(b) && forall x <- b :: x !in a
    ensures NoneTwice(a + b)
  {
    var all := a + b;
    forall i, j | 0 <= i < j < |all| ensures all[i] != all[j] {
      if i < |a| <= j {
        assert all[j] == b[j - |a|] && all[j] in b && all[i] in a;
      }
    }
  }

  /** So they do where the options are as a question's own check leaves them, none twice, and none holds
      the character no text can. */
  lemma DistinctOptionsSumToThePicks(question: QuestionResults, bars: seq<Bar>, extra: seq<string>)
    requires NoneTwice(question.options) && OTHER_BAR !in question.options && InOrder(extra) && AreExtra(extra, question)
    requires ChoicesOf(bars) == question.options + extra + OtherOf(question)
    requires CountIn(bars, multiset(Picks(question.answers)))
    ensures SumOf(bars) == |Picks(question.answers)|
  {
    BarsSumToThePicks(question, bars, extra);
    ApartTogether(question.options, extra);
    ApartTogether(question.options + extra, OtherOf(question));
    var choices := ChoicesOf(bars);
    forall i, j | 0 <= i < j < |bars| ensures bars[i].choice != bars[j].choice {
      assert choices[i] != choices[j];
    }
  }
}
