/** The row codec of backend/storage.py: `add_assistant_message` turns the stage-1 and
    stage-2 results of one assistant message into rows of the `model_responses` and
    `rankings` tables, and `get_conversation` rebuilds the stage-2 data from them. The
    tables are sequences of rows in insertion order; the message id is an input. */
module Storage {
  import opened Common
  import opened ResponseCollector
  import opened RankingParser
  import opened PeerEvaluation

  /** A `model_responses` row. */
  datatype ResponseRow = ResponseRow(messageId: int, model: string, stage: int, response: string)

  /** A `rankings` row; the score columns are `None` (NULL) on rows of the ordinal path. */
  datatype RankingRow = RankingRow(
    messageId: int,
    evaluator: string,
    subject: string,
    rankPosition: int,
    accuracy: Option<real>,
    reasoning: Option<real>,
    completeness: Option<real>,
    clarity: Option<real>,
    confidence: Option<real>)

  /** The rank stored for a rubric entry that the parsed ranking does not list. */
  const Unranked: int := 99

  const UnknownPrefix: string := "unknown_"

  /** `s.index(x)`: the first position of `x`, or `None` where Python raises `ValueError`. */
  function IndexOf(s: seq<string>, x: string): Option<nat> {
    if s == [] then None
    else if s[0] == x then Some(0)
    else
      var r := IndexOf(s[1..], x);
      if r.Some? then Some(r.value + 1) else None
  }

  /** `IndexOf` finds the first occurrence, and finds nothing only when there is none. */
  lemma {:induction false} IndexOfCorrect(s: seq<string>, x: string)
    ensures var r := IndexOf(s, x);
      (r.Some? ==> r.value < |s| && s[r.value] == x && forall j :: 0 <= j < r.value ==> s[j] != x)
      && (r.None? <==> x !in s)
  {
    if s != [] && s[0] != x {
      IndexOfCorrect(s[1..], x);
      assert s == [s[0]] + s[1..];
    }
  }

  /** The rank of a rubric entry (backend/storage.py:327-330). */
  function RankPosition(parsed: seq<string>, token: string): int {
    var found := IndexOf(parsed, token);
    if found.Some? then found.value + 1 else Unranked
  }

  /** The row of one rubric entry (backend/storage.py:322-348). */
  function RubricRow(msgId: int, evaluator: string, e: RubricEntry, parsed: seq<string>,
                     labelToModel: map<string, string>): RankingRow
  {
    var short := e.responseLabel.GetOr("");
    var token := ResponsePrefix + short;
    RankingRow(msgId, evaluator, MapGet(labelToModel, token, UnknownPrefix + short), RankPosition(parsed, token),
               e.accuracy, e.reasoning, e.completeness, e.clarity, e.confidence)
  }

  function RubricRows(msgId: int, evaluator: string, entries: seq<RubricEntry>, parsed: seq<string>,
                      labelToModel: map<string, string>): (r: seq<RankingRow>)
  {
    seq(|entries|, i requires 0 <= i < |entries| => RubricRow(msgId, evaluator, entries[i], parsed, labelToModel))
  }

  /** The row of the label at 1-based `position` of an ordinal ranking
      (backend/storage.py:349-358). */
  function OrdinalRow(msgId: int, evaluator: string, token: string, position: int,
                      labelToModel: map<string, string>): RankingRow
  {
    RankingRow(msgId, evaluator, MapGet(labelToModel, token, UnknownPrefix + token), position,
               None, None, None, None, None)
  }

  function OrdinalRows(msgId: int, evaluator: string, labels: seq<string>, labelToModel: map<string, string>)
    : (r: seq<RankingRow>)
  {
    seq(|labels|, i requires 0 <= i < |labels| => OrdinalRow(msgId, evaluator, labels[i], i + 1, labelToModel))
  }

  /** `if rubric:` — a missing, `None` or empty rubric selects the ordinal path. */
  predicate StoresRubric(ev: Evaluation) {
    ev.rubric.Some? && ev.rubric.value != []
  }

  /** The ranking rows of one stage-2 result. */
  function EvaluationRows(msgId: int, ev: Evaluation, labelToModel: map<string, string>): seq<RankingRow> {
    if StoresRubric(ev) then RubricRows(msgId, ev.model, ev.rubric.value, ev.parsedRanking, labelToModel)
    else OrdinalRows(msgId, ev.model, ev.parsedRanking, labelToModel)
  }

  function RankingRowsOf(msgId: int, stage2: seq<Evaluation>, labelToModel: map<string, string>): seq<RankingRow>
    decreases |stage2|
  {
    if stage2 == [] then []
    else
      var n := |stage2| - 1;
      RankingRowsOf(msgId, stage2[..n], labelToModel) + EvaluationRows(msgId, stage2[n], labelToModel)
  }

  function Stage1Rows(msgId: int, stage1: seq<Candidate>): (r: seq<ResponseRow>)
    ensures |r| == |stage1|
  {
    if stage1 == [] then []
    else
      var n := |stage1| - 1;
      Stage1Rows(msgId, stage1[..n]) + [ResponseRow(msgId, stage1[n].model, 1, stage1[n].response)]
  }

  function Stage2Rows(msgId: int, stage2: seq<Evaluation>): (r: seq<ResponseRow>)
    ensures |r| == |stage2|
  {
    if stage2 == [] then []
    else
      var n := |stage2| - 1;
      Stage2Rows(msgId, stage2[..n]) + [ResponseRow(msgId, stage2[n].model, 2, stage2[n].ranking)]
  }

  /** The stage-3 row, written only when there is a stage-3 result. */
  function Stage3Rows(msgId: int, stage3: Option<Candidate>): seq<ResponseRow> {
    if stage3.Some? then [ResponseRow(msgId, stage3.value.model, 3, stage3.value.response)] else []
  }

  function ResponseRowsOf(msgId: int, stage1: seq<Candidate>, stage2: seq<Evaluation>, stage3: Option<Candidate>)
    : seq<ResponseRow>
  {
    Stage1Rows(msgId, stage1) + Stage2Rows(msgId, stage2) + Stage3Rows(msgId, stage3)
  }

  /** The reverse label map of `get_conversation` (backend/storage.py:190); a model
      listed twice keeps the label of its last position. */
  function ModelToLabel(stage1: seq<Candidate>): (m: map<string, string>)
    requires |stage1| <= MaxPanel
  {
    if stage1 == [] then map[]
    else
      var n := |stage1| - 1;
      ModelToLabel(stage1[..n])[stage1[n].model := LabelFor(n)]
  }

  /** `s.replace(p, "")`: every occurrence of `p`, scanning left to right, is removed. */
  function RemoveAll(s: string, p: string): string
    requires p != []
    decreases |s|
  {
    if s == [] then []
    else if StartsWith(s, p) then RemoveAll(s[|p|..], p)
    else [s[0]] + RemoveAll(s[1..], p)
  }

  /** The label a row's subject is shown under: its stage-1 label, or the raw name. */
  function LabelOf(row: RankingRow, modelToLabel: map<string, string>): string {
    MapGet(modelToLabel, row.subject, row.subject)
  }

  /** The `parsed_ranking` rebuilt from an evaluator's rows: every row not ranked 99. */
  function LoadedRanking(rows: seq<RankingRow>, modelToLabel: map<string, string>): seq<string> {
    if rows == [] then []
    else
      var n := |rows| - 1;
      LoadedRanking(rows[..n], modelToLabel)
        + if rows[n].rankPosition != Unranked then [LabelOf(rows[n], modelToLabel)] else []
  }

  /** The rubric entry rebuilt from a row that has an accuracy score. */
  function LoadedEntry(row: RankingRow, modelToLabel: map<string, string>): RubricEntry {
    RubricEntry(Some(RemoveAll(LabelOf(row, modelToLabel), ResponsePrefix)),
                row.accuracy, row.reasoning, row.completeness, row.clarity, row.confidence)
  }

  function LoadedRubric(rows: seq<RankingRow>, modelToLabel: map<string, string>): seq<RubricEntry> {
    if rows == [] then []
    else
      var n := |rows| - 1;
      LoadedRubric(rows[..n], modelToLabel) + if rows[n].accuracy.Some? then [LoadedEntry(rows[n], modelToLabel)] else []
  }

  /** A rebuilt stage-2 result; `parsedRanking` and `rubric` are `None` where the
      dictionary lacks the key. */
  datatype LoadedEvaluation = LoadedEvaluation(
    model: string,
    ranking: string,
    parsedRanking: Option<seq<string>>,
    rubric: Option<seq<RubricEntry>>)

  /** One evaluator's entry of the rebuilt stage 2 (backend/storage.py:196-237). */
  function LoadEvaluation(evaluator: string, response: string, rows: seq<RankingRow>,
                          modelToLabel: map<string, string>): LoadedEvaluation
  {
    var parsed := LoadedRanking(rows, modelToLabel);
    var rubric := LoadedRubric(rows, modelToLabel);
    LoadedEvaluation(evaluator, response, if parsed != [] then Some(parsed) else None,
                     if rubric != [] then Some(rubric) else None)
  }

  /** The loop over an evaluator's rows (backend/storage.py:205-225), with its
      `has_rubric` flag. */
  method LoadRankRows(rows: seq<RankingRow>, modelToLabel: map<string, string>)
    returns (parsed: seq<string>, rubric: seq<RubricEntry>, hasRubric: bool)
    ensures parsed == LoadedRanking(rows, modelToLabel)
    ensures rubric == LoadedRubric(rows, modelToLabel)
    ensures hasRubric <==> exists i :: 0 <= i < |rows| && rows[i].accuracy.Some?
  {
    parsed, rubric, hasRubric := [], [], false;
    var i := 0;
    while i < |rows|
      invariant 0 <= i <= |rows|
      invariant parsed == LoadedRanking(rows[..i], modelToLabel)
      invariant rubric == LoadedRubric(rows[..i], modelToLabel)
      invariant hasRubric <==> exists k :: 0 <= k < i && rows[k].accuracy.Some?
    {
      var rank := rows[i];
      assert rows[..i + 1][..i] == rows[..i];
      var token := MapGet(modelToLabel, rank.subject, rank.subject);
      if rank.rankPosition != Unranked {
        parsed := parsed + [token];
      }
      if rank.accuracy.Some? {
        hasRubric := true;
        rubric := rubric + [RubricEntry(Some(RemoveAll(token, ResponsePrefix)), rank.accuracy, rank.reasoning,
                                        rank.completeness, rank.clarity, rank.confidence)];
      }
      i := i + 1;
    }
    assert rows[..i] == rows;
  }

  /** The rebuilt rubric is non-empty exactly when some row has an accuracy score, so
      `has_rubric` and a non-empty list coincide. */
  lemma {:induction false} LoadedRubricNonEmpty(rows: seq<RankingRow>, modelToLabel: map<string, string>)
    ensures LoadedRubric(rows, modelToLabel) != [] <==> exists i :: 0 <= i < |rows| && rows[i].accuracy.Some?
  {
    if rows != [] {
      var n := |rows| - 1;
      LoadedRubricNonEmpty(rows[..n], modelToLabel);
      if rows[n].accuracy.None? {
        forall i | 0 <= i < n && rows[i].accuracy.Some?
          ensures exists k :: 0 <= k < |rows[..n]| && rows[..n][k].accuracy.Some?
        {
          assert rows[..n][i] == rows[i];
        }
      }
    }
  }

  /** No two stage-1 results come from the same model. */
  predicate DistinctModels(stage1: seq<Candidate>) {
    forall i, j :: 0 <= i < j < |stage1| ==> stage1[i].model != stage1[j].model
  }

  /** With distinct models, each stage-1 model is mapped back to its own label. */
  lemma {:induction false} ModelToLabelMaps(stage1: seq<Candidate>)
    requires |stage1| <= MaxPanel && DistinctModels(stage1)
    ensures forall i :: 0 <= i < |stage1| ==>
      stage1[i].model in ModelToLabel(stage1) && ModelToLabel(stage1)[stage1[i].model] == LabelFor(i)
  {
    if stage1 != [] {
      var n := |stage1| - 1;
      var init := stage1[..n];
      assert DistinctModels(init) by {
        forall i, j | 0 <= i < j < |init| ensures init[i].model != init[j].model {
          assert init[i] == stage1[i] && init[j] == stage1[j];
        }
      }
      ModelToLabelMaps(init);
      forall i | 0 <= i < n
        ensures stage1[i].model in ModelToLabel(stage1) && ModelToLabel(stage1)[stage1[i].model] == LabelFor(i)
      {
        assert init[i] == stage1[i];
      }
    }
  }

  /** With distinct models, the reverse map undoes the label map on every label. */
  lemma LabelsRoundTrip(stage1: seq<Candidate>, token: string)
    requires |stage1| <= MaxPanel && DistinctModels(stage1)
    requires token in LabelToModel(stage1)
    ensures LabelToModel(stage1)[token] in ModelToLabel(stage1)
    ensures ModelToLabel(stage1)[LabelToModel(stage1)[token]] == token
  {
    var i :| 0 <= i < |stage1| && token == LabelFor(i);
    LabelToModelMaps(stage1);
    ModelToLabelMaps(stage1);
  }

  /** Ordinal rows: one per label, ranked 1, 2, ... in order, with the label's model or
      `unknown_<label>` as subject and no scores. */
  lemma OrdinalRowsShape(msgId: int, evaluator: string, labels: seq<string>, labelToModel: map<string, string>)
    ensures forall i :: 0 <= i < |labels| ==>
      var row := OrdinalRows(msgId, evaluator, labels, labelToModel)[i];
      row.messageId == msgId && row.evaluator == evaluator && row.rankPosition == i + 1
      && row.subject == MapGet(labelToModel, labels[i], UnknownPrefix + labels[i])
      && row.accuracy.None? && row.confidence.None?
  {
  }

  /** Rubric rows: one per entry, in order; the rank is one more than the first position
      of the entry's label in the parsed ranking, and 99 when it is not listed; the
      subject is the label's model or `unknown_<label>`. */
  lemma RubricRowsShape(msgId: int, evaluator: string, entries: seq<RubricEntry>, parsed: seq<string>, labelToModel: map<string, string>)
    ensures forall i :: 0 <= i < |entries| ==>
      var row := RubricRows(msgId, evaluator, entries, parsed, labelToModel)[i];
      var short := entries[i].responseLabel.GetOr("");
      var token := ResponsePrefix + short;
      row.messageId == msgId && row.evaluator == evaluator
      && row.subject == MapGet(labelToModel, token, UnknownPrefix + short)
      && (token !in parsed ==> row.rankPosition == Unranked)
      && (token in parsed ==>
            1 <= row.rankPosition <= |parsed| && parsed[row.rankPosition - 1] == token
            && forall j :: 0 <= j < row.rankPosition - 1 ==> parsed[j] != token)
      && row.accuracy == entries[i].accuracy && row.reasoning == entries[i].reasoning
      && row.completeness == entries[i].completeness && row.clarity == entries[i].clarity
      && row.confidence == entries[i].confidence
  {
    forall i | 0 <= i < |entries| {
      RankPositionFacts(parsed, ResponsePrefix + entries[i].responseLabel.GetOr(""));
    }
  }

  lemma RankPositionFacts(parsed: seq<string>, token: string)
    ensures token !in parsed ==> RankPosition(parsed, token) == Unranked
    ensures token in parsed ==>
      var p := RankPosition(parsed, token);
      1 <= p <= |parsed| && parsed[p - 1] == token && forall j :: 0 <= j < p - 1 ==> parsed[j] != token
  {
    IndexOfCorrect(parsed, token);
  }

  /** Round trip of the ordinal path: with distinct stage-1 models, labels that are all
      mapped and fewer than 99 of them, the rows rebuild exactly the stored ranking and no
      rubric. */
  lemma {:induction false} OrdinalRoundTrip(msgId: int, evaluator: string, stage1: seq<Candidate>, labels: seq<string>)
    requires |stage1| <= MaxPanel && DistinctModels(stage1)
    requires forall i :: 0 <= i < |labels| ==> labels[i] in LabelToModel(stage1)
    requires |labels| < Unranked
    ensures LoadedRanking(OrdinalRows(msgId, evaluator, labels, LabelToModel(stage1)), ModelToLabel(stage1)) == labels
    ensures LoadedRubric(OrdinalRows(msgId, evaluator, labels, LabelToModel(stage1)), ModelToLabel(stage1)) == []
  {
    if labels != [] {
      var n := |labels| - 1;
      var rows := OrdinalRows(msgId, evaluator, labels, LabelToModel(stage1));
      OrdinalRoundTrip(msgId, evaluator, stage1, labels[..n]);
      assert rows[..n] == OrdinalRows(msgId, evaluator, labels[..n], LabelToModel(stage1));
      LabelsRoundTrip(stage1, labels[n]);
      assert LabelOf(rows[n], ModelToLabel(stage1)) == labels[n];
      assert labels[..n] + [labels[n]] == labels;
    }
  }

  /** Removing the prefix from a stage-1 label leaves its letter. */
  lemma RemovePrefix(i: nat)
    requires i < MaxPanel
    ensures RemoveAll(LabelFor(i), ResponsePrefix) == [LabelLetter(i)]
  {
    var l := LabelFor(i);
    var c := [LabelLetter(i)];
    assert StartsWith(l, ResponsePrefix);
    assert l[|ResponsePrefix|..] == c;
    assert RemoveAll(l, ResponsePrefix) == RemoveAll(c, ResponsePrefix);
    assert !StartsWith(c, ResponsePrefix);
    assert c[1..] == [];
    assert RemoveAll(c, ResponsePrefix) == c + RemoveAll([], ResponsePrefix);
  }

  /** An entry the rubric path can round-trip: it names a stage-1 label and has an
      accuracy score. */
  predicate Restorable(e: RubricEntry, labelToModel: map<string, string>) {
    e.responseLabel.Some? && ResponsePrefix + e.responseLabel.value in labelToModel && e.accuracy.Some?
  }

  /** Round trip of the rubric path, before the load orders the rows by rank: with
      distinct stage-1 models, every entry naming a stage-1 label and having an accuracy
      score comes back as it was stored. */
  lemma {:induction false} RubricRoundTrip(msgId: int, evaluator: string, stage1: seq<Candidate>,
                                           entries: seq<RubricEntry>, parsed: seq<string>)
    requires |stage1| <= MaxPanel && DistinctModels(stage1)
    requires forall i :: 0 <= i < |entries| ==> Restorable(entries[i], LabelToModel(stage1))
    ensures LoadedRubric(RubricRows(msgId, evaluator, entries, parsed, LabelToModel(stage1)), ModelToLabel(stage1)) == entries
  {
    if entries != [] {
      var n := |entries| - 1;
      var l2m := LabelToModel(stage1);
      var rows := RubricRows(msgId, evaluator, entries, parsed, l2m);
      RubricRoundTrip(msgId, evaluator, stage1, entries[..n], parsed);
      assert rows[..n] == RubricRows(msgId, evaluator, entries[..n], parsed, l2m);
      var e := entries[n];
      var token := ResponsePrefix + e.responseLabel.value;
      LabelsRoundTrip(stage1, token);
      var i :| 0 <= i < |stage1| && token == LabelFor(i);
      assert e.responseLabel.value == [LabelLetter(i)] by {
        assert token[|ResponsePrefix|..] == e.responseLabel.value;
      }
      RemovePrefix(i);
      assert LoadedEntry(rows[n], ModelToLabel(stage1)) == e;
      assert entries[..n] + [e] == entries;
    }
  }

  /** `SELECT * FROM model_responses WHERE message_id = ? AND stage = ? ORDER BY id ASC`:
      the matching rows in insertion order. */
  function StageRows(rows: seq<ResponseRow>, msgId: int, stage: int): seq<ResponseRow> {
    if rows == [] then []
    else
      var n := |rows| - 1;
      StageRows(rows[..n], msgId, stage) + if rows[n].messageId == msgId && rows[n].stage == stage then [rows[n]] else []
  }

  /** The rankings rows of one evaluator of one message, in insertion order, before the
      query orders them. */
  function RankRowsFor(rows: seq<RankingRow>, msgId: int, evaluator: string): seq<RankingRow> {
    if rows == [] then []
    else
      var n := |rows| - 1;
      RankRowsFor(rows[..n], msgId, evaluator)
        + if rows[n].messageId == msgId && rows[n].evaluator == evaluator then [rows[n]] else []
  }

  /** The stage-1 list rebuilt from its rows. */
  function CandidatesOf(rows: seq<ResponseRow>): (r: seq<Candidate>)
    ensures |r| == |rows|
  {
    if rows == [] then []
    else
      var n := |rows| - 1;
      CandidatesOf(rows[..n]) + [Candidate(rows[n].model, rows[n].response)]
  }

  /** The rebuilt stage 2: one entry per stage-2 row, its rankings rows ordered by
      `orderBy`, the `ORDER BY rank_position ASC` of the query. */
  function LoadedStage2(stage2Rows: seq<ResponseRow>, rankings: seq<RankingRow>, msgId: int,
                        orderBy: seq<RankingRow> -> seq<RankingRow>, modelToLabel: map<string, string>)
    : (r: seq<LoadedEvaluation>)
    ensures |r| == |stage2Rows|
  {
    if stage2Rows == [] then []
    else
      var n := |stage2Rows| - 1;
      var row := stage2Rows[n];
      LoadedStage2(stage2Rows[..n], rankings, msgId, orderBy, modelToLabel)
        + [LoadEvaluation(row.model, row.response, orderBy(RankRowsFor(rankings, msgId, row.model)), modelToLabel)]
  }

  /** `fetchone()` of the stage-3 query: the first matching row, if any. */
  function FirstCandidate(rows: seq<ResponseRow>): Option<Candidate> {
    if rows == [] then None else Some(Candidate(rows[0].model, rows[0].response))
  }

  lemma Stage2Step(msgId: int, stage2: seq<Evaluation>, j: int, labelToModel: map<string, string>)
    requires 0 <= j < |stage2|
    ensures Stage2Rows(msgId, stage2[..j + 1])
         == Stage2Rows(msgId, stage2[..j]) + [ResponseRow(msgId, stage2[j].model, 2, stage2[j].ranking)]
    ensures RankingRowsOf(msgId, stage2[..j + 1], labelToModel)
         == RankingRowsOf(msgId, stage2[..j], labelToModel) + EvaluationRows(msgId, stage2[j], labelToModel)
  {
    assert stage2[..j + 1][..j] == stage2[..j];
  }

  /** The tables of one database. */
  class Database {
    var responses: seq<ResponseRow>
    var rankings: seq<RankingRow>

    constructor()
      ensures responses == [] && rankings == []
    {
      responses := [];
      rankings := [];
    }

    /** `add_assistant_message` (backend/storage.py:280-364) for the message `msgId`. */
    method AddAssistantMessage(msgId: int, stage1: seq<Candidate>, stage2: seq<Evaluation>, stage3: Option<Candidate>)
      requires |stage1| <= MaxPanel
      modifies this
      ensures responses == old(responses) + ResponseRowsOf(msgId, stage1, stage2, stage3)
      ensures rankings == old(rankings) + RankingRowsOf(msgId, stage2, LabelToModel(stage1))
    {
      var labelToModel := LabelToModel(stage1);
      AddStage1Rows(msgId, stage1);
      AddStage2Rows(msgId, stage2, labelToModel);
      if stage3.Some? {
        responses := responses + [ResponseRow(msgId, stage3.value.model, 3, stage3.value.response)];
      }
    }

    /** The stage-1 loop (backend/storage.py:306-310). */
    method AddStage1Rows(msgId: int, stage1: seq<Candidate>)
      modifies this
      ensures responses == old(responses) + Stage1Rows(msgId, stage1)
      ensures rankings == old(rankings)
    {
      var i := 0;
      while i < |stage1|
        invariant 0 <= i <= |stage1|
        invariant responses == old(responses) + Stage1Rows(msgId, stage1[..i])
        invariant rankings == old(rankings)
      {
        assert stage1[..i + 1][..i] == stage1[..i];
        responses := responses + [ResponseRow(msgId, stage1[i].model, 1, stage1[i].response)];
        i := i + 1;
      }
      assert stage1[..i] == stage1;
    }

    /** The stage-2 loop (backend/storage.py:312-358). */
    method AddStage2Rows(msgId: int, stage2: seq<Evaluation>, labelToModel: map<string, string>)
      modifies this
      ensures responses == old(responses) + Stage2Rows(msgId, stage2)
      ensures rankings == old(rankings) + RankingRowsOf(msgId, stage2, labelToModel)
    {
      ghost var responses0, rankings0 := responses, rankings;
      var j := 0;
      while j < |stage2|
        invariant 0 <= j <= |stage2|
        invariant responses == responses0 + Stage2Rows(msgId, stage2[..j])
        invariant rankings == rankings0 + RankingRowsOf(msgId, stage2[..j], labelToModel)
      {
        ghost var doneResponses, doneRankings := Stage2Rows(msgId, stage2[..j]), RankingRowsOf(msgId, stage2[..j], labelToModel);
        Stage2Step(msgId, stage2, j, labelToModel);
        AddEvaluation(msgId, stage2[j], labelToModel);
        AppendAssoc(responses0, doneResponses, [ResponseRow(msgId, stage2[j].model, 2, stage2[j].ranking)]);
        AppendAssoc(rankings0, doneRankings, EvaluationRows(msgId, stage2[j], labelToModel));
        j := j + 1;
      }
      assert stage2[..j] == stage2;
    }

    /** The rows of one stage-2 result (backend/storage.py:313-358). */
    method AddEvaluation(msgId: int, ev: Evaluation, labelToModel: map<string, string>)
      modifies this
      ensures responses == old(responses) + [ResponseRow(msgId, ev.model, 2, ev.ranking)]
      ensures rankings == old(rankings) + EvaluationRows(msgId, ev, labelToModel)
    {
      responses := responses + [ResponseRow(msgId, ev.model, 2, ev.ranking)];
      if ev.rubric.Some? && ev.rubric.value != [] {
        AddRubricRows(msgId, ev.model, ev.rubric.value, ev.parsedRanking, labelToModel);
      } else {
        AddOrdinalRows(msgId, ev.model, ev.parsedRanking, labelToModel);
      }
    }

    /** The loop over a rubric (backend/storage.py:322-348). */
    method AddRubricRows(msgId: int, evaluator: string, rubric: seq<RubricEntry>, parsed: seq<string>,
                         labelToModel: map<string, string>)
      modifies this
      ensures responses == old(responses)
      ensures rankings == old(rankings) + RubricRows(msgId, evaluator, rubric, parsed, labelToModel)
    {
      var k := 0;
      while k < |rubric|
        invariant 0 <= k <= |rubric|
        invariant responses == old(responses)
        invariant rankings == old(rankings) + RubricRows(msgId, evaluator, rubric[..k], parsed, labelToModel)
      {
        var ev := rubric[k];
        assert rubric[..k + 1][..k] == rubric[..k];
        var short := ev.responseLabel.GetOr("");
        var token := ResponsePrefix + short;
        var subject := MapGet(labelToModel, token, UnknownPrefix + short);
        var found := IndexOf(parsed, token);
        var rankPos := if found.Some? then found.value + 1 else Unranked;
        rankings := rankings + [RankingRow(msgId, evaluator, subject, rankPos,
                                           ev.accuracy, ev.reasoning, ev.completeness, ev.clarity, ev.confidence)];
        k := k + 1;
      }
      assert rubric[..k] == rubric;
    }

    /** The loop over a parsed ranking (backend/storage.py:349-358). */
    method AddOrdinalRows(msgId: int, evaluator: string, parsed: seq<string>, labelToModel: map<string, string>)
      modifies this
      ensures responses == old(responses)
      ensures rankings == old(rankings) + OrdinalRows(msgId, evaluator, parsed, labelToModel)
    {
      var i := 0;
      while i < |parsed|
        invariant 0 <= i <= |parsed|
        invariant responses == old(responses)
        invariant rankings == old(rankings) + OrdinalRows(msgId, evaluator, parsed[..i], labelToModel)
      {
        var token := parsed[i];
        assert parsed[..i + 1][..i] == parsed[..i];
        var subject := MapGet(labelToModel, token, UnknownPrefix + token);
        rankings := rankings + [RankingRow(msgId, evaluator, subject, i + 1, None, None, None, None, None)];
        i := i + 1;
      }
      assert parsed[..i] == parsed;
    }

    /** The assistant-message part of `get_conversation` (backend/storage.py:177-248):
        the three stages of message `msgId`. */
    method LoadMessage(msgId: int, orderBy: seq<RankingRow> -> seq<RankingRow>)
      returns (stage1: seq<Candidate>, stage2: seq<LoadedEvaluation>, stage3: Option<Candidate>)
      requires |StageRows(responses, msgId, 1)| <= MaxPanel
      ensures stage1 == CandidatesOf(StageRows(responses, msgId, 1))
      ensures stage2 == LoadedStage2(StageRows(responses, msgId, 2), rankings, msgId, orderBy, ModelToLabel(stage1))
      ensures stage3 == FirstCandidate(StageRows(responses, msgId, 3))
    {
      stage1 := ReadStage1(StageRows(responses, msgId, 1));
      stage2 := ReadStage2(StageRows(responses, msgId, 2), rankings, msgId, orderBy, ModelToLabel(stage1));
      var stage3Rows := StageRows(responses, msgId, 3);
      stage3 := if stage3Rows != [] then Some(Candidate(stage3Rows[0].model, stage3Rows[0].response)) else None;
    }
  }

  /** The loop over the stage-1 rows of `get_conversation` (backend/storage.py:182-187). */
  method ReadStage1(rows: seq<ResponseRow>) returns (stage1: seq<Candidate>)
    ensures stage1 == CandidatesOf(rows)
  {
    stage1 := [];
    var i := 0;
    while i < |rows|
      invariant 0 <= i <= |rows|
      invariant stage1 == CandidatesOf(rows[..i])
    {
      assert rows[..i + 1][..i] == rows[..i];
      stage1 := stage1 + [Candidate(rows[i].model, rows[i].response)];
      i := i + 1;
    }
    assert rows[..i] == rows;
  }

  /** The loop over the stage-2 rows of `get_conversation` (backend/storage.py:195-237). */
  method ReadStage2(rows: seq<ResponseRow>, rankings: seq<RankingRow>, msgId: int,
                    orderBy: seq<RankingRow> -> seq<RankingRow>, modelToLabel: map<string, string>)
    returns (stage2: seq<LoadedEvaluation>)
    ensures stage2 == LoadedStage2(rows, rankings, msgId, orderBy, modelToLabel)
  {
    stage2 := [];
    var j := 0;
    while j < |rows|
      invariant 0 <= j <= |rows|
      invariant stage2 == LoadedStage2(rows[..j], rankings, msgId, orderBy, modelToLabel)
    {
      var entry := ReadEvaluation(rows[j], rankings, msgId, orderBy, modelToLabel);
      TakeOneMore(rows, j);
      LoadedStage2Append(rows[..j], rows[j], rankings, msgId, orderBy, modelToLabel, stage2);
      stage2 := stage2 + [entry];
      j := j + 1;
    }
    assert rows[..j] == rows;
  }

  lemma LoadedStage2Append(rows: seq<ResponseRow>, row: ResponseRow, rankings: seq<RankingRow>, msgId: int,
                           orderBy: seq<RankingRow> -> seq<RankingRow>, modelToLabel: map<string, string>,
                           loaded: seq<LoadedEvaluation>)
    requires loaded == LoadedStage2(rows, rankings, msgId, orderBy, modelToLabel)
    ensures LoadedStage2(rows + [row], rankings, msgId, orderBy, modelToLabel)
         == loaded + [LoadEvaluation(row.model, row.response, orderBy(RankRowsFor(rankings, msgId, row.model)), modelToLabel)]
  {
    assert (rows + [row])[..|rows|] == rows;
  }

  /** One evaluator's entry of the rebuilt stage 2 (backend/storage.py:197-237). */
  method ReadEvaluation(r: ResponseRow, rankings: seq<RankingRow>, msgId: int,
                        orderBy: seq<RankingRow> -> seq<RankingRow>, modelToLabel: map<string, string>)
    returns (entry: LoadedEvaluation)
    ensures entry == LoadEvaluation(r.model, r.response, orderBy(RankRowsFor(rankings, msgId, r.model)), modelToLabel)
  {
    var rankRows := orderBy(RankRowsFor(rankings, msgId, r.model));
    var parsed, rubric, hasRubric := LoadRankRows(rankRows, modelToLabel);
    LoadedRubricNonEmpty(rankRows, modelToLabel);
    entry := LoadedEvaluation(r.model, r.response, if parsed != [] then Some(parsed) else None,
                              if hasRubric then Some(rubric) else None);
  }

  /** The queries of `get_conversation` see the rows of earlier and later inserts alike. */
  lemma {:induction false} StageRowsAppend(a: seq<ResponseRow>, b: seq<ResponseRow>, msgId: int, stage: int)
    ensures StageRows(a + b, msgId, stage) == StageRows(a, msgId, stage) + StageRows(b, msgId, stage)
    decreases |b|
  {
    if b == [] {
      assert a + b == a;
    } else {
      var n := |b| - 1;
      assert (a + b)[..|a| + n] == a + b[..n];
      StageRowsAppend(a, b[..n], msgId, stage);
    }
  }

  /** Every row of `rows` belongs to message `msgId` and stage `stage`. */
  predicate RowsAt(rows: seq<ResponseRow>, msgId: int, stage: int) {
    forall i :: 0 <= i < |rows| ==> rows[i].messageId == msgId && rows[i].stage == stage
  }

  /** A query selects all rows of its own message and stage and none of another. */
  lemma {:induction false} StageRowsSelect(rows: seq<ResponseRow>, msgId: int, stage: int, other: int)
    requires RowsAt(rows, msgId, stage)
    ensures StageRows(rows, msgId, stage) == rows
    ensures other != stage ==> StageRows(rows, msgId, other) == []
  {
    if rows != [] {
      var n := |rows| - 1;
      StageRowsSelect(rows[..n], msgId, stage, other);
      assert rows[..n] + [rows[n]] == rows;
    }
  }

  /** A query for a message that has no rows selects nothing. */
  lemma {:induction false} StageRowsAbsent(rows: seq<ResponseRow>, msgId: int, stage: int)
    requires forall i :: 0 <= i < |rows| ==> rows[i].messageId != msgId
    ensures StageRows(rows, msgId, stage) == []
  {
    if rows != [] {
      StageRowsAbsent(rows[..|rows| - 1], msgId, stage);
    }
  }

  lemma {:induction false} Stage1RowsAt(msgId: int, stage1: seq<Candidate>)
    ensures RowsAt(Stage1Rows(msgId, stage1), msgId, 1)
    ensures CandidatesOf(Stage1Rows(msgId, stage1)) == stage1
  {
    if stage1 != [] {
      var n := |stage1| - 1;
      Stage1RowsAt(msgId, stage1[..n]);
      var rows := Stage1Rows(msgId, stage1);
      assert rows[..n] == Stage1Rows(msgId, stage1[..n]);
      assert stage1[..n] + [stage1[n]] == stage1;
    }
  }

  lemma {:induction false} Stage2RowsAt(msgId: int, stage2: seq<Evaluation>)
    ensures RowsAt(Stage2Rows(msgId, stage2), msgId, 2)
  {
    if stage2 != [] {
      Stage2RowsAt(msgId, stage2[..|stage2| - 1]);
    }
  }

  lemma {:induction false} RankRowsForAppend(a: seq<RankingRow>, b: seq<RankingRow>, msgId: int, evaluator: string)
    ensures RankRowsFor(a + b, msgId, evaluator) == RankRowsFor(a, msgId, evaluator) + RankRowsFor(b, msgId, evaluator)
    decreases |b|
  {
    if b == [] {
      assert a + b == a;
    } else {
      var n := |b| - 1;
      assert (a + b)[..|a| + n] == a + b[..n];
      RankRowsForAppend(a, b[..n], msgId, evaluator);
    }
  }

  /** The rankings query keeps every row of its message and evaluator, and drops the
      others. */
  lemma {:induction false} RankRowsForSelect(rows: seq<RankingRow>, msgId: int, evaluator: string)
    ensures (forall i :: 0 <= i < |rows| ==> rows[i].messageId == msgId && rows[i].evaluator == evaluator)
            ==> RankRowsFor(rows, msgId, evaluator) == rows
    ensures (forall i :: 0 <= i < |rows| ==> rows[i].messageId != msgId || rows[i].evaluator != evaluator)
            ==> RankRowsFor(rows, msgId, evaluator) == []
  {
    if rows != [] {
      var n := |rows| - 1;
      RankRowsForSelect(rows[..n], msgId, evaluator);
      assert rows[..n] + [rows[n]] == rows;
    }
  }

  /** No two stage-2 results come from the same evaluator. */
  predicate DistinctEvaluators(stage2: seq<Evaluation>) {
    forall i, j :: 0 <= i < j < |stage2| ==> stage2[i].model != stage2[j].model
  }

  /** The rows of one result belong to its message and its evaluator. */
  lemma RankRowsForOwn(msgId: int, ev: Evaluation, labelToModel: map<string, string>, evaluator: string)
    ensures RankRowsFor(EvaluationRows(msgId, ev, labelToModel), msgId, evaluator)
         == if ev.model == evaluator then EvaluationRows(msgId, ev, labelToModel) else []
  {
    var rows := EvaluationRows(msgId, ev, labelToModel);
    assert forall i :: 0 <= i < |rows| ==> rows[i].messageId == msgId && rows[i].evaluator == ev.model;
    RankRowsForSelect(rows, msgId, evaluator);
  }

  /** The rows an evaluator's query finds among those of the last result and the ones
      before it. */
  lemma RankRowsOfLast(msgId: int, stage2: seq<Evaluation>, labelToModel: map<string, string>, evaluator: string)
    requires stage2 != []
    ensures var n := |stage2| - 1;
      RankRowsFor(RankingRowsOf(msgId, stage2, labelToModel), msgId, evaluator)
      == RankRowsFor(RankingRowsOf(msgId, stage2[..n], labelToModel), msgId, evaluator)
         + if stage2[n].model == evaluator then EvaluationRows(msgId, stage2[n], labelToModel) else []
  {
    var n := |stage2| - 1;
    RankRowsForAppend(RankingRowsOf(msgId, stage2[..n], labelToModel), EvaluationRows(msgId, stage2[n], labelToModel),
                      msgId, evaluator);
    RankRowsForOwn(msgId, stage2[n], labelToModel, evaluator);
  }

  /** An evaluator that gave none of the results has no rows. */
  lemma {:induction false} RankRowsOfAbsent(msgId: int, stage2: seq<Evaluation>, labelToModel: map<string, string>,
                                            evaluator: string)
    requires forall i :: 0 <= i < |stage2| ==> stage2[i].model != evaluator
    ensures RankRowsFor(RankingRowsOf(msgId, stage2, labelToModel), msgId, evaluator) == []
  {
    if stage2 != [] {
      var n := |stage2| - 1;
      RankRowsOfAbsent(msgId, stage2[..n], labelToModel, evaluator);
      RankRowsOfLast(msgId, stage2, labelToModel, evaluator);
    }
  }

  /** Dropping the last result keeps the evaluators distinct. */
  lemma DistinctEvaluatorsInit(stage2: seq<Evaluation>)
    requires stage2 != [] && DistinctEvaluators(stage2)
    ensures DistinctEvaluators(stage2[..|stage2| - 1])
  {
    var init := stage2[..|stage2| - 1];
    forall i, j | 0 <= i < j < |init| ensures init[i].model != init[j].model {
      assert init[i] == stage2[i] && init[j] == stage2[j];
    }
  }

  /** With distinct evaluators, the rows an evaluator's query finds are exactly the rows
      written for its result. */
  lemma {:induction false} RankRowsOfEvaluator(msgId: int, stage2: seq<Evaluation>, labelToModel: map<string, string>,
                                               k: nat)
    requires DistinctEvaluators(stage2) && k < |stage2|
    ensures RankRowsFor(RankingRowsOf(msgId, stage2, labelToModel), msgId, stage2[k].model)
         == EvaluationRows(msgId, stage2[k], labelToModel)
  {
    var n := |stage2| - 1;
    var init := stage2[..n];
    var e := stage2[k].model;
    RankRowsOfLast(msgId, stage2, labelToModel, e);
    if k == n {
      RankRowsOfAbsent(msgId, init, labelToModel, e);
    } else {
      DistinctEvaluatorsInit(stage2);
      assert init[k] == stage2[k];
      RankRowsOfEvaluator(msgId, init, labelToModel, k);
    }
  }

  /** Rows in ascending `rank_position`. */
  predicate AscendingRank(rows: seq<RankingRow>) {
    forall i, j :: 0 <= i < j < |rows| ==> rows[i].rankPosition <= rows[j].rankPosition
  }

  /** What `ORDER BY rank_position ASC` promises: the same rows, in ascending rank; rows
      of equal rank may come in any order. */
  ghost predicate OrdersByRank(orderBy: seq<RankingRow> -> seq<RankingRow>) {
    forall rows :: multiset(orderBy(rows)) == multiset(rows) && AscendingRank(orderBy(rows))
  }

  /** The first element of an ascending arrangement of a strictly ascending sequence is
      its first element. */
  lemma AscendingHead<T>(s: seq<T>, out: seq<T>, key: T -> int)
    requires s != [] && forall i, j :: 0 <= i < j < |s| ==> key(s[i]) < key(s[j])
    requires multiset(out) == multiset(s)
    requires forall i, j :: 0 <= i < j < |out| ==> key(out[i]) <= key(out[j])
    ensures out != [] && out[0] == s[0]
  {
    assert s[0] in multiset(s);
    assert out != [];
    assert out[0] in multiset(s);
    var i :| 0 <= i < |s| && s[i] == out[0];
    var j :| 0 <= j < |out| && out[j] == s[0];
    assert key(out[0]) <= key(s[0]);
  }

  lemma TailMultiset<T>(s: seq<T>, out: seq<T>)
    requires s != [] && out != [] && out[0] == s[0] && multiset(out) == multiset(s)
    ensures multiset(out[1..]) == multiset(s[1..])
  {
    assert s == [s[0]] + s[1..];
    assert out == [out[0]] + out[1..];
    assert multiset(s[1..]) == multiset(s) - multiset{s[0]};
    assert multiset(out[1..]) == multiset(out) - multiset{s[0]};
  }

  /** A sequence whose keys strictly ascend is the only arrangement of its elements with
      ascending keys. */
  lemma {:induction false} StrictlyAscendingUnique<T>(s: seq<T>, out: seq<T>, key: T -> int)
    requires forall i, j :: 0 <= i < j < |s| ==> key(s[i]) < key(s[j])
    requires multiset(out) == multiset(s)
    requires forall i, j :: 0 <= i < j < |out| ==> key(out[i]) <= key(out[j])
    ensures out == s
    decreases |s|
  {
    if s == [] {
      assert |out| == |multiset(out)| == 0;
    } else {
      AscendingHead(s, out, key);
      TailMultiset(s, out);
      StrictlyAscendingUnique(s[1..], out[1..], key);
      assert s == [s[0]] + s[1..] && out == [out[0]] + out[1..];
    }
  }

  /** Ordinal rows already ascend strictly, so the query returns them as written. */
  lemma OrdinalRowsOrdered(msgId: int, evaluator: string, labels: seq<string>, labelToModel: map<string, string>,
                           orderBy: seq<RankingRow> -> seq<RankingRow>)
    requires OrdersByRank(orderBy)
    ensures orderBy(OrdinalRows(msgId, evaluator, labels, labelToModel)) == OrdinalRows(msgId, evaluator, labels, labelToModel)
  {
    var rows := OrdinalRows(msgId, evaluator, labels, labelToModel);
    assert multiset(orderBy(rows)) == multiset(rows) && AscendingRank(orderBy(rows));
    StrictlyAscendingUnique(rows, orderBy(rows), (r: RankingRow) => r.rankPosition);
  }

  /** A stage-2 result the ordinal path stores and rebuilds unchanged: no rubric, a
      non-empty ranking of fewer than 99 stage-1 labels. */
  predicate OrdinalRestorable(ev: Evaluation, labelToModel: map<string, string>) {
    !StoresRubric(ev) && 0 < |ev.parsedRanking| < Unranked
    && forall i :: 0 <= i < |ev.parsedRanking| ==> ev.parsedRanking[i] in labelToModel
  }

  /** What `get_conversation` shows for a stored result of the ordinal path. */
  function OrdinalView(ev: Evaluation): LoadedEvaluation {
    LoadedEvaluation(ev.model, ev.ranking, Some(ev.parsedRanking), None)
  }

  /** The views of stored results of the ordinal path, one per result. */
  function OrdinalViews(stage2: seq<Evaluation>): (r: seq<LoadedEvaluation>)
    ensures |r| == |stage2| && forall k :: 0 <= k < |stage2| ==> r[k] == OrdinalView(stage2[k])
  {
    if stage2 == [] then [] else OrdinalViews(stage2[..|stage2| - 1]) + [OrdinalView(stage2[|stage2| - 1])]
  }

  /** One stored result of the ordinal path loads back as it was. */
  lemma OrdinalLoad(msgId: int, stage1: seq<Candidate>, ev: Evaluation, orderBy: seq<RankingRow> -> seq<RankingRow>)
    requires |stage1| <= MaxPanel && DistinctModels(stage1)
    requires OrdinalRestorable(ev, LabelToModel(stage1)) && OrdersByRank(orderBy)
    ensures LoadEvaluation(ev.model, ev.ranking, orderBy(EvaluationRows(msgId, ev, LabelToModel(stage1))), ModelToLabel(stage1))
         == OrdinalView(ev)
  {
    var rows := OrdinalRows(msgId, ev.model, ev.parsedRanking, LabelToModel(stage1));
    assert EvaluationRows(msgId, ev, LabelToModel(stage1)) == rows;
    OrdinalRowsOrdered(msgId, ev.model, ev.parsedRanking, LabelToModel(stage1), orderBy);
    OrdinalRoundTrip(msgId, ev.model, stage1, ev.parsedRanking);
  }

  /** Loading the stage-2 rows of one more result adds that result's view. */
  lemma LoadedStage2Snoc(msgId: int, init: seq<Evaluation>, ev: Evaluation, rankings: seq<RankingRow>,
                         orderBy: seq<RankingRow> -> seq<RankingRow>, modelToLabel: map<string, string>,
                         loaded: seq<LoadedEvaluation>)
    requires LoadedStage2(Stage2Rows(msgId, init), rankings, msgId, orderBy, modelToLabel) == loaded
    ensures LoadedStage2(Stage2Rows(msgId, init + [ev]), rankings, msgId, orderBy, modelToLabel)
         == loaded + [LoadEvaluation(ev.model, ev.ranking, orderBy(RankRowsFor(rankings, msgId, ev.model)), modelToLabel)]
  {
    assert (init + [ev])[..|init|] == init;
  }

  /** One more stored result of the ordinal path adds its view to what loads back. */
  lemma LoadedOrdinalStep(msgId: int, stage1: seq<Candidate>, stage2: seq<Evaluation>, k: nat,
                          rankings: seq<RankingRow>, orderBy: seq<RankingRow> -> seq<RankingRow>)
    requires k < |stage2|
    requires |stage1| <= MaxPanel && DistinctModels(stage1) && OrdersByRank(orderBy)
    requires OrdinalRestorable(stage2[k], LabelToModel(stage1))
    requires RankRowsFor(rankings, msgId, stage2[k].model) == EvaluationRows(msgId, stage2[k], LabelToModel(stage1))
    requires LoadedStage2(Stage2Rows(msgId, stage2[..k]), rankings, msgId, orderBy, ModelToLabel(stage1))
          == OrdinalViews(stage2[..k])
    ensures LoadedStage2(Stage2Rows(msgId, stage2[..k + 1]), rankings, msgId, orderBy, ModelToLabel(stage1))
         == OrdinalViews(stage2[..k + 1])
  {
    var init, ev := stage2[..k], stage2[k];
    TakeOneMore(stage2, k);
    OrdinalStep(msgId, stage1, init, ev, rankings, orderBy, OrdinalViews(init));
    OrdinalViewsSnoc(init, ev);
  }

  lemma OrdinalViewsSnoc(init: seq<Evaluation>, ev: Evaluation)
    ensures OrdinalViews(init + [ev]) == OrdinalViews(init) + [OrdinalView(ev)]
  {
    assert (init + [ev])[..|init|] == init;
  }

  lemma OrdinalStep(msgId: int, stage1: seq<Candidate>, init: seq<Evaluation>, ev: Evaluation,
                    rankings: seq<RankingRow>, orderBy: seq<RankingRow> -> seq<RankingRow>, view: seq<LoadedEvaluation>)
    requires |stage1| <= MaxPanel && DistinctModels(stage1) && OrdersByRank(orderBy)
    requires OrdinalRestorable(ev, LabelToModel(stage1))
    requires RankRowsFor(rankings, msgId, ev.model) == EvaluationRows(msgId, ev, LabelToModel(stage1))
    requires LoadedStage2(Stage2Rows(msgId, init), rankings, msgId, orderBy, ModelToLabel(stage1)) == view
    ensures LoadedStage2(Stage2Rows(msgId, init + [ev]), rankings, msgId, orderBy, ModelToLabel(stage1))
         == view + [OrdinalView(ev)]
  {
    LoadedStage2Snoc(msgId, init, ev, rankings, orderBy, ModelToLabel(stage1), view);
    OrdinalLoad(msgId, stage1, ev, orderBy);
  }

  lemma LoadedStage2Ordinal(msgId: int, stage1: seq<Candidate>, stage2: seq<Evaluation>,
                            rankings: seq<RankingRow>, orderBy: seq<RankingRow> -> seq<RankingRow>)
    requires |stage1| <= MaxPanel && DistinctModels(stage1) && OrdersByRank(orderBy)
    requires forall k :: 0 <= k < |stage2| ==> OrdinalRestorable(stage2[k], LabelToModel(stage1))
    requires forall k :: 0 <= k < |stage2| ==>
      RankRowsFor(rankings, msgId, stage2[k].model) == EvaluationRows(msgId, stage2[k], LabelToModel(stage1))
    ensures LoadedStage2(Stage2Rows(msgId, stage2), rankings, msgId, orderBy, ModelToLabel(stage1))
         == OrdinalViews(stage2)
  {
    var k := 0;
    while k < |stage2|
      invariant k <= |stage2|
      invariant LoadedStage2(Stage2Rows(msgId, stage2[..k]), rankings, msgId, orderBy, ModelToLabel(stage1))
             == OrdinalViews(stage2[..k])
    {
      LoadedOrdinalStep(msgId, stage1, stage2, k, rankings, orderBy);
      k := k + 1;
    }
    assert stage2[..k] == stage2;
  }

  /** A stage query over rows of other messages followed by new rows finds what it finds
      in the new rows. */
  lemma StageRowsAfterOthers(responses: seq<ResponseRow>, added: seq<ResponseRow>, msgId: int, stage: int)
    requires forall i :: 0 <= i < |responses| ==> responses[i].messageId != msgId
    ensures StageRows(responses + added, msgId, stage) == StageRows(added, msgId, stage)
  {
    StageRowsAppend(responses, added, msgId, stage);
    StageRowsAbsent(responses, msgId, stage);
  }

  lemma StageRowsOfBlocks(s1: seq<ResponseRow>, s2: seq<ResponseRow>, s3: seq<ResponseRow>, msgId: int, stage: int)
    ensures StageRows(s1 + s2 + s3, msgId, stage)
         == StageRows(s1, msgId, stage) + StageRows(s2, msgId, stage) + StageRows(s3, msgId, stage)
  {
    StageRowsAppend(s1 + s2, s3, msgId, stage);
    StageRowsAppend(s1, s2, msgId, stage);
  }

  /** New rows of stages 1, 2 and 3 of message `msgId`, after rows of other messages:
      each stage query finds its own block. */
  lemma StoredBlocks(responses: seq<ResponseRow>, s1: seq<ResponseRow>, s2: seq<ResponseRow>, s3: seq<ResponseRow>,
                     msgId: int)
    requires forall i :: 0 <= i < |responses| ==> responses[i].messageId != msgId
    requires RowsAt(s1, msgId, 1) && RowsAt(s2, msgId, 2) && RowsAt(s3, msgId, 3)
    ensures StageRows(responses + (s1 + s2 + s3), msgId, 1) == s1
    ensures StageRows(responses + (s1 + s2 + s3), msgId, 2) == s2
    ensures StageRows(responses + (s1 + s2 + s3), msgId, 3) == s3
  {
    StageRowsSelect(s1, msgId, 1, 2);
    StageRowsSelect(s1, msgId, 1, 3);
    StageRowsSelect(s2, msgId, 2, 1);
    StageRowsSelect(s2, msgId, 2, 3);
    StageRowsSelect(s3, msgId, 3, 1);
    StageRowsSelect(s3, msgId, 3, 2);
    forall stage | 1 <= stage <= 3
      ensures StageRows(responses + (s1 + s2 + s3), msgId, stage)
           == StageRows(s1, msgId, stage) + StageRows(s2, msgId, stage) + StageRows(s3, msgId, stage)
    {
      StageRowsAfterOthers(responses, s1 + s2 + s3, msgId, stage);
      StageRowsOfBlocks(s1, s2, s3, msgId, stage);
    }
  }

  /** Added to tables without rows of message `msgId`, each stage query of the message
      finds exactly the rows written for that stage. */
  lemma StoredStages(responses: seq<ResponseRow>, msgId: int, stage1: seq<Candidate>, stage2: seq<Evaluation>,
                     stage3: Option<Candidate>)
    requires forall i :: 0 <= i < |responses| ==> responses[i].messageId != msgId
    ensures var responses' := responses + ResponseRowsOf(msgId, stage1, stage2, stage3);
      StageRows(responses', msgId, 1) == Stage1Rows(msgId, stage1)
      && StageRows(responses', msgId, 2) == Stage2Rows(msgId, stage2)
      && StageRows(responses', msgId, 3) == Stage3Rows(msgId, stage3)
  {
    Stage1RowsAt(msgId, stage1);
    Stage2RowsAt(msgId, stage2);
    StoredBlocks(responses, Stage1Rows(msgId, stage1), Stage2Rows(msgId, stage2), Stage3Rows(msgId, stage3), msgId);
  }

  /** The rankings query over rows of other messages followed by new rows finds what it
      finds in the new rows. */
  lemma RankRowsAfterOthers(rankings: seq<RankingRow>, added: seq<RankingRow>, msgId: int, evaluator: string)
    requires forall i :: 0 <= i < |rankings| ==> rankings[i].messageId != msgId
    ensures RankRowsFor(rankings + added, msgId, evaluator) == RankRowsFor(added, msgId, evaluator)
  {
    RankRowsForAppend(rankings, added, msgId, evaluator);
    RankRowsForSelect(rankings, msgId, evaluator);
  }

  /** Added to tables without rows of message `msgId`, an evaluator's query finds exactly
      the rows written for its result. */
  lemma StoredRankings(rankings: seq<RankingRow>, msgId: int, stage2: seq<Evaluation>, labelToModel: map<string, string>,
                       k: nat)
    requires forall i :: 0 <= i < |rankings| ==> rankings[i].messageId != msgId
    requires DistinctEvaluators(stage2) && k < |stage2|
    ensures RankRowsFor(rankings + RankingRowsOf(msgId, stage2, labelToModel), msgId, stage2[k].model)
         == EvaluationRows(msgId, stage2[k], labelToModel)
  {
    RankRowsAfterOthers(rankings, RankingRowsOf(msgId, stage2, labelToModel), msgId, stage2[k].model);
    RankRowsOfEvaluator(msgId, stage2, labelToModel, k);
  }

  /** The round trip of `add_assistant_message` and `get_conversation` on the ordinal
      path: into tables holding no rows of message `msgId`, the stages are written; read
      back, stage 1 and stage 3 are as given and every stage-2 result has its model, its
      text and its ranking, and no rubric. */
  lemma StoreLoadRoundTrip(responses: seq<ResponseRow>, rankings: seq<RankingRow>, msgId: int, stage1: seq<Candidate>,
                           stage2: seq<Evaluation>, stage3: Option<Candidate>,
                           orderBy: seq<RankingRow> -> seq<RankingRow>)
    requires forall i :: 0 <= i < |responses| ==> responses[i].messageId != msgId
    requires forall i :: 0 <= i < |rankings| ==> rankings[i].messageId != msgId
    requires |stage1| <= MaxPanel && DistinctModels(stage1) && DistinctEvaluators(stage2) && OrdersByRank(orderBy)
    requires forall k :: 0 <= k < |stage2| ==> OrdinalRestorable(stage2[k], LabelToModel(stage1))
    ensures var responses' := responses + ResponseRowsOf(msgId, stage1, stage2, stage3);
      var rankings' := rankings + RankingRowsOf(msgId, stage2, LabelToModel(stage1));
      CandidatesOf(StageRows(responses', msgId, 1)) == stage1
      && LoadedStage2(StageRows(responses', msgId, 2), rankings', msgId, orderBy, ModelToLabel(stage1))
         == OrdinalViews(stage2)
      && FirstCandidate(StageRows(responses', msgId, 3)) == stage3
  {
    StoredStages(responses, msgId, stage1, stage2, stage3);
    Stage1RowsAt(msgId, stage1);
    var rankings' := rankings + RankingRowsOf(msgId, stage2, LabelToModel(stage1));
    forall k | 0 <= k < |stage2|
      ensures RankRowsFor(rankings', msgId, stage2[k].model) == EvaluationRows(msgId, stage2[k], LabelToModel(stage1))
    {
      StoredRankings(rankings, msgId, stage2, LabelToModel(stage1), k);
    }
    LoadedStage2Ordinal(msgId, stage1, stage2, rankings + RankingRowsOf(msgId, stage2, LabelToModel(stage1)), orderBy);
  }
}
