/** `calculate_aggregate_rankings` (backend/council.py:235-306): every evaluation is turned
    into per-model score contributions, which are summed and counted per model and then
    listed by descending total. */
module AggregateScorer {
  import opened Common
  import opened Sorting
  import opened RankingParser
  import opened PeerEvaluation

  /** One addition to a model's total: `points` scaled by `weight`. */
  datatype Contribution = Contribution(subject: string, points: real, weight: real) {
    function Score(): real {
      points * weight
    }
  }

  /** Self-evaluation counts half, a peer's evaluation in full. */
  function Weight(evaluator: string, subject: string): real {
    if evaluator == subject then 0.5 else 1.0
  }

  /** The fallback score of position `position` (from 1) among `numOptions` responses. */
  function MockScore(numOptions: int, position: int): real {
    ((numOptions - position + 1) * 10) as real
  }

  /** The contributions of a rubric (backend/council.py:262-278): each entry whose
      `Response <label>` is a known label adds its weighted raw score to that model. */
  function RubricContributions(evaluator: string, entries: seq<RubricEntry>, labelToModel: map<string, string>)
    : seq<Contribution>
  {
    if entries == [] then []
    else
      RubricContributions(evaluator, entries[..|entries| - 1], labelToModel)
        + EntryContribution(evaluator, entries[|entries| - 1], labelToModel)
  }

  /** What one rubric entry adds: nothing when its label is unknown. */
  function EntryContribution(evaluator: string, e: RubricEntry, labelToModel: map<string, string>): seq<Contribution> {
    var token := TokenOf(e);
    if token in labelToModel then
      var subject := labelToModel[token];
      [Contribution(subject, RawScore(e), Weight(evaluator, subject))]
    else []
  }

  /** The contributions of an ordinal ranking (backend/council.py:285-292): the label at
      position p, if known, adds the weighted mock score of p. */
  function OrdinalContributions(evaluator: string, labels: seq<string>, labelToModel: map<string, string>, numOptions: int)
    : seq<Contribution>
  {
    if labels == [] then []
    else
      OrdinalContributions(evaluator, labels[..|labels| - 1], labelToModel, numOptions)
        + PositionContribution(evaluator, labels[|labels| - 1], |labels|, labelToModel, numOptions)
  }

  /** What the label at `position` adds: nothing when it is unknown. */
  function PositionContribution(evaluator: string, token: string, position: int, labelToModel: map<string, string>,
                                numOptions: int): seq<Contribution>
  {
    if token in labelToModel then
      var subject := labelToModel[token];
      [Contribution(subject, MockScore(numOptions, position), Weight(evaluator, subject))]
    else []
  }

  /** `if rubric:` — a present, non-empty rubric list. */
  predicate UsesRubric(ev: Evaluation) {
    ev.rubric.Some? && ev.rubric.value != []
  }

  /** The ranking used without a rubric: the parsed one, or the text re-parsed. */
  function FallbackLabels(ev: Evaluation): seq<string> {
    if ev.parsedRanking != [] then ev.parsedRanking else ParseRanking(ev.ranking)
  }

  function EvaluationContributions(ev: Evaluation, labelToModel: map<string, string>): seq<Contribution> {
    if UsesRubric(ev) then RubricContributions(ev.model, ev.rubric.value, labelToModel)
    else OrdinalContributions(ev.model, FallbackLabels(ev), labelToModel, |labelToModel|)
  }

  /** All contributions, in the order the loops make them. */
  function Contributions(stage2: seq<Evaluation>, labelToModel: map<string, string>): seq<Contribution> {
    if stage2 == [] then []
    else
      Contributions(stage2[..|stage2| - 1], labelToModel)
        + EvaluationContributions(stage2[|stage2| - 1], labelToModel)
  }

  /** The two `defaultdict`s: the models in insertion order, their totals and counts. */
  datatype Tally = Tally(order: seq<string>, scores: map<string, real>, counts: map<string, int>)

  /** `model_scores[s] += score; model_counts[s] += 1`. */
  function Add(t: Tally, c: Contribution): Tally {
    Credited(t, c.subject, c.Score())
  }

  function Credited(t: Tally, s: string, score: real): Tally {
    Tally(if s in t.scores then t.order else t.order + [s],
          t.scores[s := MapGet(t.scores, s, 0.0) + score],
          t.counts[s := MapGet(t.counts, s, 0) + 1])
  }

  /** `model_scores[subject] += score; model_counts[subject] += 1` on the `defaultdict`s,
      whose first update of a model appends it to their key order. */
  method Credit(order: seq<string>, scores: map<string, real>, counts: map<string, int>, subject: string, score: real)
    returns (order': seq<string>, scores': map<string, real>, counts': map<string, int>)
    ensures Tally(order', scores', counts') == Credited(Tally(order, scores, counts), subject, score)
  {
    order' := if subject in scores then order else order + [subject];
    scores' := scores[subject := MapGet(scores, subject, 0.0) + score];
    counts' := counts[subject := MapGet(counts, subject, 0) + 1];
  }

  /** Adding the contributions `cs` one after the other. */
  function AddAll(t: Tally, cs: seq<Contribution>): Tally {
    if cs == [] then t else Add(AddAll(t, cs[..|cs| - 1]), cs[|cs| - 1])
  }

  /** The tally of `cs`, starting from the empty dictionaries. */
  function TallyOf(cs: seq<Contribution>): Tally {
    AddAll(Tally([], map[], map[]), cs)
  }

  lemma AddAllSnoc(t: Tally, cs: seq<Contribution>, c: Contribution)
    ensures AddAll(t, cs + [c]) == Add(AddAll(t, cs), c)
  {
    assert (cs + [c])[..|cs|] == cs;
  }

  lemma {:induction false} AddAllAppend(t: Tally, a: seq<Contribution>, b: seq<Contribution>)
    ensures AddAll(t, a + b) == AddAll(AddAll(t, a), b)
    decreases |b|
  {
    if b == [] {
      assert a + b == a;
    } else {
      var b' := b[..|b| - 1];
      assert (a + b)[..|a + b| - 1] == a + b';
      AddAllAppend(t, a, b');
    }
  }

  /** Sum of the contributions to `m`. */
  function SumFor(cs: seq<Contribution>, m: string): real {
    if cs == [] then 0.0
    else SumFor(cs[..|cs| - 1], m) + (if cs[|cs| - 1].subject == m then cs[|cs| - 1].Score() else 0.0)
  }

  /** Number of contributions to `m`. */
  function CountFor(cs: seq<Contribution>, m: string): nat {
    if cs == [] then 0
    else CountFor(cs[..|cs| - 1], m) + (if cs[|cs| - 1].subject == m then 1 else 0)
  }

  predicate Contributed(cs: seq<Contribution>, m: string) {
    exists i :: 0 <= i < |cs| && cs[i].subject == m
  }

  /** `t` holds, for every model that received a contribution in `cs` and no other, its
      sum and its count, and lists each such model once. */
  ghost predicate Summarises(t: Tally, cs: seq<Contribution>) {
    && Distinct(t.order)
    && (forall m :: m in t.order <==> Contributed(cs, m))
    && (forall m :: m in t.scores <==> Contributed(cs, m))
    && (forall m :: m in t.counts <==> Contributed(cs, m))
    && (forall m :: m in t.scores ==> t.scores[m] == SumFor(cs, m))
    && (forall m :: m in t.counts ==> t.counts[m] == CountFor(cs, m))
  }

  /** Crediting one more contribution keeps the tally a summary. */
  lemma AddSummarises(t: Tally, cs: seq<Contribution>, c: Contribution)
    requires Summarises(t, cs)
    ensures Summarises(Add(t, c), cs + [c])
  {
    AddKeys(t, cs, c);
    AddSums(t, cs, c);
  }

  /** The last contribution is `c`, after those of `cs`. */
  lemma AppendedContribution(cs: seq<Contribution>, c: Contribution)
    ensures (cs + [c])[..|cs|] == cs && (cs + [c])[|cs|] == c
    ensures forall m :: Contributed(cs + [c], m) <==> Contributed(cs, m) || c.subject == m
  {
    var cs' := cs + [c];
    assert cs'[..|cs'| - 1] == cs;
    forall m ensures Contributed(cs', m) <==> Contributed(cs, m) || c.subject == m {
      ContributedLast(cs', m);
    }
  }

  lemma AddKeys(t: Tally, cs: seq<Contribution>, c: Contribution)
    requires Summarises(t, cs)
    ensures var t' := Add(t, c);
      && Distinct(t'.order)
      && (forall m :: m in t'.order <==> Contributed(cs + [c], m))
      && (forall m :: m in t'.scores <==> Contributed(cs + [c], m))
      && (forall m :: m in t'.counts <==> Contributed(cs + [c], m))
  {
    AppendedContribution(cs, c);
    if c.subject !in t.scores {
      assert c.subject !in t.order;
      DistinctAppend(t.order, c.subject);
    }
  }

  lemma AddSums(t: Tally, cs: seq<Contribution>, c: Contribution)
    requires Summarises(t, cs)
    ensures var t' := Add(t, c);
      && (forall m :: m in t'.scores ==> t'.scores[m] == SumFor(cs + [c], m))
      && (forall m :: m in t'.counts ==> t'.counts[m] == CountFor(cs + [c], m))
  {
    AppendedContribution(cs, c);
    if c.subject !in t.scores {
      NoContributions(cs, c.subject);
    }
  }

  lemma DistinctAppend(s: seq<string>, x: string)
    requires Distinct(s) && x !in s
    ensures Distinct(s + [x])
  {
  }

  /** The tally of the loops summarises the contributions. */
  lemma {:induction false} TallyOfCorrect(cs: seq<Contribution>)
    ensures Summarises(TallyOf(cs), cs)
  {
    if cs != [] {
      var init := cs[..|cs| - 1];
      TallyOfCorrect(init);
      AddSummarises(TallyOf(init), init, cs[|cs| - 1]);
      assert init + [cs[|cs| - 1]] == cs;
    }
  }

  lemma ContributedLast(cs: seq<Contribution>, m: string)
    requires cs != []
    ensures Contributed(cs, m) <==> Contributed(cs[..|cs| - 1], m) || cs[|cs| - 1].subject == m
  {
    var init := cs[..|cs| - 1];
    if Contributed(init, m) {
      var i :| 0 <= i < |init| && init[i].subject == m;
      assert cs[i] == init[i];
    }
    if Contributed(cs, m) {
      var i :| 0 <= i < |cs| && cs[i].subject == m;
      if i < |init| {
        assert init[i] == cs[i];
      }
    }
  }

  lemma {:induction false} NoContributions(cs: seq<Contribution>, m: string)
    requires !Contributed(cs, m)
    ensures SumFor(cs, m) == 0.0 && CountFor(cs, m) == 0
  {
    if cs != [] {
      NoContributions(cs[..|cs| - 1], m);
    }
  }

  /** One output row (`round(·, 2)` is taken as exact). */
  datatype AggregateScore = AggregateScore(model: string, totalScore: real, averageRank: real, rankingsCount: int)

  function RowFor(t: Tally, m: string): AggregateScore {
    var total := MapGet(t.scores, m, 0.0);
    AggregateScore(m, total, total, MapGet(t.counts, m, 0))
  }

  /** The output rows, in the tally's insertion order. */
  function Table(t: Tally, models: seq<string>): (r: seq<AggregateScore>)
    ensures |r| == |models|
    ensures forall i :: 0 <= i < |models| ==> r[i] == RowFor(t, models[i])
  {
    if models == [] then [] else Table(t, models[..|models| - 1]) + [RowFor(t, models[|models| - 1])]
  }

  function ScoreKey(a: AggregateScore): real {
    a.totalScore
  }

  /** The result of `calculate_aggregate_rankings`. */
  function AggregateRankings(stage2: seq<Evaluation>, labelToModel: map<string, string>): seq<AggregateScore> {
    var t := TallyOf(Contributions(stage2, labelToModel));
    SortDesc(Table(t, t.order), ScoreKey)
  }

  function ModelOf(a: AggregateScore): string {
    a.model
  }

  /** The table of a summary lists each model once... */
  lemma TableDistinct(t: Tally)
    requires Distinct(t.order)
    ensures DistinctBy(Table(t, t.order), ModelOf)
  {
    var table := Table(t, t.order);
    forall i, j | 0 <= i < j < |table| ensures ModelOf(table[i]) != ModelOf(table[j]) {
      assert table[i].model == t.order[i] && table[j].model == t.order[j];
    }
  }

  /** ...lists exactly the contributed models... */
  lemma TableModels(t: Tally, cs: seq<Contribution>)
    requires forall m :: m in t.order <==> Contributed(cs, m)
    ensures forall m :: (exists a :: a in Table(t, t.order) && a.model == m) <==> Contributed(cs, m)
  {
    var table := Table(t, t.order);
    forall m ensures (exists a :: a in table && a.model == m) <==> Contributed(cs, m) {
      if exists a :: a in table && a.model == m {
        var a :| a in table && a.model == m;
        var k :| 0 <= k < |table| && table[k] == a;
        assert t.order[k] == m && t.order[k] in t.order;
      }
      if Contributed(cs, m) {
        var k :| 0 <= k < |t.order| && t.order[k] == m;
        assert table[k] in table && table[k].model == m;
      }
    }
  }

  /** ...and gives each its sum and its (positive) number of contributions. */
  lemma TableRows(t: Tally, cs: seq<Contribution>)
    requires Summarises(t, cs)
    ensures forall a :: a in Table(t, t.order) ==>
      a.totalScore == SumFor(cs, a.model) && a.averageRank == a.totalScore
      && a.rankingsCount == CountFor(cs, a.model) && a.rankingsCount > 0
  {
    var table := Table(t, t.order);
    forall a | a in table
      ensures a.totalScore == SumFor(cs, a.model) && a.averageRank == a.totalScore
           && a.rankingsCount == CountFor(cs, a.model) && a.rankingsCount > 0
    {
      var k :| 0 <= k < |table| && table[k] == a;
      assert t.order[k] in t.order;
      ContributedCounts(cs, a.model);
    }
  }

  /** The output has exactly one row per model that received a contribution; each row
      carries that model's sum and number of contributions; the rows are ordered by
      descending total. */
  lemma AggregateRankingsCorrect(stage2: seq<Evaluation>, labelToModel: map<string, string>)
    ensures SortedDesc(AggregateRankings(stage2, labelToModel), ScoreKey)
    ensures DistinctBy(AggregateRankings(stage2, labelToModel), ModelOf)
    ensures forall m :: (exists a :: a in AggregateRankings(stage2, labelToModel) && a.model == m)
                        <==> Contributed(Contributions(stage2, labelToModel), m)
    ensures forall a :: a in AggregateRankings(stage2, labelToModel) ==>
      var cs := Contributions(stage2, labelToModel);
      a.totalScore == SumFor(cs, a.model) && a.averageRank == a.totalScore
      && a.rankingsCount == CountFor(cs, a.model) && a.rankingsCount > 0
  {
    var cs := Contributions(stage2, labelToModel);
    var t := TallyOf(cs);
    var table := Table(t, t.order);
    TallyOfCorrect(cs);
    TableDistinct(t);
    TableModels(t, cs);
    TableRows(t, cs);
    SortDescSorted(table, ScoreKey);
    SortDescDistinctBy(table, ScoreKey, ModelOf);
    forall a ensures a in AggregateRankings(stage2, labelToModel) <==> a in table {
      SortDescMembers(table, ScoreKey, a);
    }
  }

  lemma {:induction false} ContributedCounts(cs: seq<Contribution>, m: string)
    requires Contributed(cs, m)
    ensures CountFor(cs, m) > 0
  {
    var init := cs[..|cs| - 1];
    if cs[|cs| - 1].subject != m {
      var i :| 0 <= i < |cs| && cs[i].subject == m;
      assert init[i] == cs[i];
      ContributedCounts(init, m);
    }
  }

  /** With every label known, position p (from 1) of an ordinal ranking adds
      `(n - p + 1) * 10`, halved when the evaluator ranks itself. */
  lemma {:induction false} OrdinalScores(evaluator: string, labels: seq<string>, labelToModel: map<string, string>, n: int)
    requires forall i :: 0 <= i < |labels| ==> labels[i] in labelToModel
    ensures |OrdinalContributions(evaluator, labels, labelToModel, n)| == |labels|
    ensures forall i :: 0 <= i < |labels| ==>
      var subject := labelToModel[labels[i]];
      OrdinalContributions(evaluator, labels, labelToModel, n)[i]
        == Contribution(subject, MockScore(n, i + 1), Weight(evaluator, subject))
  {
    if labels != [] {
      OrdinalScores(evaluator, labels[..|labels| - 1], labelToModel, n);
    }
  }

  /** Labels that are not in the map add nothing, wherever they occur. */
  lemma {:induction false} UnknownLabelIgnored(evaluator: string, labels: seq<string>, labelToModel: map<string, string>, n: int)
    requires forall i :: 0 <= i < |labels| ==> labels[i] !in labelToModel
    ensures OrdinalContributions(evaluator, labels, labelToModel, n) == []
  {
    if labels != [] {
      UnknownLabelIgnored(evaluator, labels[..|labels| - 1], labelToModel, n);
    }
  }

  /** The rubric entries whose label is not known add nothing. */
  lemma {:induction false} UnknownRubricIgnored(evaluator: string, entries: seq<RubricEntry>, labelToModel: map<string, string>)
    requires forall i :: 0 <= i < |entries| ==> TokenOf(entries[i]) !in labelToModel
    ensures RubricContributions(evaluator, entries, labelToModel) == []
  {
    if entries != [] {
      UnknownRubricIgnored(evaluator, entries[..|entries| - 1], labelToModel);
    }
  }

  lemma AddAllOne(t: Tally, c: Contribution)
    ensures AddAll(t, []) == t
    ensures AddAll(t, [c]) == Add(t, c)
  {
    assert [c][..0] == [];
  }

  /** One turn of the rubric loop adds the current entry's contribution. */
  lemma RubricStep(t0: Tally, evaluator: string, entries: seq<RubricEntry>, j: int, labelToModel: map<string, string>)
    requires 0 <= j < |entries|
    ensures AddAll(t0, RubricContributions(evaluator, entries[..j + 1], labelToModel))
         == AddAll(AddAll(t0, RubricContributions(evaluator, entries[..j], labelToModel)),
                   EntryContribution(evaluator, entries[j], labelToModel))
  {
    assert entries[..j + 1][..j] == entries[..j];
    AddAllAppend(t0, RubricContributions(evaluator, entries[..j], labelToModel), EntryContribution(evaluator, entries[j], labelToModel));
  }

  /** One turn of the ordinal loop adds the current position's contribution. */
  lemma OrdinalStep(t0: Tally, evaluator: string, labels: seq<string>, j: int, labelToModel: map<string, string>,
                    numOptions: int)
    requires 0 <= j < |labels|
    ensures AddAll(t0, OrdinalContributions(evaluator, labels[..j + 1], labelToModel, numOptions))
         == AddAll(AddAll(t0, OrdinalContributions(evaluator, labels[..j], labelToModel, numOptions)),
                   PositionContribution(evaluator, labels[j], j + 1, labelToModel, numOptions))
  {
    assert labels[..j + 1][..j] == labels[..j];
    AddAllAppend(t0, OrdinalContributions(evaluator, labels[..j], labelToModel, numOptions),
                 PositionContribution(evaluator, labels[j], j + 1, labelToModel, numOptions));
  }

  /** The rubric loop (backend/council.py:262-278) on the two dictionaries. */
  method AddRubricScores(order: seq<string>, scores: map<string, real>, counts: map<string, int>,
                         evaluator: string, rubric: seq<RubricEntry>, labelToModel: map<string, string>)
    returns (order': seq<string>, scores': map<string, real>, counts': map<string, int>)
    ensures Tally(order', scores', counts')
         == AddAll(Tally(order, scores, counts), RubricContributions(evaluator, rubric, labelToModel))
  {
    order', scores', counts' := order, scores, counts;
    var j := 0;
    while j < |rubric|
      invariant 0 <= j <= |rubric|
      invariant Tally(order', scores', counts')
             == AddAll(Tally(order, scores, counts), RubricContributions(evaluator, rubric[..j], labelToModel))
    {
      var ev := rubric[j];
      var token := TokenOf(ev);
      ghost var t := Tally(order', scores', counts');
      RubricStep(Tally(order, scores, counts), evaluator, rubric, j, labelToModel);
      if token in labelToModel {
        var subject := labelToModel[token];
        var rawScore := RawScore(ev);
        var weight := if evaluator == subject then 0.5 else 1.0;
        var weightedScore := rawScore * weight;
        ghost var c := Contribution(subject, rawScore, weight);
        assert EntryContribution(evaluator, ev, labelToModel) == [c];
        assert weightedScore == c.Score();
        AddAllOne(t, c);
        order', scores', counts' := Credit(order', scores', counts', subject, weightedScore);
      } else {
        AddAllOne(t, Contribution(token, 0.0, 0.0));
      }
      j := j + 1;
    }
    assert rubric[..j] == rubric;
  }

  /** The ordinal loop (backend/council.py:285-292) on the two dictionaries. */
  method AddOrdinalScores(order: seq<string>, scores: map<string, real>, counts: map<string, int>,
                          evaluator: string, parsedRanking: seq<string>, labelToModel: map<string, string>,
                          numOptions: int)
    returns (order': seq<string>, scores': map<string, real>, counts': map<string, int>)
    ensures Tally(order', scores', counts')
         == AddAll(Tally(order, scores, counts), OrdinalContributions(evaluator, parsedRanking, labelToModel, numOptions))
  {
    order', scores', counts' := order, scores, counts;
    var position := 1;
    while position <= |parsedRanking|
      invariant 1 <= position <= |parsedRanking| + 1
      invariant Tally(order', scores', counts')
             == AddAll(Tally(order, scores, counts),
                       OrdinalContributions(evaluator, parsedRanking[..position - 1], labelToModel, numOptions))
    {
      var token := parsedRanking[position - 1];
      ghost var t := Tally(order', scores', counts');
      OrdinalStep(Tally(order, scores, counts), evaluator, parsedRanking, position - 1, labelToModel, numOptions);
      if token in labelToModel {
        var subject := labelToModel[token];
        var weight := if evaluator == subject then 0.5 else 1.0;
        var mockScore := MockScore(numOptions, position);
        var weightedScore := mockScore * weight;
        ghost var c := Contribution(subject, mockScore, weight);
        assert PositionContribution(evaluator, token, position, labelToModel, numOptions) == [c];
        assert weightedScore == c.Score();
        AddAllOne(t, c);
        order', scores', counts' := Credit(order', scores', counts', subject, weightedScore);
      } else {
        AddAllOne(t, Contribution(token, 0.0, 0.0));
      }
      position := position + 1;
    }
    assert parsedRanking[..position - 1] == parsedRanking;
  }

  /** One turn of the loop over the evaluations adds that evaluation's contributions. */
  lemma EvaluationStep(stage2: seq<Evaluation>, i: int, labelToModel: map<string, string>)
    requires 0 <= i < |stage2|
    ensures AddAll(Tally([], map[], map[]), Contributions(stage2[..i + 1], labelToModel))
         == AddAll(AddAll(Tally([], map[], map[]), Contributions(stage2[..i], labelToModel)),
                   EvaluationContributions(stage2[i], labelToModel))
  {
    assert stage2[..i + 1][..i] == stage2[..i];
    AddAllAppend(Tally([], map[], map[]), Contributions(stage2[..i], labelToModel), EvaluationContributions(stage2[i], labelToModel));
  }

  /** The body of the loop over the evaluations (backend/council.py:257-292): the rubric
      when there is one, the ordinal ranking otherwise. */
  method AddEvaluation(order: seq<string>, scores: map<string, real>, counts: map<string, int>,
                       ranking: Evaluation, labelToModel: map<string, string>, numOptions: int)
    returns (order': seq<string>, scores': map<string, real>, counts': map<string, int>)
    requires numOptions == |labelToModel|
    ensures Tally(order', scores', counts')
         == AddAll(Tally(order, scores, counts), EvaluationContributions(ranking, labelToModel))
  {
    var rubric := ranking.rubric;
    if rubric.Some? && rubric.value != [] {
      order', scores', counts' := AddRubricScores(order, scores, counts, ranking.model, rubric.value, labelToModel);
    } else {
      var parsedRanking := ranking.parsedRanking;
      if parsedRanking == [] {
        parsedRanking := ParseRanking(ranking.ranking);
      }
      order', scores', counts' := AddOrdinalScores(order, scores, counts, ranking.model, parsedRanking, labelToModel, numOptions);
    }
  }

  /** The evaluation of tests/test_council.py:55-62: `model_1` ranks itself first of two. */
  const SelfRanking: Evaluation :=
    Evaluation("model_1", Marker + EntryLine('1', 'A') + EntryLine('2', 'B'), ["Response A", "Response B"], None)

  const TwoLabels: map<string, string> := map["Response A" := "model_1", "Response B" := "model_2"]

  lemma SelfRankingContributions()
    ensures Contributions([SelfRanking], TwoLabels)
         == [Contribution("model_1", 20.0, 0.5), Contribution("model_2", 10.0, 1.0)]
  {
    assert [SelfRanking][..0] == [];
    assert !UsesRubric(SelfRanking) && FallbackLabels(SelfRanking) == ["Response A", "Response B"];
    assert |TwoLabels| == 2;
    OrdinalScores("model_1", ["Response A", "Response B"], TwoLabels, 2);
  }

  /** tests/test_council.py:50-77: the self-ranked first place (20 points) counts half and
      the peer's second place (10 points) in full, so both models end at 10. */
  lemma ExampleSelfDiscount()
    ensures AggregateRankings([SelfRanking], TwoLabels)
         == [AggregateScore("model_1", 10.0, 10.0, 1), AggregateScore("model_2", 10.0, 10.0, 1)]
  {
    SelfRankingContributions();
    SelfRankingTally();
    var t := Tally(["model_1", "model_2"], map["model_1" := 10.0, "model_2" := 10.0], map["model_1" := 1, "model_2" := 1]);
    var rows := [AggregateScore("model_1", 10.0, 10.0, 1), AggregateScore("model_2", 10.0, 10.0, 1)];
    assert Table(t, t.order) == rows;
    assert SortDesc(rows, ScoreKey) == rows by {
      assert rows[1..] == [rows[1]] && rows[1..][1..] == [];
    }
  }

  /** The halved self-vote and the full vote tally to 10 points each. */
  lemma SelfRankingTally()
    ensures TallyOf([Contribution("model_1", 20.0, 0.5), Contribution("model_2", 10.0, 1.0)])
         == Tally(["model_1", "model_2"], map["model_1" := 10.0, "model_2" := 10.0], map["model_1" := 1, "model_2" := 1])
  {
    var cs := [Contribution("model_1", 20.0, 0.5), Contribution("model_2", 10.0, 1.0)];
    var first := cs[..1];
    assert first[..0] == [] && first[0] == cs[0];
    var t0 := TallyOf(first[..0]);
    assert t0 == Tally([], map[], map[]);
    var t1 := TallyOf(first);
    assert t1 == Add(t0, cs[0]);
    assert cs[0].Score() == 10.0;
    assert t1.order == ["model_1"];
    assert t1.scores == map["model_1" := 10.0];
    assert t1.counts == map["model_1" := 1];
    assert "model_1" != "model_2" && cs[1].Score() == 10.0;
    assert TallyOf(cs) == Add(t1, cs[1]);
  }

  /** The loop building the output rows (backend/council.py:294-301). */
  method TableRowsOf(order: seq<string>, scores: map<string, real>, counts: map<string, int>)
    returns (aggregate: seq<AggregateScore>)
    requires forall m :: m in order ==> m in scores && m in counts
    ensures aggregate == Table(Tally(order, scores, counts), order)
  {
    ghost var t := Tally(order, scores, counts);
    aggregate := [];
    var k := 0;
    while k < |order|
      invariant 0 <= k <= |order|
      invariant aggregate == Table(t, order[..k])
    {
      var model := order[k];
      var total := scores[model];
      aggregate := aggregate + [AggregateScore(model, total, total, counts[model])];
      assert order[..k + 1][..k] == order[..k];
      k := k + 1;
    }
    assert order[..k] == order;
  }

  /** `calculate_aggregate_rankings` (backend/council.py:252-306). */
  method CalculateAggregateRankings(stage2: seq<Evaluation>, labelToModel: map<string, string>)
    returns (aggregate: seq<AggregateScore>)
    ensures aggregate == AggregateRankings(stage2, labelToModel)
  {
    var order: seq<string> := [];
    var scores: map<string, real> := map[];
    var counts: map<string, int> := map[];
    var numOptions := |labelToModel|;
    var i := 0;
    while i < |stage2|
      invariant 0 <= i <= |stage2|
      invariant Tally(order, scores, counts) == AddAll(Tally([], map[], map[]), Contributions(stage2[..i], labelToModel))
    {
      EvaluationStep(stage2, i, labelToModel);
      order, scores, counts := AddEvaluation(order, scores, counts, stage2[i], labelToModel, numOptions);
      i := i + 1;
    }
    assert stage2[..i] == stage2;
    TallyOfCorrect(Contributions(stage2, labelToModel));
    aggregate := TableRowsOf(order, scores, counts);
    aggregate := SortDesc(aggregate, ScoreKey);
  }
}
