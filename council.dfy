/** The non-streaming driver `run_full_council` (backend/council.py:387-437): resolve the
    council, collect stage 1, stop when fewer than two models answered, otherwise rank,
    aggregate and synthesise. The query layer is a pair of functions from the models asked
    to their replies, and the chairman's stream is its list of chunks. */
module Council {
  import opened Common
  import opened ResponseCollector
  import opened PeerEvaluation
  import opened AggregateScorer
  import opened Routing
  import opened Synthesizer
  import opened Sorting

  /** The fewest stage-1 results that stage 2 runs on. */
  const MinResults: nat := 2

  const TooFewMessage: string := "At least two models are required for consensus. Please try again."

  /** A stage-3 result as the driver returns it. */
  datatype FinalResult = FinalResult(model: string, response: string)

  /** The metadata dictionary: only the category when the run stopped early. */
  datatype Metadata =
    | CategoryOnly(detectedCategory: string)
    | Full(labelToModel: map<string, string>, aggregateRankings: seq<AggregateScore>, detectedCategory: string)

  /** The returned tuple `(stage1, stage2, stage3, metadata)`. */
  datatype Outcome = Outcome(stage1: seq<Candidate>, stage2: seq<Evaluation>, stage3: Option<FinalResult>, metadata: Metadata)

  /** The dictionary kept from a `done` event. */
  function FinalOf(e: Option<StreamEvent>): Option<FinalResult> {
    if e.Some? && e.value.Completed? then Some(FinalResult(e.value.model, e.value.response)) else None
  }

  /** The models the run queries. */
  function Resolved(userOverride: seq<string>, routerReply: Option<Reply>): seq<string> {
    GetCouncil(userOverride, routerReply).0
  }

  /** What `run_full_council` returns. */
  function CouncilRun(userOverride: seq<string>, routerReply: Option<Reply>, ask: seq<string> -> Replies,
                      rank: seq<string> -> Replies, decode: string -> Decoded, chunks: seq<string>): Outcome
    requires |Successes(ask(Resolved(userOverride, routerReply)))| <= MaxPanel
  {
    var (models, category) := GetCouncil(userOverride, routerReply);
    var stage1 := Successes(ask(models));
    if |stage1| < MinResults then
      Outcome(stage1, [], Some(FinalResult("error", TooFewMessage)), CategoryOnly(category))
    else
      var labelToModel := LabelToModel(stage1);
      var stage2 := Evaluations(rank(models), decode);
      Outcome(stage1, stage2, FinalOf(LastCompleted(Stream(chunks))),
              Full(labelToModel, AggregateRankings(stage2, labelToModel), category))
  }

  /** `get_council_for_query` with the classification done by its loop. */
  method ResolveCouncil(userOverride: seq<string>, routerReply: Option<Reply>)
    returns (models: seq<string>, category: string)
    ensures (models, category) == GetCouncil(userOverride, routerReply)
  {
    if |userOverride| > 0 {
      return userOverride, ManualOverride;
    }
    category := ClassifyQuery(routerReply);
    models := MapGet(CouncilPresets, category, CouncilPresets[General]);
  }

  /** The driver, step by step. */
  method RunFullCouncil(userOverride: seq<string>, routerReply: Option<Reply>, ask: seq<string> -> Replies,
                        rank: seq<string> -> Replies, decode: string -> Decoded, chunks: seq<string>)
    returns (outcome: Outcome)
    requires |Successes(ask(Resolved(userOverride, routerReply)))| <= MaxPanel
    ensures outcome == CouncilRun(userOverride, routerReply, ask, rank, decode, chunks)
  {
    var models, category := ResolveCouncil(userOverride, routerReply);
    var stage1 := CollectResponses(ask(models));
    if |stage1| < MinResults {
      return Outcome(stage1, [], Some(FinalResult("error", TooFewMessage)), CategoryOnly(category));
    }
    var stage2, labelToModel := CollectRankings(stage1, rank(models), decode);
    var aggregate := CalculateAggregateRankings(stage2, labelToModel);
    var events := Synthesize(chunks);
    var final := BufferFinal(events);
    outcome := Outcome(stage1, stage2, FinalOf(final), Full(labelToModel, aggregate, category));
  }

  /** With fewer than two stage-1 results the run stops: no rankings, the fixed error
      result, and metadata holding only the category. */
  lemma TooFewStops(userOverride: seq<string>, routerReply: Option<Reply>, ask: seq<string> -> Replies,
                    rank: seq<string> -> Replies, decode: string -> Decoded, chunks: seq<string>)
    requires |Successes(ask(Resolved(userOverride, routerReply)))| < MinResults
    ensures var o := CouncilRun(userOverride, routerReply, ask, rank, decode, chunks);
      o.stage1 == Successes(ask(Resolved(userOverride, routerReply)))
      && o.stage2 == []
      && o.stage3 == Some(FinalResult("error", TooFewMessage))
      && o.metadata == CategoryOnly(GetCouncil(userOverride, routerReply).1)
  {
  }

  /** With at least two results every stage runs: stage 2 has one result per answered
      evaluator, the label map sends each position's label to its model, the aggregate
      has a row per credited model in descending order, and stage 3 is the chairman's
      whole streamed reply. */
  lemma FullRunCorrect(userOverride: seq<string>, routerReply: Option<Reply>, ask: seq<string> -> Replies,
                       rank: seq<string> -> Replies, decode: string -> Decoded, chunks: seq<string>)
    requires MinResults <= |Successes(ask(Resolved(userOverride, routerReply)))| <= MaxPanel
    ensures var o := CouncilRun(userOverride, routerReply, ask, rank, decode, chunks);
      var stage1 := Successes(ask(Resolved(userOverride, routerReply)));
      o.stage1 == stage1
      && |o.stage2| == |Successes(rank(Resolved(userOverride, routerReply)))|
      && o.stage3 == Some(FinalResult(ChairmanModel, Concat(chunks)))
      && o.metadata.Full?
      && o.metadata.detectedCategory == GetCouncil(userOverride, routerReply).1
      && |o.metadata.labelToModel| == |stage1|
      && (forall i :: 0 <= i < |stage1| ==>
            LabelFor(i) in o.metadata.labelToModel && o.metadata.labelToModel[LabelFor(i)] == stage1[i].model)
      && SortedDesc(o.metadata.aggregateRankings, ScoreKey)
  {
    var models := Resolved(userOverride, routerReply);
    var stage1 := Successes(ask(models));
    FinalIsWholeReply(chunks);
    EvaluationsFollowReplies(rank(models), decode);
    LabelToModelMaps(stage1);
    LabelToModelSize(stage1);
    AggregateRankingsCorrect(Evaluations(rank(models), decode), LabelToModel(stage1));
  }

  /** tests/test_council.py:107-123: when every model of the panel times out, stage 1
      is empty and the run stops with the error result. */
  lemma AllTimeoutsStop(userOverride: seq<string>, routerReply: Option<Reply>, ask: seq<string> -> Replies,
                        rank: seq<string> -> Replies, decode: string -> Decoded, chunks: seq<string>)
    requires var replies := ask(Resolved(userOverride, routerReply));
      forall i :: 0 <= i < |replies| ==> replies[i].1.None?
    ensures |Successes(ask(Resolved(userOverride, routerReply)))| <= MaxPanel
    ensures var o := CouncilRun(userOverride, routerReply, ask, rank, decode, chunks);
      o.stage1 == [] && o.stage2 == [] && o.stage3 == Some(FinalResult("error", TooFewMessage))
  {
    NoneAnswered(ask(Resolved(userOverride, routerReply)));
  }

  /** A non-empty selection of the user is the panel that is asked. */
  lemma OverrideIsAsked(userOverride: seq<string>, routerReply: Option<Reply>)
    requires |userOverride| > 0
    ensures Resolved(userOverride, routerReply) == userOverride
  {
    GetCouncilCorrect(userOverride, routerReply);
  }
}
