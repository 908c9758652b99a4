/** Stage 2 of the council (`stage2_collect_rankings`, backend/council.py:62-142): the
    stage-1 answers are anonymised as `Response A`, `Response B`, ..., and every
    evaluator's reply becomes a ranking, taken from a JSON rubric when there is one and
    from the free-text `FINAL RANKING:` block otherwise. */
module PeerEvaluation {
  import opened Common
  import opened Sorting
  import opened RankingParser
  import opened ResponseCollector

  /** Labels are `chr(65 + i)`. Dafny characters are Unicode scalar values, so the
      model covers panels that end before the first surrogate code point. */
  const MaxPanel: nat := 0xD800 - 65

  function LabelLetter(i: nat): char
    requires i < MaxPanel
  {
    (65 + i) as char
  }

  /** `f"Response {chr(65 + i)}"`. */
  function LabelFor(i: nat): (l: string)
    requires i < MaxPanel
    ensures IsResponseToken(l) <==> i < 26
  {
    ResponsePrefix + [LabelLetter(i)]
  }

  /** Different positions get different labels. */
  lemma LabelInjective(i: nat, j: nat)
    requires i < MaxPanel && j < MaxPanel
    ensures LabelFor(i) == LabelFor(j) ==> i == j
  {
    if LabelFor(i) == LabelFor(j) {
      assert LabelFor(i)[9] == LabelFor(j)[9];
    }
  }

  /** `label_to_model` (backend/council.py:65-68, backend/storage.py:304). */
  function LabelToModel(stage1: seq<Candidate>): (m: map<string, string>)
    requires |stage1| <= MaxPanel
    ensures forall k :: k in m ==> exists i :: 0 <= i < |stage1| && k == LabelFor(i)
  {
    if stage1 == [] then map[]
    else
      var n := |stage1| - 1;
      LabelToModel(stage1[..n])[LabelFor(n) := stage1[n].model]
  }

  /** The newest label is not yet a key of the map built from the earlier results. */
  lemma LabelFresh(stage1: seq<Candidate>)
    requires 0 < |stage1| <= MaxPanel
    ensures LabelFor(|stage1| - 1) !in LabelToModel(stage1[..|stage1| - 1])
  {
    var n := |stage1| - 1;
    if LabelFor(n) in LabelToModel(stage1[..n]) {
      var i :| 0 <= i < n && LabelFor(n) == LabelFor(i);
      LabelInjective(i, n);
    }
  }

  /** Position `i` is labelled `LabelFor(i)` and mapped to its own model. */
  lemma {:induction false} LabelToModelMaps(stage1: seq<Candidate>)
    requires |stage1| <= MaxPanel
    ensures forall i :: 0 <= i < |stage1| ==>
      LabelFor(i) in LabelToModel(stage1) && LabelToModel(stage1)[LabelFor(i)] == stage1[i].model
  {
    if stage1 != [] {
      var n := |stage1| - 1;
      var init := stage1[..n];
      LabelToModelMaps(init);
      forall i | 0 <= i < n
        ensures LabelFor(i) in LabelToModel(stage1) && LabelToModel(stage1)[LabelFor(i)] == stage1[i].model
      {
        LabelInjective(i, n);
        KeepsOtherKey(LabelToModel(init), LabelFor(n), stage1[n].model, LabelFor(i));
        assert init[i] == stage1[i];
      }
    }
  }

  lemma KeepsOtherKey(m: map<string, string>, k: string, v: string, other: string)
    requires other in m && other != k
    ensures other in m[k := v] && m[k := v][other] == m[other]
  {
  }

  /** The map has exactly one key per stage-1 result. */
  lemma {:induction false} LabelToModelSize(stage1: seq<Candidate>)
    requires |stage1| <= MaxPanel
    ensures |LabelToModel(stage1)| == |stage1|
  {
    if stage1 != [] {
      var n := |stage1| - 1;
      LabelToModelSize(stage1[..n]);
      LabelFresh(stage1);
    }
  }

  /** The fence and whitespace clean-up that precedes `json.loads`
      (backend/council.py:108-116). */
  function StripFences(fullText: string): (r: string)
    ensures r != [] ==> !IsSpace(r[0]) && !IsSpace(r[|r| - 1])
  {
    Strip(DropClosingFence(DropOpeningFence(Strip(fullText))))
  }

  /** An opening `` ```json `` or, failing that, `` ``` `` is removed. */
  function DropOpeningFence(t: string): string {
    if StartsWith(t, "```json") then t[7..] else if StartsWith(t, "```") then t[3..] else t
  }

  /** A closing `` ``` `` is removed. */
  function DropClosingFence(t: string): string {
    if EndsWith(t, "```") then t[..|t| - 3] else t
  }

  /** A body fenced as a `json` code block, with any whitespace around the fences,
      comes out with its own surrounding whitespace removed. */
  lemma FencedJson(pre: string, body: string, post: string)
    requires forall i :: 0 <= i < |pre| ==> IsSpace(pre[i])
    requires forall i :: 0 <= i < |post| ==> IsSpace(post[i])
    ensures StripFences(pre + ("```json" + body + "```") + post) == Strip(body)
  {
    Affixes("```json", body, "```");
    TrimPadded(pre, "```json" + body + "```", post, IsSpace);
  }

  /** A plain fence works the same way unless the body itself starts with `json`. */
  lemma FencedPlain(pre: string, body: string, post: string)
    requires forall i :: 0 <= i < |pre| ==> IsSpace(pre[i])
    requires forall i :: 0 <= i < |post| ==> IsSpace(post[i])
    requires !StartsWith(body + "```", "json")
    ensures StripFences(pre + ("```" + body + "```") + post) == Strip(body)
  {
    Affixes("```", body, "```");
    TrimPadded(pre, "```" + body + "```", post, IsSpace);
    NotLongerOpening("```", "json", body, "```");
    JsonFence();
  }

  lemma JsonFence()
    ensures "```" + "json" == "```json"
  {
  }

  /** `open + body + close` starts with `open + ext` only when `body + close` starts
      with `ext`. */
  lemma NotLongerOpening(open: string, ext: string, body: string, close: string)
    requires !StartsWith(body + close, ext)
    ensures !StartsWith(open + body + close, open + ext)
  {
    assert open + body + close == open + (body + close);
    StartsWithCommonPrefix(open, body + close, ext);
  }

  /** How `open + body + close` splits into its three parts. */
  lemma Affixes(open: string, body: string, close: string)
    requires open != [] && close != []
    ensures var s := open + body + close;
      s[0] == open[0] && s[|s| - 1] == close[|close| - 1]
      && StartsWith(s, open) && s[|open|..] == body + close
      && EndsWith(body + close, close) && (body + close)[..|body|] == body
  {
    var s := open + body + close;
    assert s == open + (body + close);
  }

  /** Text that is not fenced is only stripped of its surrounding whitespace. */
  lemma Unfenced(fullText: string)
    requires !StartsWith(Strip(fullText), "```") && !EndsWith(Strip(fullText), "```")
    ensures StripFences(fullText) == Strip(fullText)
  {
    var t := Strip(fullText);
    StartsWithLonger(t, "```", "json");
    assert "```" + "json" == "```json";
    TrimUnchanged(t, IsSpace);
  }

  /** One entry of the `evaluations` list of a JSON rubric; a field is `None` when the
      entry does not have it. */
  datatype RubricEntry = RubricEntry(
    responseLabel: Option<string>,
    accuracy: Option<real>,
    reasoning: Option<real>,
    completeness: Option<real>,
    clarity: Option<real>,
    confidence: Option<real>)

  /** What `json.loads` made of the cleaned reply: not JSON at all, or a JSON value and,
      when it is an object with an `evaluations` key, that key's list. */
  datatype Decoded = NotJson | Json(evaluations: Option<seq<RubricEntry>>)

  /** The rubric score: the four criteria (0 when missing) times the confidence (1.0 when
      missing), backend/council.py:125 and 267-273. */
  function RawScore(e: RubricEntry): real {
    (e.accuracy.GetOr(0.0) + e.reasoning.GetOr(0.0) + e.completeness.GetOr(0.0) + e.clarity.GetOr(0.0))
      * e.confidence.GetOr(1.0)
  }

  predicate HasLabel(e: RubricEntry) {
    e.responseLabel.Some?
  }

  /** `f"Response {label}"`; only ever applied to entries that have a label. */
  function TokenOf(e: RubricEntry): string {
    ResponsePrefix + e.responseLabel.GetOr("")
  }

  /** The comprehension of backend/council.py:128: the labelled entries' tokens, in order. */
  function LabelledTokens(entries: seq<RubricEntry>): (r: seq<string>)
    ensures |r| <= |entries|
  {
    if entries == [] then []
    else (if HasLabel(entries[0]) then [TokenOf(entries[0])] else []) + LabelledTokens(entries[1..])
  }

  /** Tokens of a list of entries. */
  function Tokens(entries: seq<RubricEntry>): (r: seq<string>)
    ensures |r| == |entries|
    ensures forall i :: 0 <= i < |entries| ==> r[i] == TokenOf(entries[i])
  {
    if entries == [] then [] else [TokenOf(entries[0])] + Tokens(entries[1..])
  }

  lemma {:induction false} FilterHasLabel(entries: seq<RubricEntry>)
    ensures forall i :: 0 <= i < |Filter(entries, HasLabel)| ==> HasLabel(Filter(entries, HasLabel)[i])
  {
    if entries != [] {
      FilterHasLabel(entries[1..]);
    }
  }

  lemma {:induction false} LabelledTokensFilter(entries: seq<RubricEntry>)
    ensures forall i :: 0 <= i < |Filter(entries, HasLabel)| ==> HasLabel(Filter(entries, HasLabel)[i])
    ensures LabelledTokens(entries) == Tokens(Filter(entries, HasLabel))
  {
    FilterHasLabel(entries);
    if entries != [] {
      LabelledTokensFilter(entries[1..]);
      FilterHasLabel(entries[1..]);
    }
  }

  /** `parsed_ranking` derived from a rubric (backend/council.py:123-128). */
  function RubricRanking(entries: seq<RubricEntry>): seq<string> {
    LabelledTokens(SortDesc(entries, RawScore))
  }

  /** The rubric ranking lists exactly the labelled entries, ordered by descending raw
      score with ties in their original order: it is the tokens of the stable sort of
      the labelled entries (whose properties are `SortDescSorted`, `SortDescPermutes` and
      `SortDescStable`). */
  lemma RubricRankingIsSortedLabels(entries: seq<RubricEntry>)
    ensures forall i :: 0 <= i < |SortDesc(Filter(entries, HasLabel), RawScore)| ==>
      HasLabel(SortDesc(Filter(entries, HasLabel), RawScore)[i])
    ensures RubricRanking(entries) == Tokens(SortDesc(Filter(entries, HasLabel), RawScore))
  {
    var sorted := SortDesc(entries, RawScore);
    LabelledTokensFilter(sorted);
    FilterSortDesc(entries, RawScore, HasLabel);
  }

  /** One stage-2 result: the evaluator, its full reply, the ranking derived from it and
      the rubric list (`None` when there was none). */
  datatype Evaluation = Evaluation(
    model: string,
    ranking: string,
    parsedRanking: seq<string>,
    rubric: Option<seq<RubricEntry>>)

  /** The rubric found in a decoded reply. */
  function RubricOf(decoded: Decoded): Option<seq<RubricEntry>> {
    if decoded.Json? then decoded.evaluations else None
  }

  /** The handling of one evaluator's reply (backend/council.py:102-140); `decoded` is
      what `json.loads` made of the cleaned text. */
  function EvaluateReply(model: string, fullText: string, decoded: Decoded): Evaluation {
    var rubric := RubricOf(decoded);
    var fromRubric := if rubric.Some? then RubricRanking(rubric.value) else [];
    Evaluation(model, fullText, if fromRubric == [] then ParseRanking(fullText) else fromRubric, rubric)
  }

  /** A rubric with at least one labelled entry decides the ranking. */
  lemma RubricDecides(model: string, fullText: string, entries: seq<RubricEntry>)
    requires exists i :: 0 <= i < |entries| && HasLabel(entries[i])
    ensures EvaluateReply(model, fullText, Json(Some(entries))).parsedRanking
         == Tokens(SortDesc(Filter(entries, HasLabel), RawScore))
    ensures EvaluateReply(model, fullText, Json(Some(entries))).rubric == Some(entries)
  {
    RubricRankingIsSortedLabels(entries);
    var i :| 0 <= i < |entries| && HasLabel(entries[i]);
    SortDescPermutes(Filter(entries, HasLabel), RawScore);
    FilterKeeps(entries, HasLabel, i);
  }

  lemma {:induction false} FilterKeeps<T>(s: seq<T>, p: T -> bool, i: nat)
    requires i < |s| && p(s[i])
    ensures s[i] in multiset(Filter(s, p))
  {
    if i > 0 {
      FilterKeeps(s[1..], p, i - 1);
      assert s[1..][i - 1] == s[i];
    }
  }

  /** Otherwise (no JSON, no `evaluations`, or no labelled entry) the free-text parser is
      applied to the reply as received, fences and all. */
  lemma TextFallback(model: string, fullText: string, decoded: Decoded)
    requires RubricOf(decoded).Some? ==>
      forall i :: 0 <= i < |RubricOf(decoded).value| ==> !HasLabel(RubricOf(decoded).value[i])
    ensures EvaluateReply(model, fullText, decoded).parsedRanking == ParseRanking(fullText)
    ensures EvaluateReply(model, fullText, decoded).ranking == fullText
  {
    var rubric := RubricOf(decoded);
    if rubric.Some? {
      var entries := rubric.value;
      RubricRankingIsSortedLabels(entries);
      NoLabelledEntries(entries);
    }
  }

  lemma {:induction false} NoLabelledEntries(entries: seq<RubricEntry>)
    requires forall i :: 0 <= i < |entries| ==> !HasLabel(entries[i])
    ensures Filter(entries, HasLabel) == []
  {
    if entries != [] {
      NoLabelledEntries(entries[1..]);
    }
  }

  /** The stage-2 results for a list of replies, which `decode` turns into JSON. */
  function Evaluations(replies: Replies, decode: string -> Decoded): (r: seq<Evaluation>)
    ensures |r| <= |replies|
  {
    if replies == [] then []
    else Evaluations(replies[..|replies| - 1], decode) + EvaluationOf(replies[|replies| - 1], decode)
  }

  /** The stage-2 result of one reply: none for a failed query. */
  function EvaluationOf(reply: (string, Option<Reply>), decode: string -> Decoded): (r: seq<Evaluation>)
    ensures |r| <= 1
  {
    if Answered(reply) then
      var fullText := CandidateOf(reply).response;
      [EvaluateReply(reply.0, fullText, decode(StripFences(fullText)))]
    else []
  }

  /** Each result `e[i]` belongs to the evaluator of `c[i]` and carries its full reply. */
  predicate Follows(e: seq<Evaluation>, c: seq<Candidate>) {
    |e| == |c| && forall i :: 0 <= i < |c| ==> e[i].model == c[i].model && e[i].ranking == c[i].response
  }

  lemma FollowsAppend(e: seq<Evaluation>, c: seq<Candidate>, e1: seq<Evaluation>, c1: seq<Candidate>)
    requires Follows(e, c) && Follows(e1, c1)
    ensures Follows(e + e1, c + c1)
  {
    forall i | 0 <= i < |c + c1| ensures (e + e1)[i].model == (c + c1)[i].model && (e + e1)[i].ranking == (c + c1)[i].response {
      if i >= |c| {
        assert (e + e1)[i] == e1[i - |c|] && (c + c1)[i] == c1[i - |c|];
      }
    }
  }

  lemma EvaluatesReply(reply: (string, Option<Reply>), decode: string -> Decoded)
    ensures Follows(EvaluationOf(reply, decode), if Answered(reply) then [CandidateOf(reply)] else [])
  {
  }

  /** Stage 2 keeps one result per answered evaluator, in reply order, carrying the
      evaluator and its full reply. */
  lemma {:induction false} EvaluationsFollowReplies(replies: Replies, decode: string -> Decoded)
    ensures Follows(Evaluations(replies, decode), Successes(replies))
  {
    if replies != [] {
      var n := |replies| - 1;
      EvaluationsFollowReplies(replies[..n], decode);
      EvaluatesReply(replies[n], decode);
      FollowsAppend(Evaluations(replies[..n], decode), Successes(replies[..n]), EvaluationOf(replies[n], decode),
                    if Answered(replies[n]) then [CandidateOf(replies[n])] else []);
    }
  }

  lemma EvaluationsAppend(replies: Replies, reply: (string, Option<Reply>), decode: string -> Decoded,
                          done: seq<Evaluation>)
    requires done == Evaluations(replies, decode)
    ensures Evaluations(replies + [reply], decode) == done + EvaluationOf(reply, decode)
  {
    assert (replies + [reply])[..|replies|] == replies;
  }

  /** The clean-up of backend/council.py:108-116 as written, one step at a time. */
  method CleanForJson(fullText: string) returns (cleanText: string)
    ensures cleanText == StripFences(fullText)
  {
    cleanText := Strip(fullText);
    ghost var stripped := cleanText;
    if StartsWith(cleanText, "```json") {
      cleanText := cleanText[7..];
    } else if StartsWith(cleanText, "```") {
      cleanText := cleanText[3..];
    }
    assert cleanText == DropOpeningFence(stripped);
    ghost var unopened := cleanText;
    if EndsWith(cleanText, "```") {
      cleanText := cleanText[..|cleanText| - 3];
    }
    assert cleanText == DropClosingFence(unopened);
    cleanText := Strip(cleanText);
  }

  /** The stage-2 loop (backend/council.py:99-140), returning the results and the label
      map. */
  method CollectRankings(stage1: seq<Candidate>, replies: Replies, decode: string -> Decoded)
    returns (results: seq<Evaluation>, labelToModel: map<string, string>)
    requires |stage1| <= MaxPanel
    ensures results == Evaluations(replies, decode)
    ensures labelToModel == LabelToModel(stage1)
  {
    labelToModel := LabelToModel(stage1);
    results := [];
    var i := 0;
    while i < |replies|
      invariant 0 <= i <= |replies|
      invariant results == Evaluations(replies[..i], decode)
    {
      var evaluation := EvaluateOne(replies[i], decode);
      TakeOneMore(replies, i);
      EvaluationsAppend(replies[..i], replies[i], decode, results);
      results := results + evaluation;
      i := i + 1;
    }
    assert replies[..i] == replies;
  }

  /** The body of the stage-2 loop for one reply (backend/council.py:102-140). */
  method EvaluateOne(reply: (string, Option<Reply>), decode: string -> Decoded) returns (r: seq<Evaluation>)
    ensures r == EvaluationOf(reply, decode)
  {
    var (model, response) := reply;
    if response.None? {
      return [];
    }
    var fullText := response.value.content.GetOr("");
    var cleanText := CleanForJson(fullText);
    var data := decode(cleanText);
    var rubric: Option<seq<RubricEntry>> := None;
    var parsedRanking: seq<string> := [];
    if data.Json? && data.evaluations.Some? {
      rubric := data.evaluations;
      parsedRanking := RubricRanking(rubric.value);
    }
    if parsedRanking == [] {
      parsedRanking := ParseRanking(fullText);
    }
    r := [Evaluation(model, fullText, parsedRanking, rubric)];
  }

  /** The labels of a three-model panel. */
  lemma ExampleLabels()
    ensures LabelFor(0) == "Response A" && LabelFor(1) == "Response B" && LabelFor(2) == "Response C"
  {
  }
}
