/** Stage 1 of the council (`stage1_collect_responses`, backend/council.py:34-40): the
    replies of the parallel query are filtered down to the models that answered. */
module ResponseCollector {
  import opened Common

  /** A model's reply as returned by the query layer; `content` is `None` when the
      reply carries no `content` field. */
  datatype Reply = Reply(content: Option<string>)

  /** One stage-1 result: the model and the text it answered. */
  datatype Candidate = Candidate(model: string, response: string)

  /** The query layer's result, model by model in its iteration order; `None` marks a
      model whose query failed or timed out. */
  type Replies = seq<(string, Option<Reply>)>

  predicate Answered(r: (string, Option<Reply>)) {
    r.1.Some?
  }

  /** The stage-1 result for an answered model; a reply without content counts as ''. */
  function CandidateOf(r: (string, Option<Reply>)): Candidate
    requires Answered(r)
  {
    Candidate(r.0, r.1.value.content.GetOr(""))
  }

  /** The stage-1 results: one per answered model, in reply order. */
  function Successes(replies: Replies): (r: seq<Candidate>)
    ensures |r| <= |replies|
  {
    if replies == [] then []
    else
      var last := replies[|replies| - 1];
      Successes(replies[..|replies| - 1]) + (if Answered(last) then [CandidateOf(last)] else [])
  }

  /** The collection loop. */
  method CollectResponses(replies: Replies) returns (results: seq<Candidate>)
    ensures results == Successes(replies)
  {
    results := [];
    var i := 0;
    while i < |replies|
      invariant 0 <= i <= |replies|
      invariant results == Successes(replies[..i])
    {
      var (model, response) := replies[i];
      assert replies[..i + 1][..i] == replies[..i];
      if response.Some? {
        results := results + [Candidate(model, response.value.content.GetOr(""))];
      }
      i := i + 1;
    }
    assert replies[..i] == replies;
  }

  lemma {:induction false} SuccessesAppend(a: Replies, b: Replies)
    ensures Successes(a + b) == Successes(a) + Successes(b)
    decreases |b|
  {
    if b == [] {
      assert a + b == a;
    } else {
      var b' := b[..|b| - 1];
      assert (a + b)[..|a + b| - 1] == a + b';
      SuccessesAppend(a, b');
    }
  }

  /** Every answered model yields a result and every result comes from an answered
      model, with the reply's content. */
  lemma {:induction false} SuccessesMembers(replies: Replies, c: Candidate)
    ensures c in Successes(replies)
        <==> exists i :: 0 <= i < |replies| && Answered(replies[i]) && CandidateOf(replies[i]) == c
  {
    if replies != [] {
      var init := replies[..|replies| - 1];
      SuccessesMembers(init, c);
      if exists i :: 0 <= i < |init| && Answered(init[i]) && CandidateOf(init[i]) == c {
        var i :| 0 <= i < |init| && Answered(init[i]) && CandidateOf(init[i]) == c;
        assert replies[i] == init[i];
      }
      if exists i :: 0 <= i < |replies| && Answered(replies[i]) && CandidateOf(replies[i]) == c {
        var i :| 0 <= i < |replies| && Answered(replies[i]) && CandidateOf(replies[i]) == c;
        if i < |init| {
          assert init[i] == replies[i];
        }
      }
    }
  }

  /** When every model answers, stage 1 keeps every reply, in order. */
  lemma {:induction false} AllAnswered(replies: Replies)
    requires forall i :: 0 <= i < |replies| ==> Answered(replies[i])
    ensures |Successes(replies)| == |replies|
    ensures forall i :: 0 <= i < |replies| ==> Successes(replies)[i] == CandidateOf(replies[i])
  {
    if replies != [] {
      AllAnswered(replies[..|replies| - 1]);
    }
  }

  /** When no model answers, stage 1 is empty. */
  lemma {:induction false} NoneAnswered(replies: Replies)
    requires forall i :: 0 <= i < |replies| ==> !Answered(replies[i])
    ensures Successes(replies) == []
  {
    if replies != [] {
      NoneAnswered(replies[..|replies| - 1]);
    }
  }

  /** tests/test_council.py:80-105: one model answers, the other times out; the result
      is exactly the answering model with its content. */
  lemma ExamplePartialFailure()
    ensures Successes([("model_success", Some(Reply(Some("Success content")))), ("model_timeout", None)])
         == [Candidate("model_success", "Success content")]
  {
    var replies: Replies := [("model_success", Some(Reply(Some("Success content")))), ("model_timeout", None)];
    assert replies[..1][..0] == [];
    assert replies[..1] == [replies[0]];
  }
}
