/** Stage 3 of the council (`stage3_synthesize_final`, backend/council.py:146-203): the
    chairman's reply arrives as a stream of text chunks, which are passed on one by one and
    then reported together in a final event. The chunks are an input. */
module Synthesizer {
  import opened Common

  /** `CHAIRMAN_MODEL` (backend/config.py:32). */
  const ChairmanModel: string := "google/gemini-3-pro-preview"

  /** What the stage-3 generator yields: a chunk of text, or the final dictionary with
      `done` set. */
  datatype StreamEvent = Fragment(text: string) | Completed(model: string, response: string)

  /** One `Fragment` per chunk, in order. */
  function Fragments(chunks: seq<string>): (r: seq<StreamEvent>)
    ensures |r| == |chunks|
  {
    if chunks == [] then [] else Fragments(chunks[..|chunks| - 1]) + [Fragment(chunks[|chunks| - 1])]
  }

  /** Everything the generator yields for `chunks`. */
  function Stream(chunks: seq<string>): seq<StreamEvent> {
    Fragments(chunks) + [Completed(ChairmanModel, Concat(chunks))]
  }

  /** The generator's loop (backend/council.py:193-203): each chunk is passed through and
      appended to the accumulated text, which the final event carries. */
  method Synthesize(chunks: seq<string>) returns (events: seq<StreamEvent>)
    ensures events == Stream(chunks)
  {
    var accumulated := "";
    events := [];
    var i := 0;
    while i < |chunks|
      invariant 0 <= i <= |chunks|
      invariant accumulated == Concat(chunks[..i])
      invariant events == Fragments(chunks[..i])
    {
      assert chunks[..i + 1][..i] == chunks[..i];
      accumulated := accumulated + chunks[i];
      events := events + [Fragment(chunks[i])];
      i := i + 1;
    }
    assert chunks[..i] == chunks;
    events := events + [Completed(ChairmanModel, accumulated)];
  }

  function SumLengths(chunks: seq<string>): nat {
    if chunks == [] then 0 else SumLengths(chunks[..|chunks| - 1]) + |chunks[|chunks| - 1]|
  }

  /** Each chunk sits in the response right after the ones before it and right before
      the ones after it. */
  lemma ConcatLayout(chunks: seq<string>, i: nat)
    requires i < |chunks|
    ensures Concat(chunks) == Concat(chunks[..i]) + chunks[i] + Concat(chunks[i + 1..])
  {
    SplitAt(chunks, i);
    ConcatAround(chunks[..i], chunks[i], chunks[i + 1..]);
  }

  lemma ConcatAround(pre: seq<string>, chunk: string, post: seq<string>)
    ensures Concat(pre + [chunk] + post) == Concat(pre) + chunk + Concat(post)
  {
    ConcatAppend(pre + [chunk], post);
    ConcatAppend(pre, [chunk]);
    assert Concat([chunk]) == Concat([]) + chunk;
  }

  /** No text is lost or added: the response is exactly as long as the chunks together. */
  lemma {:induction false} ConcatLength(chunks: seq<string>)
    ensures |Concat(chunks)| == SumLengths(chunks)
  {
    if chunks != [] {
      ConcatLength(chunks[..|chunks| - 1]);
    }
  }

  /** The stream has one fragment per chunk, in order, and ends with the single `done`
      event, from the chairman, holding the whole reply. */
  lemma {:induction false} StreamShape(chunks: seq<string>)
    ensures |Stream(chunks)| == |chunks| + 1
    ensures forall i :: 0 <= i < |chunks| ==> Stream(chunks)[i] == Fragment(chunks[i])
    ensures Stream(chunks)[|chunks|] == Completed(ChairmanModel, Concat(chunks))
  {
    FragmentsAt(chunks);
  }

  lemma {:induction false} FragmentsAt(chunks: seq<string>)
    ensures forall i :: 0 <= i < |chunks| ==> Fragments(chunks)[i] == Fragment(chunks[i])
  {
    if chunks != [] {
      FragmentsAt(chunks[..|chunks| - 1]);
    }
  }

  /** The last `done` event of a stream, which the non-streaming driver keeps
      (backend/council.py:426-432); `None` when there is none. */
  function LastCompleted(events: seq<StreamEvent>): (r: Option<StreamEvent>)
    ensures r.Some? ==> r.value.Completed? && r.value in events
    ensures r.None? <==> forall i :: 0 <= i < |events| ==> !events[i].Completed?
  {
    if events == [] then None
    else if events[|events| - 1].Completed? then Some(events[|events| - 1])
    else
      var r := LastCompleted(events[..|events| - 1]);
      assert forall i :: 0 <= i < |events| - 1 ==> events[..|events| - 1][i] == events[i];
      r
  }

  /** The buffering loop of `run_full_council` over the stream. */
  method BufferFinal(events: seq<StreamEvent>) returns (result: Option<StreamEvent>)
    ensures result == LastCompleted(events)
  {
    result := None;
    var i := 0;
    while i < |events|
      invariant 0 <= i <= |events|
      invariant result == LastCompleted(events[..i])
    {
      assert events[..i + 1][..i] == events[..i];
      if events[i].Completed? {
        result := Some(events[i]);
      }
      i := i + 1;
    }
    assert events[..i] == events;
  }

  /** The buffered stage-3 result is the chairman's whole reply. */
  lemma FinalIsWholeReply(chunks: seq<string>)
    ensures LastCompleted(Stream(chunks)) == Some(Completed(ChairmanModel, Concat(chunks)))
  {
  }
}
