/** Choosing the council for a query and naming the conversation
    (`classify_query`, `get_council_for_query` and `generate_conversation_title`,
    backend/council.py:309-383, with the presets of backend/config.py). The router
    and title model replies are inputs: `None` when the query failed. */
module Routing {
  import opened Common
  import opened ResponseCollector

  /** The default council (backend/config.py:12-17). */
  const CouncilModels: seq<string> :=
    ["openai/gpt-5.1", "google/gemini-3-pro-preview", "anthropic/claude-sonnet-4.5", "x-ai/grok-4"]

  /** The keys of `COUNCIL_PRESETS` in their insertion order (backend/config.py:22-29). */
  const Categories: seq<string> := ["CODING", "MATH", "CREATIVE_WRITING", "FACTUAL_RESEARCH", "REASONING", "GENERAL"]

  const General: string := "GENERAL"
  const ManualOverride: string := "MANUAL_OVERRIDE"

  /** `COUNCIL_PRESETS` (backend/config.py:22-29). */
  const CouncilPresets: map<string, seq<string>> := map[
    "CODING" := ["deepseek/deepseek-coder", "anthropic/claude-3.5-sonnet", "openai/gpt-4o"],
    "MATH" := ["openai/o1-mini", "google/gemini-1.5-pro", "anthropic/claude-3.5-sonnet"],
    "CREATIVE_WRITING" := ["anthropic/claude-3-opus", "google/gemini-2.5-flash", "mistralai/mixtral-8x7b-instruct"],
    "FACTUAL_RESEARCH" := ["perplexity/llama-3.1-sonar-large-128k-online", "openai/gpt-4o", "x-ai/grok-2"],
    "REASONING" := ["openai/o1", "anthropic/claude-3.5-sonnet", "google/gemini-1.5-pro"],
    "GENERAL" := CouncilModels
  ]

  /** `str.upper()` on ASCII letters. */
  function UpperChar(c: char): char {
    if 'a' <= c <= 'z' then (c as int - 32) as char else c
  }

  function Upper(s: string): (r: string)
    ensures |r| == |s|
    ensures forall i :: 0 <= i < |s| ==> r[i] == UpperChar(s[i])
  {
    if s == [] then [] else [UpperChar(s[0])] + Upper(s[1..])
  }

  /** `s.split('\n')[0]`: everything before the first line break. */
  function FirstLine(s: string): (r: string)
    ensures |r| <= |s| && r == s[..|r|]
    ensures '\n' !in r
    ensures |r| < |s| ==> s[|r|] == '\n'
  {
    if s == [] || s[0] == '\n' then [] else [s[0]] + FirstLine(s[1..])
  }

  /** The reply text the router's categories are looked for in: stripped, upper-cased,
      and cut to its stripped first line when it has several. */
  function RouterText(content: string): string {
    var c := Upper(Strip(content));
    if '\n' in c then Strip(FirstLine(c)) else c
  }

  /** The first of `cats` that occurs in `text`. */
  function FirstMatch(text: string, cats: seq<string>): Option<string> {
    if cats == [] then None
    else if Contains(text, cats[0]) then Some(cats[0])
    else FirstMatch(text, cats[1..])
  }

  /** What `classify_query` returns for the router's reply. */
  function Classification(reply: Option<Reply>): string {
    if reply.None? then General
    else FirstMatch(RouterText(reply.value.content.GetOr("")), Categories).GetOr(General)
  }

  /** The loop of `classify_query` over the preset keys (backend/council.py:370-372). */
  method MatchCategory(content: string, cats: seq<string>) returns (r: Option<string>)
    ensures r == FirstMatch(content, cats)
  {
    var i := 0;
    while i < |cats|
      invariant 0 <= i <= |cats|
      invariant FirstMatch(content, cats) == FirstMatch(content, cats[i..])
    {
      assert cats[i..][1..] == cats[i + 1..];
      if Contains(content, cats[i]) {
        return Some(cats[i]);
      }
      i := i + 1;
    }
    return None;
  }

  /** `classify_query` once the router has replied (backend/council.py:364-374). */
  method ClassifyQuery(reply: Option<Reply>) returns (category: string)
    ensures category == Classification(reply)
  {
    category := General;
    if reply.Some? {
      var content := Upper(Strip(reply.value.content.GetOr("")));
      if '\n' in content {
        content := Strip(FirstLine(content));
      }
      var found := MatchCategory(content, Categories);
      if found.Some? {
        category := found.value;
      }
    }
  }

  /** `FirstMatch` finds the earliest category that occurs, and finds nothing only when
      none occurs. */
  lemma {:induction false} FirstMatchCorrect(text: string, cats: seq<string>)
    ensures FirstMatch(text, cats).Some? ==>
      exists k :: 0 <= k < |cats| && cats[k] == FirstMatch(text, cats).value && Contains(text, cats[k])
        && forall j :: 0 <= j < k ==> !Contains(text, cats[j])
    ensures FirstMatch(text, cats).None? <==> forall k :: 0 <= k < |cats| ==> !Contains(text, cats[k])
  {
    if cats != [] && !Contains(text, cats[0]) {
      var rest := cats[1..];
      FirstMatchCorrect(text, rest);
      if FirstMatch(text, rest).Some? {
        var k :| 0 <= k < |rest| && rest[k] == FirstMatch(text, rest).value && Contains(text, rest[k])
          && forall j :: 0 <= j < k ==> !Contains(text, rest[j]);
        assert cats[k + 1] == rest[k];
        forall j | 0 <= j < k + 1 ensures !Contains(text, cats[j]) {
          if j > 0 {
            assert cats[j] == rest[j - 1];
          }
        }
      } else {
        forall k | 0 <= k < |cats| ensures !Contains(text, cats[k]) {
          if k > 0 {
            assert cats[k] == rest[k - 1];
          }
        }
      }
    }
  }

  lemma {:induction false} FirstMatchIn(text: string, cats: seq<string>)
    ensures FirstMatch(text, cats).Some? ==> FirstMatch(text, cats).value in cats
  {
    if cats != [] && !Contains(text, cats[0]) {
      FirstMatchIn(text, cats[1..]);
    }
  }

  /** The category is always a preset key, so the `.get` default of
      `get_council_for_query` is never used. */
  lemma ClassificationIsPreset(reply: Option<Reply>)
    ensures Classification(reply) in Categories
    ensures Classification(reply) in CouncilPresets
  {
    if reply.Some? {
      FirstMatchIn(RouterText(reply.value.content.GetOr("")), Categories);
    }
  }

  /** A failed router query, or a reply naming no category, selects the general council. */
  lemma NoCategoryIsGeneral(reply: Option<Reply>)
    requires reply.Some? ==>
      forall k :: 0 <= k < |Categories| ==> !Contains(RouterText(reply.value.content.GetOr("")), Categories[k])
    ensures Classification(reply) == General
  {
    if reply.Some? {
      FirstMatchCorrect(RouterText(reply.value.content.GetOr("")), Categories);
    }
  }

  /** The council and the category reported for it (`get_council_for_query`):
      a non-empty user selection wins, otherwise the classified category's preset. */
  function GetCouncil(userOverride: seq<string>, reply: Option<Reply>): (seq<string>, string) {
    if |userOverride| > 0 then (userOverride, ManualOverride)
    else
      var category := Classification(reply);
      (MapGet(CouncilPresets, category, CouncilPresets[General]), category)
  }

  /** The override is used exactly when it is non-empty; otherwise the council is the
      preset of the reported category, which has at least three members. */
  lemma GetCouncilCorrect(userOverride: seq<string>, reply: Option<Reply>)
    ensures |userOverride| > 0 ==> GetCouncil(userOverride, reply) == (userOverride, ManualOverride)
    ensures |userOverride| == 0 ==>
      var (models, category) := GetCouncil(userOverride, reply);
      category == Classification(reply) && category in CouncilPresets
      && models == CouncilPresets[category] && |models| >= 3
  {
    ClassificationIsPreset(reply);
  }

  /** A reply naming `CODING` selects it whatever else it names, because it is the
      first preset key. */
  lemma CodingFirst(reply: Reply)
    requires Contains(RouterText(reply.content.GetOr("")), "CODING")
    ensures Classification(Some(reply)) == "CODING"
  {
  }

  lemma {:induction false} UpperAppend(a: string, b: string)
    ensures Upper(a + b) == Upper(a) + Upper(b)
  {
  }

  lemma FirstLineAt(s: string, n: nat)
    requires n < |s| && s[n] == '\n'
    requires forall i :: 0 <= i < n ==> s[i] != '\n'
    ensures FirstLine(s) == s[..n]
  {
  }

  /** Categories longer than the text cannot occur in it. */
  lemma {:induction false} LongerCategoriesMiss(text: string, cats: seq<string>)
    requires forall k :: 0 <= k < |cats| ==> |cats[k]| > |text|
    ensures FirstMatch(text, cats) == None
  {
    if cats != [] {
      assert !Contains(text, cats[0]);
      LongerCategoriesMiss(text, cats[1..]);
    }
  }

  lemma TrimShorter(s: string, drop: char -> bool)
    ensures |Trim(s, drop)| <= |s|
  {
  }

  lemma CategoriesLong()
    ensures forall k :: 0 <= k < |Categories| ==> |Categories[k]| >= 4
  {
  }

  lemma ShortFirstLine(head: string, body: string)
    requires 0 < |head| < 4 && '\n' !in head && !IsSpace(head[0])
    requires body != [] && !IsSpace(body[|body| - 1])
    ensures |RouterText(head + "\n" + body)| < 4
  {
    var content := head + "\n" + body;
    assert content[0] == head[0] && content[|content| - 1] == body[|body| - 1];
    TrimUnchanged(content, IsSpace);
    var c := Upper(content);
    assert c[|head|] == '\n';
    forall i | 0 <= i < |head| ensures c[i] != '\n' {
      assert c[i] == UpperChar(head[i]);
    }
    FirstLineAt(c, |head|);
    TrimShorter(c[..|head|], IsSpace);
  }

  /** Only the first line of a multi-line reply is looked at: when it is shorter than
      every category name (a code fence, say), the general council is chosen whatever
      the following lines name. */
  lemma ShortFirstLineIsGeneral(head: string, body: string)
    requires 0 < |head| < 4 && '\n' !in head && !IsSpace(head[0])
    requires body != [] && !IsSpace(body[|body| - 1])
    ensures Classification(Some(Reply(Some(head + "\n" + body)))) == General
  {
    var text := RouterText(head + "\n" + body);
    ShortFirstLine(head, body);
    CategoriesLong();
    LongerCategoriesMiss(text, Categories);
  }

  const DefaultTitle: string := "New Conversation"
  const MaxTitle: nat := 50

  /** The reply text after `.strip()` and `.strip('"\'')`. */
  function TitleText(reply: Reply): string {
    Trim(Strip(reply.content.GetOr(DefaultTitle)), IsQuote)
  }

  /** The title cleanup of `generate_conversation_title` (backend/council.py:329-344). */
  function CleanTitle(reply: Option<Reply>): (title: string)
    ensures |title| <= MaxTitle
  {
    if reply.None? then DefaultTitle
    else
      var t := TitleText(reply.value);
      if |t| > MaxTitle then t[..47] + "..." else t
  }

  /** A long title keeps its first 47 characters and gets `...`. */
  lemma CleanTitleLong(reply: Reply)
    requires |TitleText(reply)| > MaxTitle
    ensures |CleanTitle(Some(reply))| == MaxTitle
    ensures CleanTitle(Some(reply))[..47] == TitleText(reply)[..47]
    ensures EndsWith(CleanTitle(Some(reply)), "...")
  {
    var t := TitleText(reply);
    var r := t[..47] + "...";
    assert CleanTitle(Some(reply)) == r;
    assert r[..47] == t[..47];
    assert r[|r| - 3..] == "...";
  }

  /** A short title is the cleaned text itself, which neither starts nor ends with a
      quote. */
  lemma CleanTitleShort(reply: Reply)
    requires |TitleText(reply)| <= MaxTitle
    ensures CleanTitle(Some(reply)) == TitleText(reply)
    ensures TitleText(reply) != [] ==>
      !IsQuote(TitleText(reply)[0]) && !IsQuote(TitleText(reply)[|TitleText(reply)| - 1])
  {
  }

  /** A reply that is already a clean, short title is kept as it is. */
  lemma CleanTitleKeepsClean(s: string)
    requires |s| <= MaxTitle
    requires s != [] ==> !IsSpace(s[0]) && !IsSpace(s[|s| - 1]) && !IsQuote(s[0]) && !IsQuote(s[|s| - 1])
    ensures CleanTitle(Some(Reply(Some(s)))) == s
  {
    TrimUnchanged(s, IsSpace);
    TrimUnchanged(s, IsQuote);
  }

  /** Whitespace around the reply, then quotes around the title, are removed. */
  lemma CleanTitleUnwraps(pre: string, q1: string, s: string, q2: string, post: string)
    requires forall i :: 0 <= i < |pre| ==> IsSpace(pre[i])
    requires forall i :: 0 <= i < |post| ==> IsSpace(post[i])
    requires q1 != [] && forall i :: 0 <= i < |q1| ==> IsQuote(q1[i])
    requires q2 != [] && forall i :: 0 <= i < |q2| ==> IsQuote(q2[i])
    requires |s| <= MaxTitle
    requires s != [] ==> !IsQuote(s[0]) && !IsQuote(s[|s| - 1])
    ensures CleanTitle(Some(Reply(Some(pre + q1 + s + q2 + post)))) == s
  {
    var inner := q1 + s + q2;
    assert pre + q1 + s + q2 + post == pre + inner + post;
    assert inner[0] == q1[0] && inner[|inner| - 1] == q2[|q2| - 1];
    TrimPadded(pre, inner, post, IsSpace);
    TrimPadded(q1, s, q2, IsQuote);
  }

  /** A failed title query, and a reply without content, give the default title. */
  lemma DefaultTitles()
    ensures CleanTitle(None) == DefaultTitle
    ensures CleanTitle(Some(Reply(None))) == DefaultTitle
  {
    CleanTitleKeepsClean(DefaultTitle);
  }
}
