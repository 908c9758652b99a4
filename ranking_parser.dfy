/** The free-text fallback parser for stage-2 evaluations
    (`parse_ranking_from_text`, backend/council.py). The regular expression
    `\d+\.\s*Response [A-Z]` and `re.findall` are written out as a scanner. */
module RankingParser {
  import opened Common

  const Marker: string := "FINAL RANKING:"
  const ResponsePrefix: string := "Response "

  predicate IsDigit(c: char) {
    '0' <= c <= '9'
  }

  predicate IsUpper(c: char) {
    'A' <= c <= 'Z'
  }

  /** A token the parser can produce: `Response ` followed by one capital letter. */
  predicate IsResponseToken(t: string) {
    |t| == |ResponsePrefix| + 1 && t[..|ResponsePrefix|] == ResponsePrefix && IsUpper(t[|ResponsePrefix|])
  }

  /** Length of the longest prefix of `s` whose characters all satisfy `p`
      (what a greedy `\d+` or `\s*` consumes). */
  function LeadingRun(s: string, p: char -> bool): (n: nat)
    ensures n <= |s|
    ensures forall i :: 0 <= i < n ==> p(s[i])
    ensures n < |s| ==> !p(s[n])
  {
    if s != [] && p(s[0]) then 1 + LeadingRun(s[1..], p) else 0
  }

  /** The length of the match of `\d+\.\s*Response [A-Z]` anchored at the start of `s`,
      if there is one. Backtracking cannot help: `\d+` must stop before the `.` and
      `\s*` before the `R`, so the greedy runs are the only candidates. */
  function MatchAt(s: string): (m: Option<nat>)
    ensures m.Some? ==> 11 <= m.value <= |s| && IsUpper(s[m.value - 1])
    ensures m.Some? ==> s[m.value - 10..m.value - 1] == ResponsePrefix
  {
    var d := LeadingRun(s, IsDigit);
    if d == 0 || d == |s| || s[d] != '.' then None
    else
      var k := d + 1 + LeadingRun(s[d + 1..], IsSpace);
      if k + 10 <= |s| && s[k..k + 9] == ResponsePrefix && IsUpper(s[k + 9]) then Some(k + 10)
      else None
  }

  /** `re.findall` of the numbered-entry pattern, each match reduced to its
      `Response X` part (which is its last ten characters). */
  function FindEntries(s: string): (r: seq<string>)
    ensures forall i :: 0 <= i < |r| ==> IsResponseToken(r[i])
    decreases |s|
  {
    if s == [] then []
    else match MatchAt(s)
      case Some(n) =>
        var rest := FindEntries(s[n..]);
        TokenAt(s, n);
        TokensCons(s[n - 10..n], rest);
        [s[n - 10..n]] + rest
      case None => FindEntries(s[1..])
  }

  lemma TokenAt(s: string, n: nat)
    requires 11 <= n <= |s| && IsUpper(s[n - 1]) && s[n - 10..n - 1] == ResponsePrefix
    ensures IsResponseToken(s[n - 10..n])
  {
    assert s[n - 10..n][..|ResponsePrefix|] == s[n - 10..n - 1];
  }

  lemma TokensCons(t: string, rest: seq<string>)
    requires IsResponseToken(t) && forall i :: 0 <= i < |rest| ==> IsResponseToken(rest[i])
    ensures forall i :: 0 <= i < |[t] + rest| ==> IsResponseToken(([t] + rest)[i])
  {
    forall i | 0 < i < |[t] + rest| ensures IsResponseToken(([t] + rest)[i]) {
      assert ([t] + rest)[i] == rest[i - 1];
    }
  }

  /** The index of the last occurrence of the marker starting at or before `i`. */
  function LastMarkerFrom(s: string, i: int): (r: Option<nat>)
    requires -1 <= i
    ensures r.Some? ==> r.value <= i && OccursAt(s, Marker, r.value)
    ensures r.Some? ==> forall j :: r.value < j <= i ==> !OccursAt(s, Marker, j)
    ensures r.None? ==> forall j :: 0 <= j <= i ==> !OccursAt(s, Marker, j)
    decreases i + 1
  {
    if i < 0 then None
    else if OccursAt(s, Marker, i) then Some(i)
    else LastMarkerFrom(s, i - 1)
  }

  /** `ranking_text.split("FINAL RANKING:")[-1]` when the marker is present. Because
      no proper prefix of the marker is also a suffix of it, occurrences cannot overlap,
      and the last piece of the split is the text after the last occurrence. */
  function RankingSection(text: string): (r: Option<string>)
    ensures r.None? <==> !Contains(text, Marker)
    ensures r.Some? ==> !Contains(r.value, Marker)
    ensures r.Some? ==> exists k :: OccursAt(text, Marker, k) && r.value == text[k + |Marker|..]
  {
    if |text| < |Marker| then None
    else match LastMarkerFrom(text, |text| - |Marker|)
      case None => None
      case Some(k) =>
        var tail := text[k + |Marker|..];
        assert !Contains(tail, Marker) by {
          forall j | 0 <= j <= |tail| - |Marker| ensures !OccursAt(tail, Marker, j) {
            assert tail[j..j + |Marker|] == text[k + |Marker| + j..k + |Marker| + j + |Marker|];
            assert !OccursAt(text, Marker, k + |Marker| + j);
          }
        }
        Some(tail)
  }

  /** `parse_ranking_from_text`. */
  function ParseRanking(text: string): (r: seq<string>)
    ensures !Contains(text, Marker) ==> r == []
    ensures forall i :: 0 <= i < |r| ==> IsResponseToken(r[i])
  {
    match RankingSection(text)
    case None => []
    case Some(section) => FindEntries(section)
  }

  /** A run of `n` characters satisfying `p`, followed by one that does not. */
  lemma LeadingRunIs(s: string, p: char -> bool, n: nat)
    requires n < |s| && !p(s[n])
    requires forall i :: 0 <= i < n ==> p(s[i])
    ensures LeadingRun(s, p) == n
  {
  }

  /** A numbered entry at the front of `s`: digits up to `d`, a dot, whitespace up to
      `k`, then `Response X`. The scanner reports `Response X` and resumes after it. */
  lemma EntryAt(s: string, d: nat, k: nat)
    requires 0 < d && d + 1 <= k && k + 10 <= |s|
    requires forall i :: 0 <= i < d ==> IsDigit(s[i])
    requires s[d] == '.'
    requires forall i :: d + 1 <= i < k ==> IsSpace(s[i])
    requires s[k..k + 9] == ResponsePrefix && IsUpper(s[k + 9])
    ensures FindEntries(s) == [s[k..k + 10]] + FindEntries(s[k + 10..])
  {
    MatchEntry(s, d, k);
    var n := k + 10;
    assert s != [];
    assert FindEntries(s) == [s[n - 10..n]] + FindEntries(s[n..]);
  }

  lemma MatchEntry(s: string, d: nat, k: nat)
    requires 0 < d && d + 1 <= k && k + 10 <= |s|
    requires forall i :: 0 <= i < d ==> IsDigit(s[i])
    requires s[d] == '.'
    requires forall i :: d + 1 <= i < k ==> IsSpace(s[i])
    requires s[k..k + 9] == ResponsePrefix && IsUpper(s[k + 9])
    ensures MatchAt(s) == Some(k + 10)
  {
    LeadingRunIs(s, IsDigit, d);
    var t := s[d + 1..];
    assert t[k - d - 1] == s[k];
    assert s[k] == s[k..k + 9][0];
    LeadingRunIs(t, IsSpace, k - d - 1);
  }

  /** The same, for an entry written out as `<digits>.<whitespace>Response X`. */
  lemma EntryThenRest(digits: string, ws: string, letter: char, rest: string)
    requires digits != [] && forall i :: 0 <= i < |digits| ==> IsDigit(digits[i])
    requires forall i :: 0 <= i < |ws| ==> IsSpace(ws[i])
    requires IsUpper(letter)
    ensures FindEntries(digits + (['.'] + (ws + (ResponsePrefix + ([letter] + rest)))))
         == [ResponsePrefix + [letter]] + FindEntries(rest)
  {
    var w := ws + (ResponsePrefix + ([letter] + rest));
    var s := digits + (['.'] + w);
    var d := |digits|;
    var k := d + 1 + |ws|;
    DigitsThenDot(digits, w);
    SpacesThen(s, d + 1, ws, ResponsePrefix + ([letter] + rest));
    LabelThen(s, k, letter, rest);
    EntryAt(s, d, k);
  }

  lemma DigitsThenDot(digits: string, w: string)
    requires forall i :: 0 <= i < |digits| ==> IsDigit(digits[i])
    ensures var s := digits + (['.'] + w);
      (forall i :: 0 <= i < |digits| ==> IsDigit(s[i])) && s[|digits|] == '.' && s[|digits| + 1..] == w
  {
    var s := digits + (['.'] + w);
    assert s[..|digits|] == digits;
  }

  lemma SpacesThen(s: string, j: nat, ws: string, e: string)
    requires j <= |s| && s[j..] == ws + e
    requires forall i :: 0 <= i < |ws| ==> IsSpace(ws[i])
    ensures (forall i :: j <= i < j + |ws| ==> IsSpace(s[i])) && s[j + |ws|..] == e
  {
    forall i | j <= i < j + |ws| ensures IsSpace(s[i]) {
      assert s[i] == s[j..][i - j];
    }
    assert s[j + |ws|..] == s[j..][|ws|..];
  }

  lemma LabelThen(s: string, k: nat, letter: char, rest: string)
    requires k <= |s| && s[k..] == ResponsePrefix + ([letter] + rest)
    ensures k + 10 <= |s| && s[k..k + 9] == ResponsePrefix && s[k + 9] == letter
    ensures s[k..k + 10] == ResponsePrefix + [letter] && s[k + 10..] == rest
  {
    var e := s[k..];
    assert e[..9] == ResponsePrefix && e[9] == letter;
    assert e[..10] == ResponsePrefix + [letter] && e[10..] == rest;
    assert s[k..k + 9] == e[..9] && s[k..k + 10] == e[..10] && s[k + 10..] == e[10..];
  }

  /** A character that cannot start a numbered entry is skipped. */
  lemma SkipNonDigit(c: char, rest: string)
    requires !IsDigit(c)
    ensures FindEntries([c] + rest) == FindEntries(rest)
  {
    var s := [c] + rest;
    assert s[1..] == rest;
    LeadingRunIs(s, IsDigit, 0);
  }

  /** Text without any digit yields no entries at all. */
  lemma {:induction false} NoDigitsNoEntries(s: string)
    requires forall i :: 0 <= i < |s| ==> !IsDigit(s[i])
    ensures FindEntries(s) == []
  {
    if s != [] {
      assert s == [s[0]] + s[1..];
      SkipNonDigit(s[0], s[1..]);
      NoDigitsNoEntries(s[1..]);
    }
  }

  /** The search from the end stops at the last occurrence. */
  lemma LastMarkerIs(text: string, p: nat)
    requires OccursAt(text, Marker, p)
    requires forall j :: p < j <= |text| - |Marker| ==> !OccursAt(text, Marker, j)
    ensures RankingSection(text) == Some(text[p + |Marker|..])
  {
    var r := LastMarkerFrom(text, |text| - |Marker|);
    assert r.Some? && r.value >= p;
  }

  /** Only the text after the last marker matters: whatever comes before it, including
      any `Response X` mentions in the critique, never reaches the result. */
  lemma OnlyTailMatters(critique: string, section: string)
    requires !Contains(section, Marker)
    ensures ParseRanking(critique + Marker + section) == FindEntries(section)
  {
    var text := critique + Marker + section;
    var p := |critique|;
    assert text[p..p + |Marker|] == Marker;
    forall j | p < j <= |text| - |Marker| ensures !OccursAt(text, Marker, j) {
      if j < p + |Marker| {
        // inside the marker: only its first character is an 'F'
        assert text[j] == Marker[j - p];
        assert text[j..j + |Marker|][0] == text[j];
      } else {
        var i := j - p - |Marker|;
        assert text[j..j + |Marker|] == section[i..i + |Marker|];
        assert !OccursAt(section, Marker, i);
      }
    }
    LastMarkerIs(text, p);
    assert text[p + |Marker|..] == section;
  }

  /** A marker that comes earlier cannot mask a later one. */
  lemma CritiqueIrrelevant(c1: string, c2: string, section: string)
    requires !Contains(section, Marker)
    ensures ParseRanking(c1 + Marker + section) == ParseRanking(c2 + Marker + section)
  {
    OnlyTailMatters(c1, section);
    OnlyTailMatters(c2, section);
  }

  /** Any occurrence of the marker begins with an 'F'. */
  lemma NoFNoMarker(s: string)
    requires 'F' !in s
    ensures !Contains(s, Marker)
  {
    forall j | 0 <= j <= |s| - |Marker| ensures !OccursAt(s, Marker, j) {
      assert s[j..j + |Marker|][0] == s[j];
    }
  }

  /** A line `<digit>. Response <letter>` after a line break. */
  function EntryLine(digit: char, letter: char): string {
    ['\n', digit, '.', ' '] + ResponsePrefix + [letter]
  }

  /** The scanner skips the line break, reports the entry and resumes after it. */
  lemma EntryLineThenRest(digit: char, letter: char, rest: string)
    requires IsDigit(digit) && IsUpper(letter)
    ensures FindEntries(EntryLine(digit, letter) + rest) == [ResponsePrefix + [letter]] + FindEntries(rest)
  {
    var t := [digit] + (['.'] + (" " + (ResponsePrefix + ([letter] + rest))));
    assert EntryLine(digit, letter) + rest == ['\n'] + t;
    SkipNonDigit('\n', t);
    EntryThenRest([digit], " ", letter, rest);
  }

  /** The critique part of the evaluation text in tests/test_council.py:12-28. */
  const ExampleCritique: string :=
    "\nI have reviewed the answers. Response A is okay, but Response B is better.\nResponse C is also good.\n\n"

  /** The ranking part of the same text. */
  const ExampleSection: string := EntryLine('1', 'B') + EntryLine('2', 'C') + "\n"

  lemma ExampleSectionEntries()
    ensures FindEntries(ExampleSection) == [ResponsePrefix + ['B'], ResponsePrefix + ['C']]
  {
    assert ExampleSection == EntryLine('1', 'B') + (EntryLine('2', 'C') + "\n");
    EntryLineThenRest('1', 'B', EntryLine('2', 'C') + "\n");
    EntryLineThenRest('2', 'C', "\n");
    SkipNonDigit('\n', []);
    assert "\n" == ['\n'] + [];
  }

  /** tests/test_council.py:12-28: the critique mentions A, B and C; only B and C,
      listed after the marker, are returned. */
  lemma ExampleCritiqueIgnored()
    ensures ParseRanking(ExampleCritique + Marker + ExampleSection) == ["Response B", "Response C"]
  {
    assert !Contains(ExampleSection, Marker) by {
      NoFNoMarker(ExampleSection);
    }
    OnlyTailMatters(ExampleCritique, ExampleSection);
    ExampleSectionEntries();
    CritiqueTokens();
  }

  lemma CritiqueTokens()
    ensures [ResponsePrefix + ['B'], ResponsePrefix + ['C']] == ["Response B", "Response C"]
  {
    assert ResponsePrefix + ['B'] == "Response B";
    assert ResponsePrefix + ['C'] == "Response C";
  }

  /** The evaluation text of tests/test_council.py:30-36, written in three pieces. */
  const MissingSectionText: string :=
    "I think Response A" + " is the best overall," + " followed by Response B."

  /** tests/test_council.py:30-36: without the marker nothing is parsed, even though
      the text names two responses. */
  lemma ExampleMissingSection()
    ensures ParseRanking(MissingSectionText) == []
  {
    assert 'F' !in MissingSectionText;
    NoFNoMarker(MissingSectionText);
  }

  /** The evaluation text of tests/test_council.py:38-49 is `ValidPreamble + Marker + ValidSection`. */
  const ValidPreamble: string := "Some thoughts...\n"
  const ValidSection: string := EntryLine('1', 'C') + EntryLine('2', 'A') + EntryLine('3', 'B') + "\n"

  lemma ValidSectionEntries()
    ensures FindEntries(ValidSection) == [ResponsePrefix + ['C'], ResponsePrefix + ['A'], ResponsePrefix + ['B']]
  {
    var third := EntryLine('3', 'B') + "\n";
    var second := EntryLine('2', 'A') + third;
    assert ValidSection == EntryLine('1', 'C') + second;
    EntryLineThenRest('1', 'C', second);
    EntryLineThenRest('2', 'A', third);
    EntryLineThenRest('3', 'B', "\n");
    SkipNonDigit('\n', []);
    assert "\n" == ['\n'] + [];
  }

  /** tests/test_council.py:38-49: a well-formed block is returned in its listed order. */
  lemma ExampleValidBlock()
    ensures ParseRanking(ValidPreamble + Marker + ValidSection)
         == ["Response C", "Response A", "Response B"]
  {
    assert !Contains(ValidSection, Marker) by {
      NoFNoMarker(ValidSection);
    }
    OnlyTailMatters(ValidPreamble, ValidSection);
    ValidSectionEntries();
    ValidTokens();
  }

  lemma ValidTokens()
    ensures [ResponsePrefix + ['C'], ResponsePrefix + ['A'], ResponsePrefix + ['B']]
         == ["Response C", "Response A", "Response B"]
  {
    assert ResponsePrefix + ['A'] == "Response A";
    assert ResponsePrefix + ['B'] == "Response B";
    assert ResponsePrefix + ['C'] == "Response C";
  }
}
