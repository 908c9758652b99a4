/** The `.env` handling of the settings endpoints (backend/main.py:80-122): `update_settings`
    replaces the first `OPENROUTER_API_KEY=` line of the file, or appends one, and
    `get_settings` reads the value of the first such line back. The file is its text
    (`None` when it does not exist), and the process environment a map. */
module EnvSettings {
  import opened Common

  /** The variable the settings store. */
  const KeyName: string := "OPENROUTER_API_KEY"

  /** What a key line starts with. */
  const KeyPrefix: string := "OPENROUTER_API_KEY="

  /** `line.startswith("OPENROUTER_API_KEY=")`. */
  predicate IsKeyLine(line: string) {
    StartsWith(line, KeyPrefix)
  }

  /** The line `update_settings` writes for `key`. */
  function KeyLine(key: string): string {
    KeyPrefix + "\"" + key + "\"\n"
  }

  /** The index of the first key line of `lines`, or `|lines|` when there is none. */
  function FirstKeyLine(lines: seq<string>): (r: nat)
    ensures r <= |lines|
    ensures r < |lines| ==> IsKeyLine(lines[r])
    ensures forall i :: 0 <= i < r ==> !IsKeyLine(lines[i])
  {
    if lines == [] then 0 else if IsKeyLine(lines[0]) then 0 else 1 + FirstKeyLine(lines[1..])
  }

  /** The lines `update_settings` writes back for the lines it read. */
  function UpdatedLines(lines: seq<string>, key: string): seq<string> {
    var i := FirstKeyLine(lines);
    if i < |lines| then lines[i := KeyLine(key)] else lines + [KeyLine(key)]
  }

  /** The update loop and the append after it (backend/main.py:111-118). */
  method UpdateKeyLines(lines: seq<string>, key: string) returns (lines': seq<string>)
    ensures lines' == UpdatedLines(lines, key)
  {
    lines' := lines;
    var found := false;
    var i := 0;
    while i < |lines'|
      invariant 0 <= i <= |lines| && lines' == lines && !found
      invariant forall k :: 0 <= k < i ==> !IsKeyLine(lines[k])
    {
      if IsKeyLine(lines'[i]) {
        FirstKeyLineAt(lines, i);
        lines' := lines'[i := KeyLine(key)];
        found := true;
        break;
      }
      i := i + 1;
    }
    if !found {
      FirstKeyLineAt(lines, i);
      lines' := lines' + [KeyLine(key)];
    }
  }

  /** The first key line is the one before which there is none. */
  lemma {:induction false} FirstKeyLineAt(lines: seq<string>, i: nat)
    requires i <= |lines|
    requires i < |lines| ==> IsKeyLine(lines[i])
    requires forall k :: 0 <= k < i ==> !IsKeyLine(lines[k])
    ensures FirstKeyLine(lines) == i
  {
    if lines != [] && i > 0 {
      assert !IsKeyLine(lines[0]);
      FirstKeyLineAt(lines[1..], i - 1);
    }
  }

  /** With a key line present, exactly the first one is replaced and the number of
      lines stays the same (backend/main.py:111-115). */
  lemma ReplacesFirstKeyLine(lines: seq<string>, key: string, i: nat)
    requires i < |lines| && IsKeyLine(lines[i])
    requires forall k :: 0 <= k < i ==> !IsKeyLine(lines[k])
    ensures var r := UpdatedLines(lines, key);
      |r| == |lines| && r[i] == KeyLine(key) && forall k :: 0 <= k < |lines| && k != i ==> r[k] == lines[k]
  {
    FirstKeyLineAt(lines, i);
  }

  /** Without a key line, the key line is appended after the unchanged lines
      (backend/main.py:117-118). */
  lemma AppendsKeyLine(lines: seq<string>, key: string)
    requires forall k :: 0 <= k < |lines| ==> !IsKeyLine(lines[k])
    ensures UpdatedLines(lines, key) == lines + [KeyLine(key)]
  {
    FirstKeyLineAt(lines, |lines|);
  }

  lemma KeyLineIsKeyLine(key: string)
    ensures IsKeyLine(KeyLine(key))
  {
    assert KeyLine(key) == KeyPrefix + ("\"" + key + "\"\n");
  }

  /** After an update the first key line is the one written. */
  lemma UpdatedFirstKeyLine(lines: seq<string>, key: string)
    ensures var r := UpdatedLines(lines, key);
      FirstKeyLine(r) < |r| && r[FirstKeyLine(r)] == KeyLine(key)
  {
    var i := FirstKeyLine(lines);
    KeyLineIsKeyLine(key);
    FirstKeyLineAt(UpdatedLines(lines, key), i);
  }

  /** Saving the same key twice leaves the same lines as saving it once. */
  lemma UpdateIdempotent(lines: seq<string>, key: string)
    ensures UpdatedLines(UpdatedLines(lines, key), key) == UpdatedLines(lines, key)
  {
    UpdatedFirstKeyLine(lines, key);
  }

  /** The index of the first `c` in `s`, or `|s|`. */
  function FindChar(s: string, c: char): (k: nat)
    ensures k <= |s| && (k < |s| ==> s[k] == c)
    ensures forall i :: 0 <= i < k ==> s[i] != c
  {
    if s == [] then 0 else if s[0] == c then 0 else 1 + FindChar(s[1..], c)
  }

  /** Python's universal newlines when reading a text file: `\r\n` and a lone `\r` both
      become `\n`. */
  function Translate(s: string): string
    decreases |s|
  {
    if s == [] then []
    else if s[0] == '\r' then "\n" + Translate(if |s| > 1 && s[1] == '\n' then s[2..] else s[1..])
    else [s[0]] + Translate(s[1..])
  }

  /** The lines of `s` as `readlines()` and iteration give them: each keeps its `\n`, and
      a last line without one is kept as it is. */
  function SplitLines(s: string): seq<string>
    decreases |s|
  {
    if s == [] then []
    else
      var k := FindChar(s, '\n');
      if k == |s| then [s] else [s[..k + 1]] + SplitLines(s[k + 1..])
  }

  /** The lines of a `.env` file with text `content`. */
  function ReadLines(content: string): seq<string> {
    SplitLines(Translate(content))
  }

  /** `line.split("=", 1)[1].strip().strip('"\'')` on a key line. */
  function KeyValue(line: string): (r: string)
    requires IsKeyLine(line)
    ensures r != [] ==> !IsQuote(r[0]) && !IsQuote(r[|r| - 1])
  {
    KeyLineHasEquals(line);
    Trim(Strip(line[FindChar(line, '=') + 1..]), IsQuote)
  }

  /** The first `=` of a key line is the one that ends its prefix. */
  lemma KeyLineHasEquals(line: string)
    requires IsKeyLine(line)
    ensures FindChar(line, '=') == |KeyPrefix| - 1
  {
    assert line[..|KeyPrefix|] == KeyPrefix;
    assert line[|KeyPrefix| - 1] == '=';
    forall i | 0 <= i < |KeyPrefix| - 1 ensures line[i] != '=' {
      assert line[i] == KeyPrefix[i];
    }
    FindCharAt(line, '=', |KeyPrefix| - 1);
  }

  lemma {:induction false} FindCharAt(s: string, c: char, k: nat)
    requires k <= |s| && (k < |s| ==> s[k] == c)
    requires forall i :: 0 <= i < k ==> s[i] != c
    ensures FindChar(s, c) == k
  {
    if s != [] && k > 0 {
      FindCharAt(s[1..], c, k - 1);
    }
  }

  /** What `get_settings` returns for the file `file`. */
  function SettingsKey(file: Option<string>): string {
    if file.None? then ""
    else
      var lines := ReadLines(file.value);
      var i := FirstKeyLine(lines);
      if i < |lines| then KeyValue(lines[i]) else ""
  }

  /** `get_settings` (backend/main.py:80-93): the value of the first key line, or `""`
      when the file is missing or has no key line. */
  method GetSettings(file: Option<string>) returns (apiKey: string)
    ensures apiKey == SettingsKey(file)
  {
    apiKey := "";
    if file.None? {
      return;
    }
    var lines := ReadLines(file.value);
    var i := 0;
    while i < |lines|
      invariant 0 <= i <= |lines| && apiKey == ""
      invariant forall k :: 0 <= k < i ==> !IsKeyLine(lines[k])
    {
      if IsKeyLine(lines[i]) {
        FirstKeyLineAt(lines, i);
        apiKey := KeyValue(lines[i]);
        return;
      }
      i := i + 1;
    }
    FirstKeyLineAt(lines, i);
  }

  /** The text `update_settings` writes: the updated lines of the file, a missing file
      read as empty. */
  function UpdatedContent(file: Option<string>, key: string): string {
    Concat(UpdatedLines(ReadLines(file.GetOr("")), key))
  }

  /** `update_settings` (backend/main.py:96-122): the new file text, and the environment
      with the key set. */
  method UpdateSettings(file: Option<string>, environ: map<string, string>, key: string)
    returns (content: string, environ': map<string, string>)
    ensures content == UpdatedContent(file, key)
    ensures environ' == environ[KeyName := key]
  {
    var text := if file.None? then "" else file.value;
    var lines := ReadLines(text);
    lines := UpdateKeyLines(lines, key);
    content := Concat(lines);
    environ' := environ[KeyName := key];
  }

  /** A line that ends in its only `\n` and has no `\r`. */
  predicate Ended(line: string) {
    line != [] && line[|line| - 1] == '\n' && '\n' !in line[..|line| - 1] && '\r' !in line
  }

  /** Every line of `lines` is `Ended`. */
  predicate AllEnded(lines: seq<string>) {
    forall i :: 0 <= i < |lines| ==> Ended(lines[i])
  }

  /** The last line read ends in a newline (or there is none). */
  predicate LastLineEnded(lines: seq<string>) {
    lines == [] || EndsWith(lines[|lines| - 1], "\n")
  }

  lemma {:induction false} TranslateHasNoReturn(s: string)
    ensures '\r' !in Translate(s)
    decreases |s|
  {
    if s != [] {
      if s[0] == '\r' {
        TranslateHasNoReturn(if |s| > 1 && s[1] == '\n' then s[2..] else s[1..]);
      } else {
        TranslateHasNoReturn(s[1..]);
      }
    }
  }

  lemma {:induction false} TranslatePlain(s: string)
    requires '\r' !in s
    ensures Translate(s) == s
    decreases |s|
  {
    if s != [] {
      assert s[0] != '\r';
      assert '\r' !in s[1..] by {
        forall i | 0 <= i < |s[1..]| ensures s[1..][i] != '\r' {
          assert s[1..][i] == s[i + 1];
        }
      }
      TranslatePlain(s[1..]);
    }
  }

  /** A line as read: not empty, no `\r`, `\n` at most at its end, and at its end when
      it is not the last line. */
  predicate ReadLine(line: string, last: bool) {
    line != [] && '\r' !in line && '\n' !in line[..|line| - 1] && (!last ==> line[|line| - 1] == '\n')
  }

  predicate AllRead(l: seq<string>) {
    forall i :: 0 <= i < |l| ==> ReadLine(l[i], i == |l| - 1)
  }

  /** The lines read from text without `\r` are `ReadLine`s. */
  lemma {:induction false} SplitLinesShape(s: string)
    requires '\r' !in s
    ensures AllRead(SplitLines(s))
    decreases |s|
  {
    if s != [] {
      var k := FindChar(s, '\n');
      if k < |s| {
        var rest := s[k + 1..];
        assert '\r' !in rest by {
          forall i | 0 <= i < |rest| ensures rest[i] != '\r' {
            assert rest[i] == s[k + 1 + i];
          }
        }
        SplitLinesShape(rest);
        var first := s[..k + 1];
        assert first[..k] == s[..k];
        assert '\r' !in first by {
          forall i | 0 <= i < |first| ensures first[i] != '\r' {
            assert first[i] == s[i];
          }
        }
        assert ReadLine(first, false);
        var l := SplitLines(s);
        assert l == [first] + SplitLines(rest);
        forall i | 0 <= i < |l| ensures ReadLine(l[i], i == |l| - 1) {
          if i > 0 {
            assert l[i] == SplitLines(rest)[i - 1];
          }
        }
      } else {
        assert s[..|s| - 1] == s[..k - 1];
        assert SplitLines(s) == [s];
      }
    }
  }

  /** The lines of a file whose last line ends in a newline are all `Ended`. */
  lemma ReadLinesEnded(content: string)
    requires LastLineEnded(ReadLines(content))
    ensures AllEnded(ReadLines(content))
  {
    TranslateHasNoReturn(content);
    SplitLinesShape(Translate(content));
    var l := ReadLines(content);
    forall i | 0 <= i < |l| ensures Ended(l[i]) {
      assert ReadLine(l[i], i == |l| - 1);
    }
  }

  lemma KeyLineEnded(key: string)
    requires '\r' !in key && '\n' !in key
    ensures Ended(KeyLine(key))
  {
    var line := KeyLine(key);
    assert line[..|line| - 1] == KeyPrefix + "\"" + key + "\"";
    forall i | 0 <= i < |line| ensures line[i] != '\r' {
      if |KeyPrefix| + 1 <= i < |KeyPrefix| + 1 + |key| {
        assert line[i] == key[i - |KeyPrefix| - 1];
      }
    }
    forall i | 0 <= i < |line| - 1 ensures line[i] != '\n' {
      if |KeyPrefix| + 1 <= i < |KeyPrefix| + 1 + |key| {
        assert line[i] == key[i - |KeyPrefix| - 1];
      }
    }
  }

  /** An `Ended` line is read back as one line. */
  lemma SplitLinesFront(line: string, rest: string)
    requires Ended(line)
    ensures SplitLines(line + rest) == [line] + SplitLines(rest)
  {
    var s := line + rest;
    forall i | 0 <= i < |line| - 1 ensures s[i] != '\n' {
      assert s[i] == line[..|line| - 1][i];
    }
    FindCharAt(s, '\n', |line| - 1);
    assert s[..|line|] == line;
    assert s[|line|..] == rest;
  }

  /** Writing `Ended` lines and reading the file gives the same lines. */
  lemma {:induction false} ReadBackLines(lines: seq<string>)
    requires AllEnded(lines)
    ensures SplitLines(Concat(lines)) == lines
  {
    if lines != [] {
      ConcatFront(lines);
      SplitLinesFront(lines[0], Concat(lines[1..]));
      ReadBackLines(lines[1..]);
    }
  }

  lemma {:induction false} ConcatHasNoReturn(lines: seq<string>)
    requires AllEnded(lines)
    ensures '\r' !in Concat(lines)
  {
    if lines != [] {
      var n := |lines| - 1;
      ConcatHasNoReturn(lines[..n]);
      assert Ended(lines[n]);
    }
  }

  /** The value of the key line for `key` is `key` itself. */
  lemma KeyValueOfKeyLine(key: string)
    requires key == [] || (!IsQuote(key[0]) && !IsQuote(key[|key| - 1]))
    ensures IsKeyLine(KeyLine(key)) && KeyValue(KeyLine(key)) == key
  {
    var line := KeyLine(key);
    KeyLineIsKeyLine(key);
    KeyLineHasEquals(line);
    assert line[|KeyPrefix|..] == "\"" + key + "\"\n";
    UnquoteValue(key);
  }

  /** `.strip().strip('"\'')` of the written value gives the key back. */
  lemma UnquoteValue(key: string)
    requires key == [] || (!IsQuote(key[0]) && !IsQuote(key[|key| - 1]))
    ensures Trim(Strip("\"" + key + "\"\n"), IsQuote) == key
  {
    var quoted := "\"" + key + "\"";
    assert "\"" + key + "\"\n" == "" + quoted + "\n";
    TrimPadded("", quoted, "\n", IsSpace);
    TrimPadded("\"", key, "\"", IsQuote);
  }

  /** Reading the settings after saving `key` returns `key`, provided the key has no line
      break and no quote at either end, and the file's last line ended in a newline
      (backend/main.py:89-90,113,118). */
  lemma ReadAfterWrite(file: Option<string>, key: string)
    requires '\r' !in key && '\n' !in key
    requires key == [] || (!IsQuote(key[0]) && !IsQuote(key[|key| - 1]))
    requires LastLineEnded(ReadLines(file.GetOr("")))
    ensures SettingsKey(Some(UpdatedContent(file, key))) == key
  {
    var lines := ReadLines(file.GetOr(""));
    var updated := UpdatedLines(lines, key);
    ReadLinesEnded(file.GetOr(""));
    UpdatedLinesEnded(lines, key);
    WrittenLinesRead(updated);
    UpdatedFirstKeyLine(lines, key);
    SettingsKeyOfLines(Concat(updated), updated, key);
  }

  /** Saving a key keeps every line `Ended`. */
  lemma UpdatedLinesEnded(lines: seq<string>, key: string)
    requires AllEnded(lines) && '\r' !in key && '\n' !in key
    ensures AllEnded(UpdatedLines(lines, key))
  {
    KeyLineEnded(key);
  }

  /** `Ended` lines written out are read back as they were. */
  lemma WrittenLinesRead(lines: seq<string>)
    requires AllEnded(lines)
    ensures ReadLines(Concat(lines)) == lines
  {
    ConcatHasNoReturn(lines);
    TranslatePlain(Concat(lines));
    ReadBackLines(lines);
  }

  /** A text whose first key line is the key line for `key` holds the setting `key`. */
  lemma SettingsKeyOfLines(content: string, lines: seq<string>, key: string)
    requires key == [] || (!IsQuote(key[0]) && !IsQuote(key[|key| - 1]))
    requires ReadLines(content) == lines
    requires FirstKeyLine(lines) < |lines| && lines[FirstKeyLine(lines)] == KeyLine(key)
    ensures SettingsKey(Some(content)) == key
  {
    KeyValueOfKeyLine(key);
  }

  /** A text without line breaks is read as one line. */
  lemma OneLineRead(line: string)
    requires line != [] && '\r' !in line && '\n' !in line
    ensures ReadLines(line) == [line]
  {
    TranslatePlain(line);
    FindCharAt(line, '\n', |line|);
  }

  /** An `Ended` text is read as one line. */
  lemma EndedLineRead(line: string)
    requires Ended(line)
    ensures ReadLines(line) == [line]
  {
    TranslatePlain(line);
    SplitLinesFront(line, "");
    assert line + "" == line;
  }

  /** Why the last line must end in a newline: after saving `key` to a file holding
      one line without a newline that is not a key line (such as `FOO=bar`), the
      appended key line is glued to that line, and reading the settings back gives `""`. */
  lemma UnterminatedLastLineLosesKey(first: string, key: string)
    requires first != [] && '\r' !in first && '\n' !in first && first[0] != KeyPrefix[0]
    requires '\r' !in key && '\n' !in key
    ensures UpdatedContent(Some(first), key) == first + KeyLine(key)
    ensures SettingsKey(Some(UpdatedContent(Some(first), key))) == ""
  {
    GluedContent(first, key);
    GluedLineRead(first, key);
  }

  /** Saving to a one-line file without a newline appends the key line. */
  lemma GluedContent(first: string, key: string)
    requires first != [] && '\r' !in first && '\n' !in first && first[0] != KeyPrefix[0]
    ensures UpdatedContent(Some(first), key) == first + KeyLine(key)
  {
    OneLineRead(first);
    assert !IsKeyLine(first);
    AppendsKeyLine([first], key);
    assert UpdatedLines([first], key) == [first, KeyLine(key)];
    ConcatPair(first, KeyLine(key));
  }

  lemma ConcatPair(a: string, b: string)
    ensures Concat([a, b]) == a + b
  {
    var written := [a, b];
    ConcatFront(written);
    assert written[1..] == [b];
    assert [b][..0] == [];
    assert Concat([b]) == [] + b;
  }

  /** The glued text is one line, and not a key line. */
  lemma GluedLineRead(first: string, key: string)
    requires first != [] && '\r' !in first && '\n' !in first && first[0] != KeyPrefix[0]
    requires '\r' !in key && '\n' !in key
    ensures SettingsKey(Some(first + KeyLine(key))) == ""
  {
    var content := first + KeyLine(key);
    KeyLineEnded(key);
    assert Ended(content) by {
      assert content[..|content| - 1] == first + KeyLine(key)[..|KeyLine(key)| - 1];
    }
    EndedLineRead(content);
    assert !IsKeyLine(content);
  }
}
