/** Shared value types and the Python string built-ins the council code relies on
    (`str.strip`, `str.startswith`, `str.endswith`, `in` on strings). */
module Common {

  datatype Option<+T> = None | Some(value: T) {
    /** Python's `d.get(key, default)` on an optional field. */
    function GetOr(default: T): T {
      if Some? then value else default
    }
  }

  /** `d.get(k, default)` on a dictionary; also what a `defaultdict` read returns. */
  function MapGet<K, V>(m: map<K, V>, k: K, default: V): V {
    if k in m then m[k] else default
  }

  /** The elements of `s` are pairwise different. */
  predicate Distinct<T(==)>(s: seq<T>) {
    forall i, j :: 0 <= i < j < |s| ==> s[i] != s[j]
  }

  /** A character for which Python's `str.isspace()` holds; this is also what `\s`
      matches in a `str` regular expression. */
  predicate IsSpace(c: char) {
    var n := c as int;
    (9 <= n <= 13) || (28 <= n <= 32) || n == 0x85 || n == 0xA0 || n == 0x1680
    || (0x2000 <= n <= 0x200A) || n == 0x2028 || n == 0x2029 || n == 0x202F
    || n == 0x205F || n == 0x3000
  }

  /** The characters removed by `strip('"\'')`. */
  predicate IsQuote(c: char) {
    c == '"' || c == '\''
  }

  predicate StartsWith(s: string, p: string) {
    |p| <= |s| && s[..|p|] == p
  }

  predicate EndsWith(s: string, p: string) {
    |p| <= |s| && s[|s| - |p|..] == p
  }

  /** A prefix one element longer is the prefix followed by that element. */
  lemma TakeOneMore<T>(s: seq<T>, k: nat)
    requires k < |s|
    ensures s[..k + 1] == s[..k] + [s[k]]
  {
  }

  /** A non-empty sequence is its front followed by its last element. */
  lemma FrontLast<T>(s: seq<T>)
    requires s != []
    ensures s == s[..|s| - 1] + [s[|s| - 1]]
  {
  }

  /** A sequence is the part before index `i`, the element at `i` and the part after it. */
  lemma SplitAt<T>(s: seq<T>, i: nat)
    requires i < |s|
    ensures s == s[..i] + [s[i]] + s[i + 1..]
  {
  }

  lemma AppendAssoc<T>(a: seq<T>, b: seq<T>, c: seq<T>)
    ensures a + b + c == a + (b + c)
  {
  }

  /** A string that starts with `p + q` starts with `p`. */
  lemma StartsWithLonger(s: string, p: string, q: string)
    ensures StartsWith(s, p + q) ==> StartsWith(s, p)
  {
    if StartsWith(s, p + q) {
      assert s[..|p|] == (p + q)[..|p|];
    }
  }

  /** `p + t` starts with `p + q` only when `t` starts with `q`. */
  lemma StartsWithCommonPrefix(p: string, t: string, q: string)
    ensures StartsWith(p + t, p + q) ==> StartsWith(t, q)
  {
    if StartsWith(p + t, p + q) {
      assert (p + t)[..|p + q|] == p + t[..|q|];
      assert t[..|q|] == (p + q)[|p|..];
    }
  }

  /** `p` occurs in `s` starting at index `i`. */
  predicate OccursAt(s: string, p: string, i: int) {
    0 <= i && i + |p| <= |s| && s[i..i + |p|] == p
  }

  /** Python's `p in s` for strings. */
  predicate Contains(s: string, p: string) {
    exists i :: 0 <= i <= |s| - |p| && OccursAt(s, p, i)
  }

  /** Drops the leading characters satisfying `drop` (`str.lstrip(chars)`). */
  function TrimStart(s: string, drop: char -> bool): (r: string)
    ensures |r| <= |s| && r == s[|s| - |r|..]
    ensures forall i :: 0 <= i < |s| - |r| ==> drop(s[i])
    ensures r != [] ==> !drop(r[0])
  {
    if s != [] && drop(s[0]) then
      var r := TrimStart(s[1..], drop);
      TrimStartStep(s, drop, r);
      r
    else s
  }

  lemma TrimStartStep(s: string, drop: char -> bool, r: string)
    requires s != [] && drop(s[0])
    requires |r| <= |s| - 1 && r == s[1..][|s| - 1 - |r|..]
    requires forall i :: 0 <= i < |s| - 1 - |r| ==> drop(s[1..][i])
    ensures r == s[|s| - |r|..]
    ensures forall i :: 0 <= i < |s| - |r| ==> drop(s[i])
  {
    forall i | 0 < i < |s| - |r| ensures drop(s[i]) {
      assert s[i] == s[1..][i - 1];
    }
  }

  /** Drops the trailing characters satisfying `drop` (`str.rstrip(chars)`). */
  function TrimEnd(s: string, drop: char -> bool): (r: string)
    ensures |r| <= |s| && r == s[..|r|]
    ensures forall i :: |r| <= i < |s| ==> drop(s[i])
    ensures r != [] ==> !drop(r[|r| - 1])
  {
    if s != [] && drop(s[|s| - 1]) then TrimEnd(s[..|s| - 1], drop) else s
  }

  /** `str.strip(chars)`: both ends. */
  function Trim(s: string, drop: char -> bool): (r: string)
    ensures r != [] ==> !drop(r[0]) && !drop(r[|r| - 1])
  {
    TrimEnd(TrimStart(s, drop), drop)
  }

  /** `str.strip()` with no argument. */
  function Strip(s: string): string {
    Trim(s, IsSpace)
  }

  /** A string with nothing to trim is left alone. */
  lemma TrimUnchanged(s: string, drop: char -> bool)
    requires s != [] ==> !drop(s[0]) && !drop(s[|s| - 1])
    ensures Trim(s, drop) == s
  {
  }

  /** Trimming `pre + s + post` where `pre` and `post` consist only of dropped
      characters and `s` has none at its ends gives `s`. */
  lemma {:induction false} TrimPadded(pre: string, s: string, post: string, drop: char -> bool)
    requires forall i :: 0 <= i < |pre| ==> drop(pre[i])
    requires forall i :: 0 <= i < |post| ==> drop(post[i])
    requires s != [] ==> !drop(s[0]) && !drop(s[|s| - 1])
    ensures Trim(pre + s + post, drop) == s
  {
    assert pre + s + post == pre + (s + post);
    if s == [] {
      assert s + post == post;
      TrimStartAllDropped(pre + post, drop);
    } else {
      TrimStartPadded(pre, s + post, drop);
      TrimEndPadded(s, post, drop);
    }
  }

  lemma {:induction false} TrimStartAllDropped(s: string, drop: char -> bool)
    requires forall i :: 0 <= i < |s| ==> drop(s[i])
    ensures TrimStart(s, drop) == []
  {
    if s != [] {
      TrimStartAllDropped(s[1..], drop);
    }
  }

  lemma {:induction false} TrimStartPadded(pre: string, s: string, drop: char -> bool)
    requires forall i :: 0 <= i < |pre| ==> drop(pre[i])
    requires s != [] ==> !drop(s[0])
    ensures TrimStart(pre + s, drop) == s
  {
    if pre != [] {
      assert (pre + s)[1..] == pre[1..] + s;
      TrimStartPadded(pre[1..], s, drop);
    }
  }

  lemma {:induction false} TrimEndPadded(s: string, post: string, drop: char -> bool)
    requires forall i :: 0 <= i < |post| ==> drop(post[i])
    requires s != [] ==> !drop(s[|s| - 1])
    ensures TrimEnd(s + post, drop) == s
  {
    if post != [] {
      var p' := post[..|post| - 1];
      assert (s + post)[..|s + post| - 1] == s + p';
      TrimEndPadded(s, p', drop);
    } else {
      assert s + post == s;
    }
  }

  /** The pieces joined in order (the accumulated stream, the text of a list of lines). */
  function Concat(chunks: seq<string>): string {
    if chunks == [] then [] else Concat(chunks[..|chunks| - 1]) + chunks[|chunks| - 1]
  }

  lemma {:induction false} ConcatAppend(a: seq<string>, b: seq<string>)
    ensures Concat(a + b) == Concat(a) + Concat(b)
    decreases |b|
  {
    if b == [] {
      assert a + b == a;
    } else {
      var b', x := b[..|b| - 1], b[|b| - 1];
      var ab := a + b;
      assert ab[..|ab| - 1] == a + b' && ab[|ab| - 1] == x;
      ConcatAppend(a, b');
      assert Concat(b) == Concat(b') + x;
    }
  }

  /** A non-empty list joins to its first piece followed by the rest joined. */
  lemma ConcatFront(lines: seq<string>)
    requires lines != []
    ensures Concat(lines) == lines[0] + Concat(lines[1..])
  {
    assert lines == [lines[0]] + lines[1..];
    ConcatAppend([lines[0]], lines[1..]);
    assert [lines[0]][..0] == [];
  }
}
