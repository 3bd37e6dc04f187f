/**
 * The few pieces of Python's `str` that the merge pipeline relies on:
 * `rfind`, `split(sep)`, `sep.join(parts)`, `strip()`, `startswith`, and the
 * line view of a text file (`readlines` / `writelines`).
 */
module Text {

  /** Index of the last occurrence of `c` in `s`, or -1 when there is none (`str.rfind`). */
  function LastIndexOf(s: string, c: char): (i: int)
    ensures -1 <= i < |s|
    ensures i >= 0 ==> s[i] == c
    ensures forall k :: i < k < |s| ==> s[k] != c
  {
    if |s| == 0 then -1
    else if s[|s| - 1] == c then |s| - 1
    else LastIndexOf(s[..|s| - 1], c)
  }

  /** `s.split(c)`: the maximal pieces of `s` between occurrences of `c`, empty pieces included. */
  function Split(s: string, c: char): (parts: seq<string>)
    ensures |parts| >= 1
    ensures NoneContains(parts, c)
    decreases |s|
  {
    var k := LastIndexOf(s, c);
    AfterLastIndex(s, c);
    if k < 0 then
      assert s[0..] == s;
      [s]
    else
      var init := Split(s[..k], c);
      NoneContainsSnoc(init, s[k + 1..], c);
      init + [s[k + 1..]]
  }

  lemma {:induction false} NoneContainsSnoc(parts: seq<string>, part: string, c: char)
    requires NoneContains(parts, c) && c !in part
    ensures NoneContains(parts + [part], c)
  {
    var ps := parts + [part];
    forall i | 0 <= i < |ps| ensures c !in ps[i] {
      if i < |parts| {
        assert ps[i] == parts[i];
      }
    }
  }

  /** Nothing after the last occurrence of `c` is a `c`. */
  lemma {:induction false} AfterLastIndex(s: string, c: char)
    ensures c !in s[LastIndexOf(s, c) + 1..]
  {
    var k := LastIndexOf(s, c);
    var t := s[k + 1..];
    forall j | 0 <= j < |t| ensures t[j] != c {
      assert t[j] == s[k + 1 + j];
    }
  }

  /** `c.join(parts)`: the parts with one `c` between each neighbouring pair. */
  function JoinWith(parts: seq<string>, c: char): (s: string)
    ensures |parts| == 1 ==> s == parts[0]
  {
    if |parts| == 0 then ""
    else if |parts| == 1 then parts[0]
    else JoinWith(parts[..|parts| - 1], c) + [c] + parts[|parts| - 1]
  }

  predicate NoneContains(parts: seq<string>, c: char)
  {
    forall i :: 0 <= i < |parts| ==> c !in parts[i]
  }

  /** A suffix free of `c` does not move the last occurrence of `c`. */
  lemma {:induction false} LastIndexOfAppend(a: string, b: string, c: char)
    requires c !in b
    ensures LastIndexOf(a + b, c) == LastIndexOf(a, c)
    decreases |b|
  {
    if |b| > 0 {
      var ab := a + b;
      assert ab[|ab| - 1] == b[|b| - 1];
      assert ab[..|ab| - 1] == a + b[..|b| - 1];
      LastIndexOfAppend(a, b[..|b| - 1], c);
    } else {
      assert a + b == a;
    }
  }

  /** Splitting `a`, a separator and a separator-free `b` yields the pieces of `a` followed by `b`. */
  lemma {:induction false} SplitAfter(a: string, c: char, b: string)
    requires c !in b
    ensures Split(a + [c] + b, c) == Split(a, c) + [b]
  {
    var s := a + [c] + b;
    LastIndexOfAppend(a + [c], b, c);
    assert LastIndexOf(a + [c], c) == |a|;
    assert s[..|a|] == a && s[|a| + 1..] == b;
  }

  /** Joining and then splitting on a separator that no part contains gives the parts back. */
  lemma {:induction false} SplitJoin(parts: seq<string>, c: char)
    requires |parts| >= 1
    requires NoneContains(parts, c)
    ensures Split(JoinWith(parts, c), c) == parts
    decreases |parts|
  {
    if |parts| > 1 {
      var init, last := parts[..|parts| - 1], parts[|parts| - 1];
      assert NoneContains(init, c);
      SplitJoin(init, c);
      SplitAfter(JoinWith(init, c), c, last);
      assert parts == init + [last];
    } else {
      assert c !in parts[0];
      assert LastIndexOf(parts[0], c) == -1;
      assert parts[0][0..] == parts[0];
    }
  }

  /** Splitting and then joining with the same separator gives the text back. */
  lemma {:induction false} JoinSplit(s: string, c: char)
    ensures JoinWith(Split(s, c), c) == s
    decreases |s|
  {
    var k := LastIndexOf(s, c);
    if k >= 0 {
      var init := Split(s[..k], c);
      JoinSplit(s[..k], c);
      var parts := init + [s[k + 1..]];
      assert parts[..|parts| - 1] == init;
      assert s == s[..k] + [c] + s[k + 1..];
    }
  }

  /** Joining is injective on lists of one part or more whose parts avoid the separator. */
  lemma {:induction false} JoinWithInjective(xs: seq<string>, ys: seq<string>, c: char)
    requires |xs| >= 1 && |ys| >= 1
    requires NoneContains(xs, c) && NoneContains(ys, c)
    requires JoinWith(xs, c) == JoinWith(ys, c)
    ensures xs == ys
  {
    SplitJoin(xs, c);
    SplitJoin(ys, c);
  }

  /** `str.startswith`. */
  predicate StartsWith(s: string, prefix: string)
  {
    |prefix| <= |s| && s[..|prefix|] == prefix
  }

  /** The characters for which Python's `str.isspace()` holds, which `str.strip()` removes. */
  predicate IsSpace(ch: char)
  {
    || ch == ' ' || ch == '\t' || ch == '\n' || ch == '\r'
    || ch == '\U{0B}' || ch == '\U{0C}'
    || ('\U{1C}' <= ch <= '\U{1F}')
    || ch == '\U{85}' || ch == '\U{A0}' || ch == '\U{1680}'
    || ('\U{2000}' <= ch <= '\U{200A}')
    || ch == '\U{2028}' || ch == '\U{2029}' || ch == '\U{202F}' || ch == '\U{205F}' || ch == '\U{3000}'
  }

  /** Neither end of `s` is white space. */
  predicate Trimmed(s: string)
  {
    s == "" || (!IsSpace(s[0]) && !IsSpace(s[|s| - 1]))
  }

  /** `str.lstrip()`: the suffix left after dropping leading white space. */
  function LStrip(s: string): (r: string)
    ensures |r| <= |s| && r == s[|s| - |r|..]
    ensures forall i :: 0 <= i < |s| - |r| ==> IsSpace(s[i])
    ensures r == "" || !IsSpace(r[0])
  {
    if |s| > 0 && IsSpace(s[0]) then LStrip(s[1..]) else s
  }

  /** `str.rstrip()`: the prefix left after dropping trailing white space. */
  function RStrip(s: string): (r: string)
    ensures |r| <= |s| && r == s[..|r|]
    ensures forall i :: |r| <= i < |s| ==> IsSpace(s[i])
    ensures r == "" || !IsSpace(r[|r| - 1])
  {
    if |s| > 0 && IsSpace(s[|s| - 1]) then RStrip(s[..|s| - 1]) else s
  }

  /**
   * `str.strip()`: `s` without white space at either end. The result is a slice of `s`
   * with only white space outside it, and it neither starts nor ends with white space.
   */
  function Strip(s: string): (r: string)
    ensures Trimmed(r)
    ensures exists i, j :: 0 <= i <= j <= |s| && r == s[i..j]
              && (forall k :: 0 <= k < i ==> IsSpace(s[k]))
              && (forall k :: j <= k < |s| ==> IsSpace(s[k]))
  {
    var l := LStrip(s);
    var i := |s| - |l|;
    var r := RStrip(l);
    assert r == s[i..i + |r|];
    r
  }

  /** Text whose ends are not white space is left alone by `strip()`. */
  lemma {:induction false} StripTrimmed(s: string)
    requires Trimmed(s)
    ensures Strip(s) == s
  {
    assert LStrip(s) == s;
  }

  /**
   * A text file as the list of its lines, line terminators removed: the view that
   * `readlines()` and `splitlines()` give of a file whose lines all end with a newline.
   */
  function ReadLines(text: string): (lines: seq<string>)
    ensures NoneContains(lines, '\n')
  {
    if text == "" then []
    else if text[|text| - 1] == '\n' then Split(text[..|text| - 1], '\n')
    else Split(text, '\n')
  }

  /** The text of a file whose lines are `lines`, each followed by a newline. */
  function WriteLines(lines: seq<string>): (text: string)
    ensures text == "" <==> lines == []
    ensures text != "" ==> text[|text| - 1] == '\n'
  {
    if lines == [] then ""
    else WriteLines(lines[..|lines| - 1]) + lines[|lines| - 1] + "\n"
  }

  lemma {:induction false} WriteLinesIsJoin(lines: seq<string>)
    requires lines != []
    ensures WriteLines(lines) == JoinWith(lines, '\n') + "\n"
    decreases |lines|
  {
    var init := lines[..|lines| - 1];
    if init != [] {
      WriteLinesIsJoin(init);
    }
  }

  /** Writing lines free of newlines and reading the file back gives the same lines. */
  lemma {:induction false} ReadWriteLines(lines: seq<string>)
    requires NoneContains(lines, '\n')
    ensures ReadLines(WriteLines(lines)) == lines
  {
    if lines != [] {
      WriteLinesIsJoin(lines);
      var j := JoinWith(lines, '\n');
      assert (j + "\n")[..|j|] == j;
      SplitJoin(lines, '\n');
    }
  }

  /** A file that is empty or ends with a newline is reproduced by reading and rewriting its lines. */
  lemma {:induction false} WriteReadLines(text: string)
    requires text == "" || text[|text| - 1] == '\n'
    ensures WriteLines(ReadLines(text)) == text
  {
    if text != "" {
      var body := text[..|text| - 1];
      JoinSplit(body, '\n');
      WriteLinesIsJoin(Split(body, '\n'));
      assert text == body + "\n";
    }
  }
}
