/**
 * The string primitives the monitor relies on: upper-casing, substring search
 * (Python's `in`), prefix test (`str.startswith`), and the line splitting and
 * joining done by `str.splitlines()` and `"\n".join(...)`.
 */
module Text {

  const Newline: char := '\n'

  /** ASCII upper-casing of one character. */
  function UpperChar(c: char): char
  {
    if 'a' <= c <= 'z' then (c as int - 32) as char else c
  }

  /**
   * `s.upper()`, restricted to ASCII letters: no lower-case ASCII letter is
   * left, and every character that is not one is kept where it was.
   */
  function Upper(s: string): (r: string)
    ensures |r| == |s|
    ensures forall i :: 0 <= i < |s| ==> r[i] == UpperChar(s[i])
    ensures forall i :: 0 <= i < |r| ==> !('a' <= r[i] <= 'z')
    ensures forall i :: 0 <= i < |s| && !('a' <= s[i] <= 'z') ==> r[i] == s[i]
  {
    seq(|s|, i requires 0 <= i < |s| => UpperChar(s[i]))
  }

  /** Upper-casing text that is already upper case changes nothing. */
  lemma UpperIdempotent(s: string)
    ensures Upper(Upper(s)) == Upper(s)
  {
    var u := Upper(s);
    forall i | 0 <= i < |u|
      ensures Upper(u)[i] == u[i]
    {
      assert !('a' <= u[i] <= 'z');
    }
  }

  /** Upper-casing works character by character, so it distributes over concatenation. */
  lemma UpperConcat(a: string, b: string)
    ensures Upper(a + b) == Upper(a) + Upper(b)
  {
    forall i | 0 <= i < |a + b|
      ensures Upper(a + b)[i] == (Upper(a) + Upper(b))[i]
    {
      if i < |a| {
        assert (a + b)[i] == a[i];
      } else {
        assert (a + b)[i] == b[i - |a|];
      }
    }
  }

  /** `s.startswith(p)`. */
  predicate IsPrefix(p: string, s: string)
  {
    |p| <= |s| && s[..|p|] == p
  }

  /** `sub` occurs in `s` starting at index `i`. */
  predicate OccursAt(sub: string, s: string, i: int)
  {
    0 <= i && i + |sub| <= |s| && s[i..i + |sub|] == sub
  }

  /** Python's `sub in s`: true exactly when some index of `s` starts an occurrence of `sub`. */
  function Contains(s: string, sub: string): (r: bool)
    ensures r <==> exists i :: OccursAt(sub, s, i)
    decreases |s|
  {
    if |sub| > |s| then
      false
    else if s[..|sub|] == sub then
      assert OccursAt(sub, s, 0);
      true
    else
      var tail := s[1..];
      var r := Contains(tail, sub);
      if r then
        var i :| OccursAt(sub, tail, i);
        assert OccursAt(sub, s, i + 1) by {
          assert s[i + 1..i + 1 + |sub|] == tail[i..i + |sub|];
        }
        true
      else
        assert forall i :: OccursAt(sub, s, i) ==> OccursAt(sub, tail, i - 1) by {
          forall i | OccursAt(sub, s, i)
            ensures OccursAt(sub, tail, i - 1)
          {
            assert i != 0;
            assert tail[i - 1..i - 1 + |sub|] == s[i..i + |sub|];
          }
        }
        false
  }

  /** Python's `s.split("\n")`: the pieces between newline characters, always at least one. */
  function SplitOn(s: string): (r: seq<string>)
    ensures |r| >= 1
    ensures forall k :: 0 <= k < |r| ==> Newline !in r[k]
  {
    if s == [] then
      [[]]
    else if s[0] == Newline then
      [[]] + SplitOn(s[1..])
    else
      var rest := SplitOn(s[1..]);
      [[s[0]] + rest[0]] + rest[1..]
  }

  /** `"\n".join(lines)`. */
  function JoinLines(lines: seq<string>): string
  {
    if lines == [] then []
    else if |lines| == 1 then lines[0]
    else lines[0] + [Newline] + JoinLines(lines[1..])
  }

  /** Joining the pieces of a split gives the text back. */
  lemma {:induction false} JoinSplitOn(s: string)
    ensures JoinLines(SplitOn(s)) == s
  {
    if s != [] {
      JoinSplitOn(s[1..]);
      var rest := SplitOn(s[1..]);
      if s[0] != Newline && |rest| > 1 {
        assert [s[0]] + rest[0] + [Newline] + JoinLines(rest[1..]) == [s[0]] + JoinLines(rest);
      }
    }
  }

  /** Splitting a join of newline-free lines gives the lines back. */
  lemma {:induction false} SplitOnJoin(lines: seq<string>)
    requires |lines| >= 1
    requires forall k :: 0 <= k < |lines| ==> Newline !in lines[k]
    ensures SplitOn(JoinLines(lines)) == lines
  {
    if |lines| == 1 {
      SplitOnFree(lines[0]);
    } else {
      SplitOnJoin(lines[1..]);
      SplitOnPrefix(lines[0], JoinLines(lines[1..]));
    }
  }

  /** A newline-free text is a single piece. */
  lemma {:induction false} SplitOnFree(s: string)
    requires Newline !in s
    ensures SplitOn(s) == [s]
  {
    if s != [] {
      SplitOnFree(s[1..]);
      assert [s[0]] + s[1..] == s;
    }
  }

  /** Splitting `a + "\n" + b` for a newline-free `a` yields `a` followed by the pieces of `b`. */
  lemma {:induction false} SplitOnPrefix(a: string, b: string)
    requires Newline !in a
    ensures SplitOn(a + [Newline] + b) == [a] + SplitOn(b)
  {
    if a == [] {
      assert a + [Newline] + b == [Newline] + b;
      assert ([Newline] + b)[1..] == b;
    } else {
      SplitOnPrefix(a[1..], b);
      assert (a + [Newline] + b)[1..] == a[1..] + [Newline] + b;
      assert [a[0]] + a[1..] == a;
    }
  }

  /**
   * Python's `s.splitlines()` for text whose only line break is "\n": no lines for
   * the empty text, and a final newline does not start an extra empty line.
   */
  function SplitLines(s: string): (r: seq<string>)
    ensures s == [] <==> r == []
    ensures forall k :: 0 <= k < |r| ==> Newline !in r[k]
    ensures JoinLines(r) + (if s != [] && s[|s| - 1] == Newline then [Newline] else []) == s
  {
    if s == [] then
      []
    else if s[|s| - 1] == Newline then
      JoinSplitOn(s[..|s| - 1]);
      assert s[..|s| - 1] + [Newline] == s;
      SplitOn(s[..|s| - 1])
    else
      JoinSplitOn(s);
      SplitOn(s)
  }

  /** Lines joined and split again come back unchanged when the last one is not empty. */
  lemma SplitLinesJoin(lines: seq<string>)
    requires |lines| >= 1 && lines[|lines| - 1] != []
    requires forall k :: 0 <= k < |lines| ==> Newline !in lines[k]
    ensures SplitLines(JoinLines(lines)) == lines
  {
    SplitOnJoin(lines);
    JoinLastChar(lines);
  }

  /** The join ends with the last character of the last line, when that line is not empty. */
  lemma {:induction false} JoinLastChar(lines: seq<string>)
    requires |lines| >= 1 && lines[|lines| - 1] != []
    ensures var j := JoinLines(lines); j != [] && j[|j| - 1] == lines[|lines| - 1][|lines[|lines| - 1]| - 1]
  {
    if |lines| > 1 {
      JoinLastChar(lines[1..]);
    }
  }
}
