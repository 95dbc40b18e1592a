/**
 * The handful of Python string operations the agents rely on, over ASCII text:
 * `str.strip`, `str.lower`, `str.startswith`, `str.split('\n')`, `sep.join(...)`
 * and the `in` substring test.
 */
module PyText {

  /** The ASCII characters for which Python's `str.isspace()` holds. */
  predicate IsSpace(c: char) {
    c == ' ' || c == '\t' || c == '\n' || c == '\r' || c == '\U{000B}' || c == '\U{000C}'
    || c == '\U{001C}' || c == '\U{001D}' || c == '\U{001E}' || c == '\U{001F}'
  }

  /** `s.lstrip()`: a suffix of `s`, with only whitespace cut off before it. */
  function LStrip(s: string): (r: string)
    ensures |r| <= |s|
    ensures r == [] || !IsSpace(r[0])
  {
    if |s| > 0 && IsSpace(s[0]) then LStrip(s[1..]) else s
  }

  /** `s.rstrip()`: a prefix of `s`, with only whitespace cut off after it. */
  function RStrip(s: string): (r: string)
    ensures |r| <= |s|
    ensures r == [] || !IsSpace(r[|r| - 1])
    ensures r == s[..|r|]
  {
    if |s| > 0 && IsSpace(s[|s| - 1]) then RStrip(s[..|s| - 1]) else s
  }

  /** `s.strip()`: leading and trailing whitespace removed. */
  function Strip(s: string): (r: string)
    ensures |r| <= |s|
    ensures r == [] || (!IsSpace(r[0]) && !IsSpace(r[|r| - 1]))
  {
    RStrip(LStrip(s))
  }

  /** Proof helper: `lstrip` cuts off only leading whitespace. */
  lemma {:induction false} LStripCuts(s: string)
    ensures LStrip(s) == s[|s| - |LStrip(s)|..]
    ensures forall k | 0 <= k < |s| - |LStrip(s)| :: IsSpace(s[k])
  {
    if |s| > 0 && IsSpace(s[0]) {
      LStripCuts(s[1..]);
      forall k | 1 <= k < |s| - |LStrip(s)| ensures IsSpace(s[k]) {
        assert s[k] == s[1..][k - 1];
      }
    }
  }

  /** Proof helper: `rstrip` cuts off only trailing whitespace. */
  lemma {:induction false} RStripCuts(s: string)
    ensures forall k | |RStrip(s)| <= k < |s| :: IsSpace(s[k])
  {
    if |s| > 0 && IsSpace(s[|s| - 1]) {
      RStripCuts(s[..|s| - 1]);
    }
  }

  /**
   * `s.strip()` is the slice `s[i..j]` that remains once the whitespace before `i` and
   * from `j` on is cut off; it neither starts nor ends with whitespace.
   */
  lemma StripIsSlice(s: string)
    ensures var i := |s| - |LStrip(s)|;
      var j := i + |Strip(s)|;
      && j <= |s|
      && Strip(s) == s[i..j]
      && (forall k | 0 <= k < i :: IsSpace(s[k]))
      && (forall k | j <= k < |s| :: IsSpace(s[k]))
  {
    var l := LStrip(s);
    LStripCuts(s);
    RStripCuts(l);
    var i := |s| - |l|;
    var j := i + |Strip(s)|;
    assert Strip(s) == l[..|Strip(s)|];
    forall k | j <= k < |s| ensures IsSpace(s[k]) {
      assert s[k] == l[k - i];
    }
  }

  lemma {:induction false} StripFirst(s: string)
    requires |s| > 0 && !IsSpace(s[0])
    ensures |Strip(s)| > 0 && Strip(s)[0] == s[0]
  {
    assert LStrip(s) == s;
    RStripKeepsFirst(s);
  }

  lemma {:induction false} RStripKeepsFirst(s: string)
    requires |s| > 0 && !IsSpace(s[0])
    ensures |RStrip(s)| > 0 && RStrip(s)[0] == s[0]
  {
    if IsSpace(s[|s| - 1]) {
      RStripKeepsFirst(s[..|s| - 1]);
    }
  }

  /** A line without surrounding whitespace is its own `strip()`. */
  lemma StripTrimmed(s: string)
    requires |s| > 0 && !IsSpace(s[0]) && !IsSpace(s[|s| - 1])
    ensures Strip(s) == s
  {
    assert LStrip(s) == s;
  }

  /** `c.lower()` for an ASCII character. */
  function LowerChar(c: char): char {
    if 'A' <= c <= 'Z' then (c as int + 32) as char else c
  }

  /** `s.lower()`, ASCII letters only. */
  function Lower(s: string): (r: string)
    ensures |r| == |s|
  {
    if s == [] then [] else [LowerChar(s[0])] + Lower(s[1..])
  }

  lemma {:induction false} LowerAt(s: string, i: nat)
    requires i < |s|
    ensures Lower(s)[i] == LowerChar(s[i])
  {
    if i > 0 {
      LowerAt(s[1..], i - 1);
    }
  }

  lemma {:induction false} LowerConcat(a: string, b: string)
    ensures Lower(a + b) == Lower(a) + Lower(b)
  {
    if a == [] {
      assert a + b == b;
    } else {
      assert (a + b)[0] == a[0];
      assert (a + b)[1..] == a[1..] + b;
      LowerConcat(a[1..], b);
    }
  }

  predicate NoUpper(s: string) {
    forall c | c in s :: !('A' <= c <= 'Z')
  }

  lemma LowerNoUpper(s: string)
    requires NoUpper(s)
    ensures Lower(s) == s
  {
    forall i | 0 <= i < |s| ensures Lower(s)[i] == s[i] {
      assert s[i] in s;
      LowerAt(s, i);
    }
  }

  /** `s.startswith(p)`, compared character by character. */
  predicate StartsWith(s: string, p: string)
    decreases |p|
  {
    |p| == 0 || (|s| > 0 && s[0] == p[0] && StartsWith(s[1..], p[1..]))
  }

  /** `s.startswith(p)` holds exactly when `p` is the first `|p|` characters of `s`. */
  lemma {:induction false} StartsWithSlice(s: string, p: string)
    ensures StartsWith(s, p) <==> |p| <= |s| && s[..|p|] == p
    decreases |p|
  {
    if |p| > 0 && |s| > 0 {
      StartsWithSlice(s[1..], p[1..]);
      if s[0] == p[0] && |p| <= |s| {
        assert s[..|p|] == [s[0]] + s[1..][..|p| - 1];
        assert p == [p[0]] + p[1..];
      }
    }
  }

  /** The longest suffix of `s` that does not begin with whitespace (what `\s*` consumes). */
  function DropSpaces(s: string): (r: string)
    ensures |r| <= |s|
    ensures r == [] || !IsSpace(r[0])
  {
    if |s| > 0 && IsSpace(s[0]) then DropSpaces(s[1..]) else s
  }

  /** `s.split('\n')`: never empty; the pieces hold no newline. */
  function Split(s: string): (r: seq<string>)
    ensures |r| >= 1
  {
    if |s| == 0 then [""]
    else if s[0] == '\n' then [""] + Split(s[1..])
    else
      var rest := Split(s[1..]);
      [[s[0]] + rest[0]] + rest[1..]
  }

  /** `s` holds no newline. */
  predicate Flat(s: string) {
    forall i | 0 <= i < |s| :: s[i] != '\n'
  }

  lemma {:induction false} SplitNoNewline(s: string)
    requires Flat(s)
    ensures Split(s) == [s]
  {
    if |s| > 0 {
      assert Flat(s[1..]) by {
        forall i | 0 <= i < |s| - 1 ensures s[1..][i] != '\n' {
          assert s[1..][i] == s[i + 1];
        }
      }
      SplitNoNewline(s[1..]);
      assert [s[0]] + s[1..] == s;
    }
  }

  /** Splitting at a newline splits the two sides independently. */
  lemma {:induction false} SplitConcat(a: string, b: string)
    ensures Split(a + "\n" + b) == Split(a) + Split(b)
  {
    if |a| == 0 {
      assert a + "\n" + b == "\n" + b;
      assert ("\n" + b)[1..] == b;
    } else {
      var s := a + "\n" + b;
      assert s[0] == a[0];
      assert s[1..] == a[1..] + "\n" + b;
      SplitConcat(a[1..], b);
    }
  }

  /** `sep.join(parts)`. */
  function Join(sep: string, parts: seq<string>): string {
    if |parts| == 0 then ""
    else if |parts| == 1 then parts[0]
    else parts[0] + sep + Join(sep, parts[1..])
  }

  lemma {:induction false} JoinAppend(sep: string, a: seq<string>, b: seq<string>)
    requires |a| > 0 && |b| > 0
    ensures Join(sep, a + b) == Join(sep, a) + sep + Join(sep, b)
  {
    if |a| == 1 {
      assert (a + b)[1..] == b;
    } else {
      assert (a + b)[1..] == a[1..] + b;
      JoinAppend(sep, a[1..], b);
    }
  }

  /** Joining newline-free lines with "\n" and splitting again gives the lines back. */
  lemma {:induction false} SplitJoin(lines: seq<string>)
    requires |lines| > 0
    requires forall k | 0 <= k < |lines| :: Flat(lines[k])
    ensures Split(Join("\n", lines)) == lines
  {
    SplitNoNewline(lines[0]);
    if |lines| > 1 {
      assert forall k | 0 <= k < |lines| - 1 :: lines[1..][k] == lines[k + 1];
      SplitJoin(lines[1..]);
      SplitConcat(lines[0], Join("\n", lines[1..]));
    }
  }

  /** `needle` occurs in `hay` starting at index `i`. */
  predicate OccursAt(hay: string, needle: string, i: int) {
    0 <= i <= |hay| - |needle| && hay[i..i + |needle|] == needle
  }

  /** `needle in hay` for strings. */
  predicate Contains(hay: string, needle: string) {
    exists i | 0 <= i <= |hay| - |needle| :: OccursAt(hay, needle, i)
  }

  lemma ContainsMiddle(a: string, needle: string, b: string)
    ensures Contains(a + needle + b, needle)
  {
    var hay := a + needle + b;
    assert OccursAt(hay, needle, |a|);
  }

  /** Text that occurs in `a` still occurs once more text is appended. */
  lemma ContainsGrows(a: string, b: string, needle: string)
    requires Contains(a, needle)
    ensures Contains(a + b, needle)
  {
    var i :| 0 <= i <= |a| - |needle| && OccursAt(a, needle, i);
    assert (a + b)[i..i + |needle|] == a[i..i + |needle|];
    assert OccursAt(a + b, needle, i);
  }

  /** Text that occurs in `b` still occurs once more text is prepended. */
  lemma ContainsShifts(a: string, b: string, needle: string)
    requires Contains(b, needle)
    ensures Contains(a + b, needle)
  {
    var i :| 0 <= i <= |b| - |needle| && OccursAt(b, needle, i);
    assert (a + b)[|a| + i..|a| + i + |needle|] == b[i..i + |needle|];
    assert OccursAt(a + b, needle, |a| + i);
  }

  /** Every joined part occurs in the joined text. */
  lemma {:induction false} JoinContains(sep: string, parts: seq<string>, k: nat)
    requires k < |parts|
    ensures Contains(Join(sep, parts), parts[k])
  {
    assert OccursAt(parts[k], parts[k], 0);
    if |parts| > 1 {
      var rest := Join(sep, parts[1..]);
      assert Join(sep, parts) == (parts[0] + sep) + rest;
      if k == 0 {
        ContainsGrows(parts[0], sep + rest, parts[0]);
        assert parts[0] + (sep + rest) == Join(sep, parts);
      } else {
        JoinContains(sep, parts[1..], k - 1);
        assert parts[1..][k - 1] == parts[k];
        ContainsShifts(parts[0] + sep, rest, parts[k]);
      }
    }
  }
}
