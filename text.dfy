/**
  The few operations on Python strings that the reconciliation code relies on:
  `lower()`, `strip()`, `replace(c, "")`, `in` (substring), `split(sep, 1)`,
  `rsplit(".", 1)`, `split()[0]`, `splitlines()` and `sep.join(...)`.
  Strings are sequences of characters; case mapping is ASCII only.
 */
module Text {
  import opened Wrappers

  /** The characters Python's `str.isspace()` accepts in the ASCII range. */
  predicate IsSpace(c: char) {
    c in {' ', '\t', '\n', '\r', '\U{B}', '\U{C}', '\U{1C}', '\U{1D}', '\U{1E}', '\U{1F}'}
  }

  /** The characters at which Python's `str.splitlines()` ends a line. */
  predicate IsLineBreak(c: char) {
    c in {'\n', '\r', '\U{B}', '\U{C}', '\U{1C}', '\U{1D}', '\U{1E}', '\U{85}', '\U{2028}', '\U{2029}'}
  }

  predicate NoLineBreak(s: string) {
    forall i :: 0 <= i < |s| ==> !IsLineBreak(s[i])
  }

  lemma NoLineBreakConcat(a: string, b: string)
    requires NoLineBreak(a) && NoLineBreak(b)
    ensures NoLineBreak(a + b)
  {
    forall i | 0 <= i < |a + b|
      ensures !IsLineBreak((a + b)[i])
    {
      if i < |a| {
        assert (a + b)[i] == a[i];
      } else {
        assert (a + b)[i] == b[i - |a|];
      }
    }
  }

  // ---------------------------------------------------------------------------
  // lower()

  function LowerChar(c: char): (r: char)
    ensures 'A' <= c <= 'Z' ==> r as int == c as int + 32
    ensures !('A' <= c <= 'Z') ==> r == c
  {
    if 'A' <= c <= 'Z' then (c as int + 32) as char else c
  }

  /** `s.lower()` restricted to the ASCII letters. */
  function Lower(s: string): (r: string)
    ensures |r| == |s|
    ensures forall i :: 0 <= i < |s| ==> r[i] == LowerChar(s[i])
  {
    seq(|s|, i requires 0 <= i < |s| => LowerChar(s[i]))
  }

  // ---------------------------------------------------------------------------
  // strip()

  function TrimLeft(s: string): (r: string)
    ensures |r| <= |s|
    ensures r != [] ==> !IsSpace(r[0])
  {
    if s != [] && IsSpace(s[0]) then TrimLeft(s[1..]) else s
  }

  /** `TrimLeft` drops a leading run of whitespace and keeps the rest. */
  lemma {:induction false} TrimLeftSuffix(s: string)
    ensures TrimLeft(s) == s[|s| - |TrimLeft(s)|..]
    ensures forall i :: 0 <= i < |s| - |TrimLeft(s)| ==> IsSpace(s[i])
  {
    if s != [] && IsSpace(s[0]) {
      TrimLeftSuffix(s[1..]);
      assert s[1..][|s| - 1 - |TrimLeft(s)|..] == s[|s| - |TrimLeft(s)|..];
      forall i | 1 <= i < |s| - |TrimLeft(s)|
        ensures IsSpace(s[i])
      {
        assert s[i] == s[1..][i - 1];
      }
    }
  }

  function TrimRight(s: string): (r: string)
    ensures |r| <= |s|
    ensures r != [] ==> !IsSpace(r[|r| - 1])
  {
    if s != [] && IsSpace(s[|s| - 1]) then TrimRight(s[..|s| - 1]) else s
  }

  /** `TrimRight` drops a trailing run of whitespace and keeps the rest. */
  lemma {:induction false} TrimRightPrefix(s: string)
    ensures TrimRight(s) == s[..|TrimRight(s)|]
    ensures forall i :: |TrimRight(s)| <= i < |s| ==> IsSpace(s[i])
  {
    if s != [] && IsSpace(s[|s| - 1]) {
      TrimRightPrefix(s[..|s| - 1]);
      forall i | |TrimRight(s)| <= i < |s| - 1
        ensures IsSpace(s[i])
      {
        assert s[i] == s[..|s| - 1][i];
      }
    }
  }

  /** Where `Strip(s)` starts inside `s`. */
  function StripStart(s: string): (k: nat)
    ensures k <= |s|
  {
    |s| - |TrimLeft(s)|
  }

  /** `s.strip()`: both trims. */
  function Strip(s: string): (r: string)
    ensures |r| <= |s|
  {
    TrimRight(TrimLeft(s))
  }

  /** The stripped text neither starts nor ends with whitespace. */
  lemma StripEnds(s: string)
    ensures Strip(s) == [] || (!IsSpace(Strip(s)[0]) && !IsSpace(Strip(s)[|Strip(s)| - 1]))
  {
    TrimRightPrefix(TrimLeft(s));
  }

  /** `s.strip()` is the infix of `s` between a leading and a trailing run of whitespace. */
  lemma StripInfix(s: string)
    ensures StripStart(s) + |Strip(s)| <= |s|
    ensures Strip(s) == s[StripStart(s)..StripStart(s) + |Strip(s)|]
    ensures forall i :: 0 <= i < StripStart(s) ==> IsSpace(s[i])
    ensures forall i :: StripStart(s) + |Strip(s)| <= i < |s| ==> IsSpace(s[i])
  {
    var t := TrimLeft(s);
    var k := |s| - |t|;
    var m := |TrimRight(t)|;
    TrimLeftSuffix(s);
    TrimRightPrefix(t);
    assert t == s[k..];
    assert Strip(s) == t[..m];
    assert t[..m] == s[k..k + m];
    forall i | k + m <= i < |s|
      ensures IsSpace(s[i])
    {
      assert s[i] == t[i - k];
    }
  }

  lemma StripKeeps(s: string)
    requires s == [] || (!IsSpace(s[0]) && !IsSpace(s[|s| - 1]))
    ensures Strip(s) == s
  {
  }

  lemma StripDropsFirst(c: char, s: string)
    requires IsSpace(c)
    ensures Strip([c] + s) == Strip(s)
  {
    assert ([c] + s)[1..] == s;
  }

  lemma StripDropsLast(s: string, c: char)
    requires IsSpace(c)
    requires s != [] && !IsSpace(s[0])
    ensures Strip(s + [c]) == Strip(s)
  {
    assert TrimLeft(s + [c]) == s + [c];
    assert TrimLeft(s) == s;
    assert (s + [c])[..|s + [c]| - 1] == s;
  }

  // ---------------------------------------------------------------------------
  // replace(c, "")

  /** `s` with every character of `cs` deleted, as chained `replace(c, "")` calls do. */
  function RemoveChars(s: string, cs: set<char>): (r: string)
    ensures |r| <= |s|
    ensures forall i :: 0 <= i < |r| ==> r[i] !in cs
  {
    if s == [] then []
    else if s[0] in cs then RemoveChars(s[1..], cs)
    else [s[0]] + RemoveChars(s[1..], cs)
  }

  lemma {:induction false} RemoveCharsAbsent(s: string, cs: set<char>)
    requires forall i :: 0 <= i < |s| ==> s[i] !in cs
    ensures RemoveChars(s, cs) == s
  {
    if s != [] {
      RemoveCharsAbsent(s[1..], cs);
    }
  }

  lemma {:induction false} RemoveCharsAppend(s: string, t: string, cs: set<char>)
    ensures RemoveChars(s + t, cs) == RemoveChars(s, cs) + RemoveChars(t, cs)
  {
    if s != [] {
      assert (s + t)[1..] == s[1..] + t;
      RemoveCharsAppend(s[1..], t, cs);
    } else {
      assert s + t == t;
    }
  }

  // ---------------------------------------------------------------------------
  // substring search: `needle in hay`, `hay.split(needle, 1)`

  predicate OccursAt(hay: string, needle: string, i: int) {
    0 <= i && i + |needle| <= |hay| && hay[i..i + |needle|] == needle
  }

  /** The position of the first occurrence of `needle` in `hay` (`hay.find(needle)`). */
  function IndexOf(hay: string, needle: string): (r: Option<nat>)
    ensures r.Some? ==> OccursAt(hay, needle, r.value)
    ensures r.Some? ==> forall i :: 0 <= i < r.value ==> !OccursAt(hay, needle, i)
    ensures r.None? ==> forall i :: !OccursAt(hay, needle, i)
    decreases |hay|
  {
    if needle <= hay then
      assert hay[0..|needle|] == needle;
      Some(0)
    else if hay == [] then
      None
    else
      var r := IndexOf(hay[1..], needle);
      ShiftOccurs(hay, needle);
      if r.Some? then Some(r.value + 1) else None
  }

  lemma ShiftOccurs(hay: string, needle: string)
    requires hay != []
    ensures forall i :: 1 <= i ==> (OccursAt(hay, needle, i) <==> OccursAt(hay[1..], needle, i - 1))
    ensures needle <= hay <==> OccursAt(hay, needle, 0)
  {
    forall i | 1 <= i
      ensures OccursAt(hay, needle, i) <==> OccursAt(hay[1..], needle, i - 1)
    {
      if i + |needle| <= |hay| {
        SliceOfSlice(hay, 1, |hay| - 1, i - 1, |needle|);
      }
    }
    assert needle <= hay ==> hay[..|needle|] == needle;
  }

  lemma SliceOfSlice(s: string, k: nat, len: nat, i: nat, n: nat)
    requires k + len <= |s| && i + n <= len
    ensures s[k..k + len][i..i + n] == s[k + i..k + i + n]
  {
    var u, v := s[k..k + len][i..i + n], s[k + i..k + i + n];
    forall j | 0 <= j < n
      ensures u[j] == v[j]
    {
      assert u[j] == s[k..k + len][i + j] == s[k + i + j];
    }
  }

  /** Python's `needle in hay`. */
  predicate Contains(hay: string, needle: string) {
    IndexOf(hay, needle).Some?
  }

  lemma ContainsIff(hay: string, needle: string)
    ensures Contains(hay, needle) <==> exists i :: OccursAt(hay, needle, i)
  {
  }

  /** Looking inside a longer text finds at least what the shorter text holds. */
  lemma ContainsInfix(hay: string, k: nat, len: nat, needle: string)
    requires k + len <= |hay|
    requires Contains(hay[k..k + len], needle)
    ensures Contains(hay, needle)
  {
    var i := IndexOf(hay[k..k + len], needle).value;
    OccursInfix(hay, k, len, needle, i);
    OccursContains(hay, needle, k + i);
  }

  lemma OccursInfix(hay: string, k: nat, len: nat, needle: string, i: nat)
    requires k + len <= |hay|
    requires OccursAt(hay[k..k + len], needle, i)
    ensures OccursAt(hay, needle, k + i)
  {
    SliceOfSlice(hay, k, len, i, |needle|);
  }

  lemma OccursContains(hay: string, needle: string, i: nat)
    requires OccursAt(hay, needle, i)
    ensures Contains(hay, needle)
  {
  }

  /** The empty needle is found in every text. */
  lemma ContainsEmpty(hay: string)
    ensures Contains(hay, "")
  {
    assert OccursAt(hay, "", 0);
  }

  /** `hay.split(sep, 1)` unpacked into two parts; None when `sep` does not occur (the unpacking fails). */
  function SplitOnce(hay: string, sep: string): (r: Option<(string, string)>)
    ensures r.None? <==> !Contains(hay, sep)
    ensures r.Some? ==> hay == r.value.0 + sep + r.value.1
    ensures r.Some? ==> forall j :: 0 <= j < |r.value.0| ==> !OccursAt(hay, sep, j)
  {
    match IndexOf(hay, sep)
    case None => None
    case Some(i) =>
      CutAround(hay, i, |sep|);
      Some((hay[..i], hay[i + |sep|..]))
  }

  /** A text is what lies before, inside and after one of its slices. */
  lemma CutAround(s: string, i: nat, n: nat)
    requires i + n <= |s|
    ensures s == s[..i] + s[i..i + n] + s[i + n..]
  {
  }

  /** When the text before `sep` holds none of its first character, the split happens right there. */
  lemma {:induction false} SplitOnceAt(before: string, sep: string, after: string)
    requires sep != []
    requires forall i :: 0 <= i < |before| ==> before[i] != sep[0]
    ensures SplitOnce(before + sep + after, sep) == Some((before, after))
  {
    var hay := before + sep + after;
    assert OccursAt(hay, sep, |before|) by {
      assert hay[|before|..|before| + |sep|] == sep;
    }
    forall j | 0 <= j < |before|
      ensures !OccursAt(hay, sep, j)
    {
      assert hay[j] == before[j];
    }
    var i := IndexOf(hay, sep).value;
    assert i == |before|;
    assert hay[..i] == before;
    assert hay[i + |sep|..] == after;
  }

  // ---------------------------------------------------------------------------
  // rsplit(".", 1)

  /** The position of the last `c` in `s`. */
  function LastIndexOf(s: string, c: char): (r: Option<nat>)
    ensures r.Some? ==> r.value < |s| && s[r.value] == c
    ensures r.Some? ==> forall i :: r.value < i < |s| ==> s[i] != c
    ensures r.None? ==> forall i :: 0 <= i < |s| ==> s[i] != c
  {
    if s == [] then None
    else if s[|s| - 1] == c then Some(|s| - 1)
    else LastIndexOf(s[..|s| - 1], c)
  }

  // ---------------------------------------------------------------------------
  // split()[0]

  function WordEnd(s: string): (r: nat)
    ensures r <= |s|
    ensures forall i :: 0 <= i < r ==> !IsSpace(s[i])
    ensures r < |s| ==> IsSpace(s[r])
  {
    if s == [] || IsSpace(s[0]) then 0 else 1 + WordEnd(s[1..])
  }

  /** `s.split()[0]`; None where Python raises IndexError (no word at all). */
  function FirstWord(s: string): (r: Option<string>)
    ensures r.None? <==> forall i :: 0 <= i < |s| ==> IsSpace(s[i])
    ensures r.Some? ==> r.value != [] && forall i :: 0 <= i < |r.value| ==> !IsSpace(r.value[i])
  {
    var t := TrimLeft(s);
    TrimLeftSuffix(s);
    if t == [] then None else Some(t[..WordEnd(t)])
  }

  /** The first word of `w + rest` is `w` when `w` has no whitespace and `rest` starts with some. */
  lemma FirstWordAt(w: string, rest: string)
    requires w != [] && forall i :: 0 <= i < |w| ==> !IsSpace(w[i])
    requires rest == [] || IsSpace(rest[0])
    ensures FirstWord(w + rest) == Some(w)
  {
    var s := w + rest;
    assert TrimLeft(s) == s;
    assert forall i :: 0 <= i < |w| ==> s[i] == w[i];
    assert |w| < |s| ==> s[|w|] == rest[0];
    assert s[..WordEnd(s)] == w;
  }

  /** Leading whitespace is dropped and nothing else. */
  lemma {:induction false} TrimLeftSpaces(lead: string, s: string)
    requires forall i :: 0 <= i < |lead| ==> IsSpace(lead[i])
    requires s == [] || !IsSpace(s[0])
    ensures TrimLeft(lead + s) == s
    decreases |lead|
  {
    if lead == [] {
      assert lead + s == s;
    } else {
      assert (lead + s)[1..] == lead[1..] + s;
      TrimLeftSpaces(lead[1..], s);
    }
  }

  /** Whatever whitespace comes first, the first word of `lead + w + rest` is `w`. */
  lemma FirstWordAfter(lead: string, w: string, rest: string)
    requires forall i :: 0 <= i < |lead| ==> IsSpace(lead[i])
    requires w != [] && forall i :: 0 <= i < |w| ==> !IsSpace(w[i])
    requires rest == [] || IsSpace(rest[0])
    ensures FirstWord(lead + w + rest) == Some(w)
  {
    assert lead + w + rest == lead + (w + rest);
    TrimLeftSpaces(lead, w + rest);
    TrimLeftSpaces([], w + rest);
    FirstWordAt(w, rest);
  }

  // ---------------------------------------------------------------------------
  // splitlines() and "\n".join(...)

  /** The position of the first line break in `s`, or `|s|`. */
  function LineEnd(s: string): (r: nat)
    ensures r <= |s|
    ensures forall i :: 0 <= i < r ==> !IsLineBreak(s[i])
    ensures r < |s| ==> IsLineBreak(s[r])
  {
    if s == [] || IsLineBreak(s[0]) then 0 else 1 + LineEnd(s[1..])
  }

  /** `s.splitlines()`: no final empty line, and "\r\n" ends a single line. */
  function SplitLines(s: string): (r: seq<string>)
    ensures forall k :: 0 <= k < |r| ==> NoLineBreak(r[k])
    decreases |s|
  {
    if s == [] then []
    else
      var i := LineEnd(s);
      if i == |s| then [s]
      else if s[i] == '\r' && i + 1 < |s| && s[i + 1] == '\n' then [s[..i]] + SplitLines(s[i + 2..])
      else [s[..i]] + SplitLines(s[i + 1..])
  }

  /** `"\n".join(lines)`. */
  function JoinLines(lines: seq<string>): string {
    if |lines| == 0 then ""
    else if |lines| == 1 then lines[0]
    else lines[0] + "\n" + JoinLines(lines[1..])
  }

  lemma LineEndAt(a: string, b: string)
    requires NoLineBreak(a)
    requires b != [] && IsLineBreak(b[0])
    ensures LineEnd(a + b) == |a|
  {
    if a != [] {
      assert (a + b)[1..] == a[1..] + b;
      LineEndAt(a[1..], b);
    } else {
      assert a + b == b;
    }
  }

  lemma LineEndNone(a: string)
    requires NoLineBreak(a)
    ensures LineEnd(a) == |a|
  {
    if a != [] {
      LineEndNone(a[1..]);
    }
  }

  /** A line followed by "\n" comes back first, whatever follows it. */
  lemma SplitLinesCons(a: string, b: string)
    requires NoLineBreak(a)
    ensures SplitLines(a + "\n" + b) == [a] + SplitLines(b)
  {
    var s := a + "\n" + b;
    LineEndAt(a, "\n" + b);
    assert a + ("\n" + b) == s;
    assert s[..|a|] == a;
    assert s[|a| + 1..] == b;
  }

  /** Two unbroken lines in front of a text are its first two lines. */
  lemma SplitTwoLines(a: string, b: string, rest: string)
    requires NoLineBreak(a) && NoLineBreak(b)
    ensures SplitLines(a + "\n" + (b + "\n" + rest)) == [a, b] + SplitLines(rest)
  {
    SplitLinesCons(a, b + "\n" + rest);
    SplitLinesCons(b, rest);
  }

  /** `"\n".join` then `splitlines()` gives the lines back when none is empty or holds a break. */
  lemma {:induction false} SplitJoinLines(lines: seq<string>)
    requires forall k :: 0 <= k < |lines| ==> lines[k] != [] && NoLineBreak(lines[k])
    ensures SplitLines(JoinLines(lines)) == lines
  {
    if |lines| == 1 {
      LineEndNone(lines[0]);
    } else if |lines| > 1 {
      SplitLinesCons(lines[0], JoinLines(lines[1..]));
      SplitJoinLines(lines[1..]);
    }
  }

  // ---------------------------------------------------------------------------
  // sep.join(parts) for a one-character separator

  function JoinWith(parts: seq<string>, sep: char): string {
    if |parts| == 0 then ""
    else if |parts| == 1 then parts[0]
    else parts[0] + [sep] + JoinWith(parts[1..], sep)
  }

  predicate Excludes(s: string, c: char) {
    forall i :: 0 <= i < |s| ==> s[i] != c
  }

  lemma {:induction false} JoinWithExcludes(parts: seq<string>, sep: char, c: char)
    requires c != sep
    requires forall k :: 0 <= k < |parts| ==> Excludes(parts[k], c)
    ensures Excludes(JoinWith(parts, sep), c)
  {
    if |parts| > 1 {
      JoinWithExcludes(parts[1..], sep, c);
    }
  }

  /** The position of the first `c` in `s`, or `|s|`. */
  function CharEnd(s: string, c: char): (r: nat)
    ensures r <= |s|
  {
    if s == [] || s[0] == c then 0 else 1 + CharEnd(s[1..], c)
  }

  lemma {:induction false} CharEndAt(a: string, c: char, rest: string)
    requires Excludes(a, c)
    ensures CharEnd(a + [c] + rest, c) == |a|
  {
    if a != [] {
      assert (a + [c] + rest)[1..] == a[1..] + [c] + rest;
      CharEndAt(a[1..], c, rest);
    }
  }

  /** Two texts cut at their first `sep` agree on both parts. */
  lemma CutAtSeparator(a: string, x: string, b: string, y: string, sep: char)
    requires Excludes(a, sep) && Excludes(b, sep)
    requires a + [sep] + x == b + [sep] + y
    ensures a == b && x == y
  {
    var s := a + [sep] + x;
    CharEndAt(a, sep, x);
    CharEndAt(b, sep, y);
    assert a == s[..|a|];
    assert x == s[|a| + 1..];
  }

  /**
    Joining with a separator that occurs in no part is injective on lists of one length:
    equal joined texts have equal parts.
   */
  lemma {:induction false} JoinWithInjective(p: seq<string>, q: seq<string>, sep: char)
    requires |p| == |q|
    requires forall k :: 0 <= k < |p| ==> Excludes(p[k], sep)
    requires forall k :: 0 <= k < |q| ==> Excludes(q[k], sep)
    requires JoinWith(p, sep) == JoinWith(q, sep)
    ensures p == q
  {
    if |p| > 1 {
      CutAtSeparator(p[0], JoinWith(p[1..], sep), q[0], JoinWith(q[1..], sep), sep);
      JoinWithInjective(p[1..], q[1..], sep);
      assert p == [p[0]] + p[1..];
      assert q == [q[0]] + q[1..];
    }
  }
}
