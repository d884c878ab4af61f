/**
 * The Python string builtins the tutor relies on: `sep.join(parts)`,
 * `s.strip()`, `s.lower()`, `s.endswith(suffix)` and `needle in hay`.
 */
module PyText {

  /** `sep.join(parts)`: the parts in order, with `sep` between neighbours. */
  function Join(sep: string, parts: seq<string>): string
    decreases |parts|
  {
    if |parts| == 0 then ""
    else if |parts| == 1 then parts[0]
    else parts[0] + sep + Join(sep, parts[1..])
  }

  /** Sum of the lengths of the parts. */
  function TotalLength(parts: seq<string>): nat
    decreases |parts|
  {
    if parts == [] then 0 else |parts[0]| + TotalLength(parts[1..])
  }

  /** A join starts with its first part. */
  lemma {:induction false} JoinStartsWithFirst(sep: string, parts: seq<string>)
    requires |parts| >= 1
    ensures |parts[0]| <= |Join(sep, parts)|
    ensures Join(sep, parts)[..|parts[0]|] == parts[0]
  {
    if |parts| > 1 {
      var j := Join(sep, parts);
      assert j == parts[0] + (sep + Join(sep, parts[1..]));
    }
  }

  /** Splitting the parts at `k` splits the join at one separator. */
  lemma {:induction false} JoinSplit(sep: string, parts: seq<string>, k: nat)
    requires 0 < k < |parts|
    ensures Join(sep, parts) == Join(sep, parts[..k]) + sep + Join(sep, parts[k..])
    decreases k
  {
    var tail := parts[1..];
    assert Join(sep, parts) == parts[0] + sep + Join(sep, tail);
    if k == 1 {
      assert parts[..1] == [parts[0]];
      assert tail == parts[k..];
    } else {
      var front := parts[..k];
      JoinSplit(sep, tail, k - 1);
      assert front[1..] == tail[..k - 1];
      assert tail[k - 1..] == parts[k..];
      assert Join(sep, front) == parts[0] + sep + Join(sep, front[1..]);
    }
  }

  /** Part `k` sits between the join of the parts before it and the join of those after it. */
  lemma JoinAt(sep: string, parts: seq<string>, k: nat)
    requires k < |parts|
    ensures Join(sep, parts) ==
      (if k == 0 then "" else Join(sep, parts[..k]) + sep)
      + parts[k]
      + (if k == |parts| - 1 then "" else sep + Join(sep, parts[k + 1..]))
  {
    var rest := parts[k..];
    assert rest[0] == parts[k] && rest[1..] == parts[k + 1..];
    if k > 0 {
      JoinSplit(sep, parts, k);
    } else {
      assert rest == parts;
    }
  }

  /** A join of n parts holds the parts' characters plus n - 1 separators. */
  lemma {:induction false} JoinLength(sep: string, parts: seq<string>)
    requires |parts| >= 1
    ensures |Join(sep, parts)| == TotalLength(parts) + (|parts| - 1) * |sep|
    decreases |parts|
  {
    if |parts| > 1 {
      JoinLength(sep, parts[1..]);
      assert (|parts| - 1) * |sep| == |sep| + (|parts| - 2) * |sep|;
    }
  }

  /** Every character of a join comes from one of the parts or from the separator. */
  lemma {:induction false} JoinChars(sep: string, parts: seq<string>, c: char)
    requires c in Join(sep, parts)
    ensures c in sep || exists i :: 0 <= i < |parts| && c in parts[i]
    decreases |parts|
  {
    if |parts| > 1 {
      var rest := Join(sep, parts[1..]);
      if c !in parts[0] && c !in sep {
        assert c in rest;
        JoinChars(sep, parts[1..], c);
        var i :| 0 <= i < |parts[1..]| && c in parts[1..][i];
        assert c in parts[i + 1];
      }
    } else {
      assert c in parts[0];
    }
  }

  /** Python's `str.isspace()` for one character. */
  predicate IsSpace(c: char) {
    var n := c as int;
    (0x09 <= n <= 0x0D) || (0x1C <= n <= 0x20) || n == 0x85 || n == 0xA0 || n == 0x1680
    || (0x2000 <= n <= 0x200A) || n == 0x2028 || n == 0x2029 || n == 0x202F
    || n == 0x205F || n == 0x3000
  }

  predicate AllSpace(s: string) {
    forall i :: 0 <= i < |s| ==> IsSpace(s[i])
  }

  /** `s.lstrip()`: the longest suffix of `s` that does not start with whitespace. */
  function LStrip(s: string): (r: string)
    ensures |r| <= |s| && r == s[|s| - |r|..]
    ensures forall i :: 0 <= i < |s| - |r| ==> IsSpace(s[i])
    ensures r != "" ==> !IsSpace(r[0])
    decreases |s|
  {
    if |s| > 0 && IsSpace(s[0]) then LStrip(s[1..]) else s
  }

  /** `s.rstrip()`: the longest prefix of `s` that does not end with whitespace. */
  function RStrip(s: string): (r: string)
    ensures |r| <= |s| && r == s[..|r|]
    ensures forall i :: |r| <= i < |s| ==> IsSpace(s[i])
    ensures r != "" ==> !IsSpace(r[|r| - 1])
    decreases |s|
  {
    if |s| > 0 && IsSpace(s[|s| - 1]) then RStrip(s[..|s| - 1]) else s
  }

  /**
   * `s.strip()`: a slice of `s` with only whitespace cut away on either side,
   * and no whitespace left at either end.
   */
  function Strip(s: string): (r: string)
    ensures |r| <= |s|
    ensures exists p :: 0 <= p && p + |r| <= |s| && r == s[p..p + |r|] && AllSpace(s[..p]) && AllSpace(s[p + |r|..])
    ensures r != "" ==> !IsSpace(r[0]) && !IsSpace(r[|r| - 1])
  {
    var l := LStrip(s);
    var p := |s| - |l|;
    var r := RStrip(l);
    assert s[p..p + |r|] == r;
    assert AllSpace(s[..p]);
    var tail := s[p + |r|..];
    forall i | 0 <= i < |tail| ensures IsSpace(tail[i]) {
      assert tail[i] == l[|r| + i];
    }
    r
  }

  /** `not s.strip()` holds exactly for strings made of whitespace only. */
  lemma StripEmptyIff(s: string)
    ensures Strip(s) == "" <==> AllSpace(s)
  {
    var l := LStrip(s);
    if l != "" {
      assert !IsSpace(s[|s| - |l|]);
    }
  }

  /** Python's `c.lower()` restricted to the ASCII letters. */
  function LowerChar(c: char): char {
    if 'A' <= c <= 'Z' then (c as int + 32) as char else c
  }

  function Lower(s: string): (r: string)
    ensures |r| == |s|
    ensures forall i :: 0 <= i < |s| && 'A' <= s[i] <= 'Z' ==> r[i] as int == s[i] as int + 32
    ensures forall i :: 0 <= i < |s| && !('A' <= s[i] <= 'Z') ==> r[i] == s[i]
  {
    seq(|s|, i requires 0 <= i < |s| => LowerChar(s[i]))
  }

  predicate EndsWith(s: string, suffix: string) {
    |suffix| <= |s| && s[|s| - |suffix|..] == suffix
  }

  /** `needle in hay` for strings: `needle` occurs as a contiguous substring. */
  predicate IsSubstring(needle: string, hay: string): (found: bool)
    ensures found ==> |needle| <= |hay|
  {
    exists i | 0 <= i <= |hay| - |needle| :: OccursAt(needle, hay, i)
  }

  predicate OccursAt(needle: string, hay: string, i: int) {
    0 <= i <= |hay| - |needle| && hay[i..i + |needle|] == needle
  }

  /** The middle piece of a concatenation occurs in it, right after the first piece. */
  lemma OccursInConcat(a: string, b: string, c: string)
    ensures OccursAt(b, a + b + c, |a|)
    ensures IsSubstring(b, a + b + c)
  {
    assert (a + b + c)[|a|..|a| + |b|] == b;
    assert OccursAt(b, a + b + c, |a|);
  }

  /** An occurrence of `needle` splits `hay` into a piece before it and a piece after it. */
  lemma SubstringIff(needle: string, hay: string)
    ensures IsSubstring(needle, hay) <==> exists a, b :: hay == a + needle + b
  {
    if IsSubstring(needle, hay) {
      var i :| 0 <= i <= |hay| - |needle| && OccursAt(needle, hay, i);
      assert hay == hay[..i] + needle + hay[i + |needle|..];
    }
    if exists a, b :: hay == a + needle + b {
      var a, b :| hay == a + needle + b;
      OccursInConcat(a, needle, b);
    }
  }

  lemma EmptyIsSubstring(hay: string)
    ensures IsSubstring("", hay)
  {
    assert OccursAt("", hay, 0);
  }

  /** A one-character needle occurs exactly when the character does. */
  lemma OneCharSubstring(c: char, hay: string)
    ensures IsSubstring([c], hay) <==> c in hay
  {
    if c in hay {
      var i :| 0 <= i < |hay| && hay[i] == c;
      assert OccursAt([c], hay, i);
    }
    if IsSubstring([c], hay) {
      var i :| 0 <= i <= |hay| - 1 && OccursAt([c], hay, i);
      assert hay[i..i + 1] == [c];
      assert hay[i] == c;
    }
  }
}
