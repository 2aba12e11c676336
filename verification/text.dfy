/** Trimming over any notion of white space, joining, and splitting into lines. */
module Text {

  datatype Option<+T> = None | Some(value: T)

  function TrimStart(s: string, space: char -> bool): (t: string)
    ensures |t| <= |s| && t == s[|s| - |t|..]
    ensures t == "" || !space(t[0])
  {
    if s == "" || !space(s[0]) then s else TrimStart(s[1..], space)
  }

  function TrimEnd(s: string, space: char -> bool): (t: string)
    ensures |t| <= |s| && t == s[..|t|]
    ensures t == "" || !space(t[|t| - 1])
  {
    if s == "" || !space(s[|s| - 1]) then s else TrimEnd(s[..|s| - 1], space)
  }

  function Trim(s: string, space: char -> bool): string {
    TrimEnd(TrimStart(s, space), space)
  }

  function Join(parts: seq<string>, separator: string): string {
    if |parts| == 0 then ""
    else if |parts| == 1 then parts[0]
    else parts[0] + separator + Join(parts[1..], separator)
  }

  /** A text that neither starts nor ends with white space is its own trim. */
  lemma TrimIdentity(s: string, space: char -> bool)
    requires s != "" && !space(s[0]) && !space(s[|s| - 1])
    ensures Trim(s, space) == s && TrimStart(s, space) == s
  {
  }

  /** Trimming takes off white space at both ends and nothing else. */
  lemma TrimIsExact(s: string, space: char -> bool) returns (i: nat, j: nat)
    ensures i <= j <= |s| && Trim(s, space) == s[i..j]
    ensures forall k :: 0 <= k < i || j <= k < |s| ==> space(s[k])
    ensures i == j || (!space(s[i]) && !space(s[j - 1]))
  {
    hide TrimStart, TrimEnd;
    i := StartsAt(s, space);
    var t := s[i..];
    var k := EndsAt(t, space);
    j := i + k;
    assert t[..k] == s[i..j];
    forall m | j <= m < |s| ensures space(s[m]) { assert s[m] == t[m - i]; }
    assert Trim(s, space) == t[..k] && (t != "" ==> t[0] == s[i]);
  }

  lemma {:induction false} StartsAt(s: string, space: char -> bool) returns (i: nat)
    ensures i <= |s| && TrimStart(s, space) == s[i..] && (i < |s| ==> !space(s[i]))
    ensures forall k :: 0 <= k < i ==> space(s[k])
    decreases |s|
  {
    i := 0;
    if s != "" && space(s[0]) {
      var rest := StartsAt(s[1..], space);
      i := rest + 1;
      forall k | 0 < k < i ensures space(s[k]) { assert s[k] == s[1..][k - 1]; }
    }
  }

  lemma {:induction false} EndsAt(s: string, space: char -> bool) returns (j: nat)
    ensures j <= |s| && TrimEnd(s, space) == s[..j] && (j > 0 ==> !space(s[j - 1]))
    ensures forall k :: j <= k < |s| ==> space(s[k])
    decreases |s|
  {
    j := |s|;
    if s != "" && space(s[|s| - 1]) { j := EndsAt(s[..|s| - 1], space); }
  }

  // ----- lines -----

  function LineEnd(s: string): (k: nat)
    ensures k <= |s| && (k < |s| ==> s[k] == '\n') && '\n' !in s[..k]
  {
    if s == "" || s[0] == '\n' then 0
    else
      assert s[..1 + LineEnd(s[1..])] == [s[0]] + s[1..][..LineEnd(s[1..])];
      1 + LineEnd(s[1..])
  }

  function Lines(s: string): seq<string>
    decreases |s|
  {
    var k := LineEnd(s);
    if k == |s| then [s] else [s[..k]] + Lines(s[k + 1..])
  }

  lemma {:induction false} LineEndIs(s: string, k: nat)
    requires k <= |s| && '\n' !in s[..k] && (k < |s| ==> s[k] == '\n')
    ensures LineEnd(s) == k
    decreases k
  {
    if k > 0 {
      assert s[0] == s[..k][0];
      assert s[1..][..k - 1] == s[..k][1..];
      LineEndIs(s[1..], k - 1);
    }
  }

  lemma LineFirst(line: string, t: string)
    requires '\n' !in line
    ensures Lines(line + "\n" + t) == [line] + Lines(t) && Lines(line) == [line]
  {
    var s, k := line + "\n" + t, |line|;
    assert s[..k] == line && s[k + 1..] == t;
    LineEndIs(s, k);
    assert line[..k] == line;
    LineEndIs(line, k);
  }

  /** Joined lines are split into the same lines. */
  lemma {:induction false} LinesOfJoin(parts: seq<string>)
    requires parts != [] && forall i :: 0 <= i < |parts| ==> '\n' !in parts[i]
    ensures Lines(Join(parts, "\n")) == parts
    decreases |parts|
  {
    LineFirst(parts[0], Join(parts[1..], "\n"));
    if |parts| > 1 { LinesOfJoin(parts[1..]); }
  }
}
