// Trimming, as the string libraries of the agent and of the web page do it.

module Text {
  // White space as Go's unicode.IsSpace has it.
  predicate GoSpace(c: char) {
    || '\t' <= c <= '\r' || c == ' ' || c == '\U{85}' || c == '\U{A0}' || c == '\U{1680}'
    || '\U{2000}' <= c <= '\U{200A}' || c == '\U{2028}' || c == '\U{2029}' || c == '\U{202F}'
    || c == '\U{205F}' || c == '\U{3000}'
  }

  // White space and line ends as ECMAScript trims them.
  predicate WebSpace(c: char) {
    (GoSpace(c) && c != '\U{85}') || c == '\U{FEFF}'
  }

  function TrimLeft(s: string, space: char -> bool): string {
    if s != [] && space(s[0]) then TrimLeft(s[1..], space) else s
  }

  function TrimRight(s: string, space: char -> bool): string {
    if s != [] && space(s[|s| - 1]) then TrimRight(s[..|s| - 1], space) else s
  }

  function Trim(s: string, space: char -> bool): string {
    TrimRight(TrimLeft(s, space), space)
  }

  predicate Trimmed(s: string, space: char -> bool) {
    s == [] || (!space(s[0]) && !space(s[|s| - 1]))
  }

  lemma {:induction false} LeftEnds(s: string, space: char -> bool)
    ensures var r := TrimLeft(s, space); r == [] || !space(r[0])
  {
    if s != [] && space(s[0]) {
      LeftEnds(s[1..], space);
    }
  }

  lemma {:induction false} RightEnds(s: string, space: char -> bool)
    ensures var r := TrimRight(s, space); r <= s && (r == [] || !space(r[|r| - 1]))
  {
    if s != [] && space(s[|s| - 1]) {
      RightEnds(s[..|s| - 1], space);
    }
  }

  // Trimming yields a trimmed text and changes exactly the texts that are not trimmed.
  lemma TrimTrims(s: string, space: char -> bool)
    ensures Trimmed(Trim(s, space), space)
    ensures Trim(s, space) == s <==> Trimmed(s, space)
  {
    LeftEnds(s, space);
    RightEnds(TrimLeft(s, space), space);
  }

  // The first i characters and those from j on are white space.
  ghost predicate Outer(s: string, space: char -> bool, i: nat, j: nat) {
    && i <= j <= |s| && (forall k :: 0 <= k < i ==> space(s[k])) && (forall k :: j <= k < |s| ==> space(s[k]))
  }

  lemma {:induction false} LeftOuter(s: string, space: char -> bool) returns (i: nat)
    ensures i <= |s| && TrimLeft(s, space) == s[i..] && forall k :: 0 <= k < i ==> space(s[k])
  {
    i := 0;
    if s != [] && space(s[0]) {
      var j := LeftOuter(s[1..], space);
      i := j + 1;
      forall k | 0 <= k < i ensures space(s[k]) {
        assert k > 0 ==> s[k] == s[1..][k - 1];
      }
    }
  }

  lemma {:induction false} RightOuter(s: string, space: char -> bool) returns (j: nat)
    ensures j <= |s| && TrimRight(s, space) == s[..j] && forall k :: j <= k < |s| ==> space(s[k])
  {
    j := |s|;
    if s != [] && space(s[|s| - 1]) {
      var t := s[..|s| - 1];
      j := RightOuter(t, space);
      forall k | j <= k < |s| ensures space(s[k]) {
        assert k < |t| ==> s[k] == t[k];
      }
    }
  }

  // Trimming takes nothing except outer white space, and it is the only way to cut that off and leave a trimmed text.
  lemma {:induction false} TrimTakesOuterSpace(s: string, space: char -> bool) returns (i: nat, j: nat)
    ensures Outer(s, space, i, j) && Trim(s, space) == s[i..j]
    ensures forall a: nat, b: nat :: Outer(s, space, a, b) && Trimmed(s[a..b], space) ==> s[a..b] == Trim(s, space)
  {
    i := LeftOuter(s, space);
    var d := RightOuter(s[i..], space);
    j := i + d;
    forall k | j <= k < |s| ensures space(s[k]) {
      assert s[k] == s[i..][k - i];
    }
    TrimTrims(s, space);
    forall a: nat, b: nat | Outer(s, space, a, b) && Trimmed(s[a..b], space) ensures s[a..b] == Trim(s, space) {
      OneCut(s, space, i, j, a, b);
    }
  }

  lemma {:induction false} OneCut(s: string, space: char -> bool, i: nat, j: nat, a: nat, b: nat)
    requires Outer(s, space, i, j) && Trimmed(s[i..j], space)
    requires Outer(s, space, a, b) && Trimmed(s[a..b], space)
    ensures s[i..j] == s[a..b]
  {
    if i < j {
      assert s[i..j][0] == s[i] && s[i..j][j - i - 1] == s[j - 1];
    }
    if a < b {
      assert s[a..b][0] == s[a] && s[a..b][b - a - 1] == s[b - 1];
    }
  }

  // How the agent cleans a name in a request.
  function Clean(s: string): string {
    Trim(s, GoSpace)
  }
}
