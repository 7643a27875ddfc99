/** Python string operations that several modules share. */
module PyText {
  /** Where `str.splitlines` ends a line. */
  predicate IsBreak(c: char) {
    || '\n' <= c <= '\r' || '\U{1C}' <= c <= '\U{1E}' || c == '\U{85}' || c == '\U{2028}' || c == '\U{2029}'
  }

  /** `str.isspace` */
  predicate IsSpace(c: char) {
    || IsBreak(c) || c == '\t' || c == '\U{1F}' || c == ' ' || c == '\U{A0}' || c == '\U{1680}'
    || '\U{2000}' <= c <= '\U{200A}' || c == '\U{202F}' || c == '\U{205F}' || c == '\U{3000}'
  }

  lemma CommonChars()
    ensures IsBreak('\n') && IsBreak('\r') && !IsBreak('=') && !IsBreak('#') && !IsBreak(' ')
    ensures !IsSpace('=') && !IsSpace('#') && IsSpace(' ')
  {
  }

  predicate OneLine(s: string) {
    forall i :: 0 <= i < |s| ==> !IsBreak(s[i])
  }

  function StripStart(s: string): string {
    if s != "" && IsSpace(s[0]) then StripStart(s[1..]) else s
  }

  function StripEnd(s: string): string {
    if s != "" && IsSpace(s[|s| - 1]) then StripEnd(s[..|s| - 1]) else s
  }

  function Strip(s: string): string {
    StripEnd(StripStart(s))
  }

  /** Reading a text file turns CR LF and CR into line feeds. */
  function ReadText(s: string): string {
    if s == "" then ""
    else if s[0] == '\r' then "\n" + ReadText(if |s| > 1 && s[1] == '\n' then s[2..] else s[1..])
    else [s[0]] + ReadText(s[1..])
  }

  function FirstBreak(s: string): (i: nat)
    ensures i <= |s| && OneLine(s[..i]) && (i < |s| ==> IsBreak(s[i]))
  {
    if s == "" || IsBreak(s[0]) then 0
    else
      var i := 1 + FirstBreak(s[1..]);
      assert forall k :: 0 < k < i ==> s[..i][k] == s[1..][..i - 1][k - 1];
      i
  }

  /** `s.splitlines()` */
  function SplitLines(s: string): seq<string>
    decreases |s|
  {
    if s == "" then []
    else
      var i := FirstBreak(s);
      if i == |s| then [s]
      else
        var skip := if s[i] == '\r' && i + 1 < |s| && s[i + 1] == '\n' then 2 else 1;
        [s[..i]] + SplitLines(s[i + skip..])
  }

  function FirstIndex(s: string, c: char): (i: nat)
    ensures i <= |s| && (i < |s| ==> s[i] == c) && forall k :: 0 <= k < i ==> s[k] != c
  {
    if s == "" || s[0] == c then 0 else 1 + FirstIndex(s[1..], c)
  }

  lemma {:induction false} StripStartFacts(s: string)
    ensures var r := StripStart(s);
            (forall i :: 0 <= i < |r| ==> r[i] in s) && (r != "" ==> !IsSpace(r[0]) && r[|r| - 1] == s[|s| - 1])
  {
    if s != "" && IsSpace(s[0]) {
      StripStartFacts(s[1..]);
    }
  }

  lemma {:induction false} StripEndFacts(s: string)
    ensures var r := StripEnd(s);
            (forall i :: 0 <= i < |r| ==> r[i] in s) && (r != "" ==> !IsSpace(r[|r| - 1]) && r[0] == s[0])
    ensures |StripEnd(s)| <= |s|
  {
    if s != "" && IsSpace(s[|s| - 1]) {
      StripEndFacts(s[..|s| - 1]);
    }
  }

  lemma StripEdges(s: string)
    ensures Strip(s) != "" ==> !IsSpace(Strip(s)[0]) && !IsSpace(Strip(s)[|Strip(s)| - 1])
    ensures forall i :: 0 <= i < |Strip(s)| ==> Strip(s)[i] in s
    ensures s != "" && !IsSpace(s[0]) ==> Strip(s) == StripEnd(s)
  {
    StripStartFacts(s);
    StripEndFacts(StripStart(s));
  }

  lemma StripIdentity(s: string)
    requires s == "" || (!IsSpace(s[0]) && !IsSpace(s[|s| - 1]))
    ensures Strip(s) == s
  {
  }

  lemma StripFixed(s: string)
    ensures Strip(Strip(s)) == Strip(s)
  {
    StripEdges(s);
    StripIdentity(Strip(s));
  }

  lemma FirstIndexOf(s: string, k: string, c: char)
    requires |k| < |s| && s[..|k|] == k && s[|k|] == c && c !in k
    ensures FirstIndex(s, c) == |k|
  {
    assert forall j :: 0 <= j < |k| ==> s[j] == k[j] && k[j] in k;
  }

  lemma {:induction false} ReadTextIdentity(s: string)
    requires '\r' !in s
    ensures ReadText(s) == s
  {
    if s != "" {
      ReadTextIdentity(s[1..]);
    }
  }

  /** Text read from a file holds no carriage return; reading keeps exactly the texts without one. */
  lemma {:induction false} ReadTextExactly(s: string)
    ensures '\r' !in ReadText(s)
    ensures ReadText(s) == s <==> '\r' !in s
    decreases |s|
  {
    if s != "" {
      ReadTextExactly(if s[0] == '\r' && |s| > 1 && s[1] == '\n' then s[2..] else s[1..]);
      assert s == [s[0]] + s[1..];
      if '\r' !in s {
        ReadTextIdentity(s);
      }
    }
  }
}
