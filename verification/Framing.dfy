/** How a session reads text out of a byte stream that arrives in arbitrary
    chunks (remote/session.go: text, promptRe, ansiRe). */
module Framing {
  import opened Wrappers
  import opened Text

  // ---- Stripping escape sequences and carriage returns -----------------------

  /** Parameter bytes of a control sequence, as ansiRe lists them. */
  predicate IsParameter(c: char) { IsDigit(c) || c == ';' || c == '?' }

  function ParameterRun(s: string): (n: nat)
    ensures n <= |s|
    ensures forall i :: 0 <= i < n ==> IsParameter(s[i])
    ensures n < |s| ==> !IsParameter(s[n])
  {
    if s != "" && IsParameter(s[0]) then 1 + ParameterRun(s[1..]) else 0
  }

  /** Length of the match of ansiRe at the start of `s`, or 0. */
  function CsiLength(s: string): (n: nat)
    ensures n <= |s|
  {
    if |s| >= 2 && s[0] == ESC && s[1] == '[' then
      var k := 2 + ParameterRun(s[2..]);
      if k < |s| && IsLetter(s[k]) then k + 1 else 0
    else 0
  }

  /** `ansiRe.ReplaceAllString(s, "")`. */
  function StripCsi(s: string): string
    decreases |s|
  {
    if s == "" then ""
    else if CsiLength(s) > 0 then StripCsi(s[CsiLength(s)..])
    else [s[0]] + StripCsi(s[1..])
  }

  /** `strings.ReplaceAll(s, "\r", "")`. */
  function RemoveCR(s: string): (r: string)
    ensures '\r' !in r
  {
    if s == "" then ""
    else if s[0] == '\r' then RemoveCR(s[1..])
    else [s[0]] + RemoveCR(s[1..])
  }

  /** What the session sees of the bytes it has buffered. */
  function Visible(buf: string): (r: string)
    ensures '\r' !in r
  {
    RemoveCR(StripCsi(buf))
  }

  // ---- The visible text of a prefix ------------------------------------------

  /** The beginning of an escape sequence that more bytes may still complete. */
  predicate Unfinished(u: string) {
    u != "" && u[0] == ESC
    && (|u| == 1 || (u[1] == '[' && ParameterRun(u[2..]) == |u| - 2))
  }

  /** No escape sequence is left open at the end of `s`. */
  predicate Settled(s: string) {
    forall i :: 0 <= i < |s| ==> !Unfinished(s[i..])
  }

  lemma {:induction false} ParameterRunStops(a: string, b: string)
    requires ParameterRun(a) < |a|
    ensures ParameterRun(a + b) == ParameterRun(a)
  {
    if IsParameter(a[0]) {
      assert (a + b)[1..] == a[1..] + b;
      ParameterRunStops(a[1..], b);
    }
  }

  lemma {:induction false} ParameterRunSpans(a: string, b: string)
    requires ParameterRun(a) == |a| && (b == "" || !IsParameter(b[0]))
    ensures ParameterRun(a + b) == |a|
  {
    if a == "" {
      assert a + b == b;
    } else {
      assert (a + b)[1..] == a[1..] + b;
      ParameterRunSpans(a[1..], b);
    }
  }

  /** Whether an escape sequence stands at the start is decided before `b`. */
  lemma CsiDecided(a: string, b: string)
    requires a != "" && (!Unfinished(a) || (b != "" && b[0] == ESC))
    ensures CsiLength(a + b) == CsiLength(a)
  {
    var s := a + b;
    if a[0] == ESC && |a| >= 2 && a[1] == '[' {
      assert s[2..] == a[2..] + b;
      if ParameterRun(a[2..]) < |a| - 2 {
        ParameterRunStops(a[2..], b);
      } else {
        ParameterRunSpans(a[2..], b);
      }
    }
  }

  /** Stripping splits wherever no escape sequence is open, and in front of ESC. */
  lemma {:induction false} StripSplits(a: string, b: string)
    requires Settled(a) || (b != "" && b[0] == ESC)
    ensures StripCsi(a + b) == StripCsi(a) + StripCsi(b)
    decreases |a|
  {
    if a == "" {
      assert a + b == b;
    } else {
      assert a[0..] == a;
      CsiDecided(a, b);
      var n := if CsiLength(a) > 0 then CsiLength(a) else 1;
      assert (a + b)[n..] == a[n..] + b;
      assert Settled(a) ==> Settled(a[n..]) by {
        assert forall i :: 0 <= i < |a[n..]| ==> a[n..][i..] == a[n + i..];
      }
      StripSplits(a[n..], b);
    }
  }

  lemma {:induction false} NoEscapeStripped(s: string)
    requires ESC !in s
    ensures StripCsi(s) == s
  {
    if s != "" {
      NoEscapeStripped(s[1..]);
    }
  }

  /** An open escape sequence is kept as it stands until it is completed. */
  lemma UnfinishedKept(u: string)
    requires Unfinished(u)
    ensures StripCsi(u) == u && RemoveCR(u) == u
  {
    assert CsiLength(u) == 0;
    assert ESC !in u[1..] by {
      assert forall i :: 2 <= i < |u| ==> u[2..][i - 2] == u[i] && IsParameter(u[i]);
    }
    NoEscapeStripped(u[1..]);
    assert '\r' !in u by {
      assert forall i :: 2 <= i < |u| ==> u[2..][i - 2] == u[i] && IsParameter(u[i]);
    }
    NoReturnKept(u);
  }

  lemma {:induction false} NoReturnKept(s: string)
    requires '\r' !in s
    ensures RemoveCR(s) == s
  {
    if s != "" {
      NoReturnKept(s[1..]);
    }
  }

  lemma {:induction false} RemoveCRAppend(a: string, b: string)
    ensures RemoveCR(a + b) == RemoveCR(a) + RemoveCR(b)
  {
    if a == "" {
      assert a + b == b;
    } else {
      assert (a + b)[0] == a[0] && (a + b)[1..] == a[1..] + b;
      RemoveCRAppend(a[1..], b);
    }
  }

  /** The visible text of a settled prefix is a prefix of the visible whole. */
  lemma VisibleAppend(a: string, b: string)
    requires Settled(a)
    ensures Visible(a + b) == Visible(a) + Visible(b)
  {
    StripSplits(a, b);
    RemoveCRAppend(StripCsi(a), StripCsi(b));
  }

  /** The last characters an open escape sequence can show. */
  predicate EscapeTail(c: char) { c == ESC || c == '[' || IsParameter(c) }

  /** While an escape sequence is open the visible text ends in one of its bytes. */
  lemma OpenEscapeShows(s: string)
    requires !Settled(s)
    ensures Visible(s) != "" && EscapeTail(Visible(s)[|Visible(s)| - 1])
  {
    var i :| 0 <= i < |s| && Unfinished(s[i..]);
    var a, u := s[..i], s[i..];
    assert s == a + u;
    StripSplits(a, u);
    UnfinishedKept(u);
    RemoveCRAppend(StripCsi(a), u);
    assert |u| >= 3 ==> u[2..][|u| - 3] == u[|u| - 1];
  }

  // ---- Prompts ----------------------------------------------------------------

  predicate IsOpening(c: char) { c == '<' || c == '[' }

  predicate IsClosing(c: char) { c == '>' || c == ']' }

  predicate IsBracket(c: char) { IsOpening(c) || IsClosing(c) }

  /** `<name>`, `[name]` or `[~name]`: the group of promptRe. The optional `~` or
      `*` is itself a character the name may contain. */
  predicate IsPrompt(p: string) {
    |p| >= 3 && IsOpening(p[0]) && IsClosing(p[|p| - 1])
    && forall i :: 0 < i < |p| - 1 ==> !IsBracket(p[i]) && !IsReSpace(p[i])
  }

  function TrimReSpaceRight(s: string): (r: string)
    ensures r <= s
    ensures r != "" ==> !IsReSpace(r[|r| - 1])
    ensures forall i :: |r| <= i < |s| ==> IsReSpace(s[i])
  {
    if s != "" && IsReSpace(s[|s| - 1]) then TrimReSpaceRight(s[..|s| - 1]) else s
  }

  /** Length of the trailing run of characters a prompt name may contain. */
  function NameRun(s: string): (n: nat)
    ensures n <= |s|
    ensures forall i :: |s| - n <= i < |s| ==> !IsBracket(s[i]) && !IsReSpace(s[i])
    ensures n < |s| ==> IsBracket(s[|s| - n - 1]) || IsReSpace(s[|s| - n - 1])
  {
    if s != "" && !IsBracket(s[|s| - 1]) && !IsReSpace(s[|s| - 1]) then 1 + NameRun(s[..|s| - 1]) else 0
  }

  /** The prompt that ends `t`, if any. */
  function PromptSuffix(t: string): Option<string> {
    if t == "" || !IsClosing(t[|t| - 1]) then None
    else
      var body := t[..|t| - 1];
      var n := NameRun(body);
      if n == 0 || n == |body| || !IsOpening(body[|body| - n - 1]) then None
      else Some(t[|body| - n - 1..])
  }

  /** `promptRe.FindStringSubmatch`: a prompt at the end, white space aside. */
  function PromptAtEnd(text: string): Option<string> { PromptSuffix(TrimReSpaceRight(text)) }

  lemma TrimReSpaceUnique(s: string, t: string)
    requires t <= s && (t != "" ==> !IsReSpace(t[|t| - 1]))
    requires forall i :: |t| <= i < |s| ==> IsReSpace(s[i])
    ensures TrimReSpaceRight(s) == t
  {
    if |t| < |s| {
      TrimReSpaceUnique(s[..|s| - 1], t);
    }
  }

  lemma NameRunUnique(s: string, n: nat)
    requires n < |s|
    requires forall i :: |s| - n <= i < |s| ==> !IsBracket(s[i]) && !IsReSpace(s[i])
    requires IsBracket(s[|s| - n - 1])
    ensures NameRun(s) == n
  {
    if n > 0 {
      NameRunUnique(s[..|s| - 1], n - 1);
    }
  }

  lemma FoundIsPrompt(t: string)
    requires PromptSuffix(t).Some?
    ensures IsPrompt(PromptSuffix(t).value) && EndsWith(t, PromptSuffix(t).value)
  {
    var body := t[..|t| - 1];
    var n := NameRun(body);
    var start := |body| - n - 1;
    var p := t[start..];
    assert |p| == n + 2 && p[0] == body[start] && p[|p| - 1] == t[|t| - 1];
    forall i | 0 < i < |p| - 1 ensures !IsBracket(p[i]) && !IsReSpace(p[i]) {
      assert p[i] == body[start + i];
    }
  }

  lemma PromptIsFound(t: string, p: string)
    requires IsPrompt(p) && EndsWith(t, p)
    ensures PromptSuffix(t) == Some(p)
  {
    var body := t[..|t| - 1];
    var k := |t| - |p|;
    assert forall i :: 0 <= i < |p| ==> t[k + i] == t[k..][i] == p[i];
    forall i | |body| - (|p| - 2) <= i < |body| ensures !IsBracket(body[i]) && !IsReSpace(body[i]) {
      assert body[i] == t[k + (i - k)] == p[i - k];
    }
    assert body[k] == p[0];
    NameRunUnique(body, |p| - 2);
  }

  /** The prompt found is exactly the prompt that ends the text: both ways. */
  lemma PromptAtEndExact(text: string, p: string)
    ensures PromptAtEnd(text) == Some(p) <==>
            IsPrompt(p) && EndsWith(TrimReSpaceRight(text), p)
  {
    var t := TrimReSpaceRight(text);
    if PromptSuffix(t).Some? {
      FoundIsPrompt(t);
    }
    if IsPrompt(p) && EndsWith(t, p) {
      PromptIsFound(t, p);
    }
  }
}
