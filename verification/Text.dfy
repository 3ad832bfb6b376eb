/** The pieces of Go's `strings`, `strconv` and `regexp` packages that the
    remote engine relies on, over strings whose characters stand for bytes. */
module Text {
  import opened Machine

  const ESC := '\U{1B}'
  const VT := '\U{0B}'
  const FF := '\U{0C}'

  // ---- Characters ---------------------------------------------------------

  predicate IsDigit(c: char) { '0' <= c <= '9' }

  predicate IsLetter(c: char) { 'A' <= c <= 'Z' || 'a' <= c <= 'z' }

  /** White space as `strings.TrimSpace` and `strings.Fields` see it (ASCII). */
  predicate IsSpace(c: char) {
    c == ' ' || c == '\t' || c == '\n' || c == '\r' || c == VT || c == FF
  }

  /** White space as the regular expression class `\s` sees it. */
  predicate IsReSpace(c: char) {
    c == ' ' || c == '\t' || c == '\n' || c == '\r' || c == FF
  }

  /** The characters `waitPrompt` trims before it looks for the prompt. */
  predicate IsBlank(c: char) { c == ' ' || c == '\n' }

  predicate AllBlank(s: string) { forall c :: c in s ==> IsBlank(c) }

  predicate AllDigits(s: string) { forall i :: 0 <= i < |s| ==> IsDigit(s[i]) }

  /** A token of a command line: non-empty and free of white space. */
  predicate IsToken(s: string) { s != "" && forall i :: 0 <= i < |s| ==> !IsSpace(s[i]) }

  // ---- Searching ----------------------------------------------------------

  /** `sub` stands in `s` at offset `i`. */
  predicate At(s: string, i: nat, sub: string) {
    i + |sub| <= |s| && s[i..i + |sub|] == sub
  }

  lemma AtShift(s: string, sub: string)
    requires s != ""
    ensures forall k: nat :: k > 0 ==> (At(s, k, sub) <==> At(s[1..], k - 1, sub))
  {
    forall k: nat | k > 0
      ensures At(s, k, sub) <==> At(s[1..], k - 1, sub)
    {
      if k + |sub| <= |s| {
        assert s[1..][k - 1..k - 1 + |sub|] == s[k..k + |sub|];
      }
    }
  }

  /** `strings.Index`: the first offset of `sub` in `s`, or -1. */
  function IndexOf(s: string, sub: string): (i: int)
    ensures -1 <= i <= |s|
    ensures i >= 0 ==> At(s, i, sub)
    ensures forall k: nat :: At(s, k, sub) ==> 0 <= i <= k
    decreases |s|
  {
    if At(s, 0, sub) then 0
    else if s == "" then -1
    else
      AtShift(s, sub);
      var r := IndexOf(s[1..], sub);
      if r < 0 then -1 else r + 1
  }

  predicate Contains(s: string, sub: string) { IndexOf(s, sub) >= 0 }

  predicate EndsWith(s: string, sub: string) {
    |sub| <= |s| && s[|s| - |sub|..] == sub
  }

  /** The first occurrence in a prefix is the first occurrence in the whole. */
  lemma IndexOfPrefix(s: string, t: string, sub: string)
    requires s <= t
    requires IndexOf(s, sub) >= 0
    ensures IndexOf(t, sub) == IndexOf(s, sub)
  {
    var i, j := IndexOf(s, sub), IndexOf(t, sub);
    assert At(t, i, sub) by { assert t[i..i + |sub|] == s[i..i + |sub|]; }
    assert At(s, j, sub) by { assert t[j..j + |sub|] == s[j..j + |sub|]; }
  }

  /** An occurrence is an occurrence character by character. */
  lemma AtPointwise(s: string, i: nat, sub: string)
    ensures At(s, i, sub) <==>
            i + |sub| <= |s| && forall k :: 0 <= k < |sub| ==> s[i + k] == sub[k]
  {
    if i + |sub| <= |s| {
      var part := s[i..i + |sub|];
      assert forall k :: 0 <= k < |part| ==> part[k] == s[i + k];
    }
  }

  // ---- Trimming -----------------------------------------------------------

  /** `strings.TrimRight(s, " \n")`. */
  function TrimBlankRight(s: string): (r: string)
    ensures r <= s
    ensures r != "" ==> !IsBlank(r[|r| - 1])
    ensures AllBlank(s[|r|..])
  {
    if s != "" && IsBlank(s[|s| - 1]) then TrimBlankRight(s[..|s| - 1]) else s
  }

  /** Trimming stops at the last character that is not blank. */
  lemma TrimBlankRightUnique(s: string, blanks: string)
    requires s != "" && !IsBlank(s[|s| - 1])
    requires AllBlank(blanks)
    ensures TrimBlankRight(s + blanks) == s
  {
    if blanks == "" {
      assert s + blanks == s;
    } else {
      assert blanks[|blanks| - 1] in blanks;
      assert (s + blanks)[..|s + blanks| - 1] == s + blanks[..|blanks| - 1];
      TrimBlankRightUnique(s, blanks[..|blanks| - 1]);
    }
  }

  function TrimSpaceLeft(s: string): (r: string)
    ensures |r| <= |s| && r == s[|s| - |r|..]
    ensures r != "" ==> !IsSpace(r[0])
  {
    if s != "" && IsSpace(s[0]) then TrimSpaceLeft(s[1..]) else s
  }

  function TrimSpaceRight(s: string): (r: string)
    ensures r <= s
    ensures r != "" ==> !IsSpace(r[|r| - 1])
  {
    if s != "" && IsSpace(s[|s| - 1]) then TrimSpaceRight(s[..|s| - 1]) else s
  }

  /** `strings.TrimSpace`. */
  function TrimSpace(s: string): string { TrimSpaceRight(TrimSpaceLeft(s)) }

  lemma {:induction false} LeftTrimmed(s: string)
    ensures forall i :: 0 <= i < |s| - |TrimSpaceLeft(s)| ==> IsSpace(s[i])
  {
    hide IsSpace;
    if s != "" && IsSpace(s[0]) {
      LeftTrimmed(s[1..]);
      forall i | 0 < i < |s| - |TrimSpaceLeft(s)| ensures IsSpace(s[i]) {
        assert s[i] == s[1..][i - 1];
      }
    }
  }

  lemma {:induction false} RightTrimmed(s: string)
    ensures forall i :: |TrimSpaceRight(s)| <= i < |s| ==> IsSpace(s[i])
  {
    hide IsSpace;
    if s != "" && IsSpace(s[|s| - 1]) {
      RightTrimmed(s[..|s| - 1]);
    }
  }

  lemma CutTwice(s: string, t: string, r: string)
    requires |t| <= |s| && t == s[|s| - |t|..] && r <= t
    ensures s == s[..|s| - |t|] + (r + t[|r|..])
  {
    assert t == r + t[|r|..];
  }

  /** The white space that trimming takes away on either side. */
  lemma TrimParts(s: string) returns (lead: string, trail: string)
    ensures s == lead + (TrimSpace(s) + trail)
    ensures forall i :: 0 <= i < |lead| ==> IsSpace(lead[i])
    ensures forall i :: 0 <= i < |trail| ==> IsSpace(trail[i])
  {
    hide IsSpace, TrimSpaceLeft, TrimSpaceRight;
    var t := TrimSpaceLeft(s);
    var r := TrimSpaceRight(t);
    LeftTrimmed(s);
    RightTrimmed(t);
    CutTwice(s, t, r);
    lead, trail := s[..|s| - |t|], t[|r|..];
  }

  predicate WhiteSpace(s: string) {
    forall i :: 0 <= i < |s| ==> s[i] in {' ', '\t', '\n', '\r', '\U{0B}', '\U{0C}'}
  }

  /** Trimming takes away exactly the white space at both ends. */
  lemma TrimmedExactly(s: string)
    ensures exists lead, trail :: s == lead + (TrimSpace(s) + trail) && WhiteSpace(lead) && WhiteSpace(trail)
    ensures var t := TrimSpace(s); t != "" ==> !WhiteSpace([t[0]]) && !WhiteSpace([t[|t| - 1]])
  {
    hide TrimSpaceLeft, TrimSpaceRight;
    var lead, trail := TrimParts(s);
    assert WhiteSpace(lead) && WhiteSpace(trail);
    var t, r := TrimSpaceLeft(s), TrimSpace(s);
    assert r != "" ==> r[0] == t[0] && !IsSpace(t[0]) && [t[0]][0] == t[0] && [r[|r| - 1]][0] == r[|r| - 1];
  }

  lemma {:induction false} TrimTrailing(s: string, spaces: string)
    requires forall i :: 0 <= i < |spaces| ==> IsSpace(spaces[i])
    ensures TrimSpaceRight(s + spaces) == TrimSpaceRight(s)
  {
    if spaces == "" {
      assert s + spaces == s;
    } else {
      assert (s + spaces)[..|s + spaces| - 1] == s + spaces[..|spaces| - 1];
      TrimTrailing(s, spaces[..|spaces| - 1]);
    }
  }

  lemma {:induction false} TrimSurround(s: string, spaces: string)
    requires forall i :: 0 <= i < |spaces| ==> IsSpace(spaces[i])
    ensures TrimSpace(s + spaces) == TrimSpace(s)
  {
    if s == "" {
      assert s + spaces == spaces;
      AllSpaceTrims(spaces);
    } else if IsSpace(s[0]) {
      assert (s + spaces)[1..] == s[1..] + spaces;
      TrimSurround(s[1..], spaces);
    } else {
      TrimTrailing(s, spaces);
    }
  }

  lemma {:induction false} AllSpaceTrims(spaces: string)
    requires forall i :: 0 <= i < |spaces| ==> IsSpace(spaces[i])
    ensures TrimSpaceLeft(spaces) == ""
  {
    if spaces != "" {
      AllSpaceTrims(spaces[1..]);
    }
  }

  // ---- Lines --------------------------------------------------------------

  /** `strings.Split(s, "\n")`. */
  function Split(s: string): (lines: seq<string>)
    ensures |lines| >= 1
    decreases |s|
  {
    var i := IndexOf(s, "\n");
    if i < 0 then [s] else [s[..i]] + Split(s[i + 1..])
  }

  /** `strings.Join(lines, "\n")`. */
  function Join(lines: seq<string>): string {
    if lines == [] then ""
    else if |lines| == 1 then lines[0]
    else lines[0] + "\n" + Join(lines[1..])
  }

  lemma JoinCons(line: string, lines: seq<string>)
    requires lines != []
    ensures Join([line] + lines) == line + "\n" + Join(lines)
  {
    assert ([line] + lines)[1..] == lines;
  }

  lemma {:induction false} JoinSplit(s: string)
    ensures Join(Split(s)) == s
    decreases |s|
  {
    var i := IndexOf(s, "\n");
    if i >= 0 {
      JoinSplit(s[i + 1..]);
      JoinCons(s[..i], Split(s[i + 1..]));
      assert s[i..i + 1] == "\n";
      assert s == s[..i] + s[i..i + 1] + s[i + 1..];
    }
  }

  lemma IndexOfNewline(line: string, rest: string)
    requires '\n' !in line
    ensures IndexOf(line + "\n" + rest, "\n") == |line|
  {
    var s := line + "\n" + rest;
    assert At(s, |line|, "\n");
    forall k: nat | k < |line| ensures !At(s, k, "\n") {
      assert s[k] == line[k];
      AtPointwise(s, k, "\n");
    }
  }

  /** Splitting after a newline-free first line peels off exactly that line. */
  lemma SplitFirst(line: string, rest: string)
    requires '\n' !in line
    ensures Split(line + "\n" + rest) == [line] + Split(rest)
  {
    var s := line + "\n" + rest;
    IndexOfNewline(line, rest);
    assert s[..|line|] == line && s[|line| + 1..] == rest;
  }

  // ---- Tokens -------------------------------------------------------------

  /** Length of the leading run of non-space characters. */
  function TokenLength(s: string): (n: nat)
    ensures n <= |s|
    ensures forall i :: 0 <= i < n ==> !IsSpace(s[i])
    ensures n < |s| ==> IsSpace(s[n])
  {
    if s != "" && !IsSpace(s[0]) then 1 + TokenLength(s[1..]) else 0
  }

  /** `strings.Fields`. */
  function Fields(s: string): (fs: seq<string>)
    ensures forall i :: 0 <= i < |fs| ==> IsToken(fs[i])
    decreases |s|
  {
    if s == "" then []
    else if IsSpace(s[0]) then Fields(s[1..])
    else
      var n := TokenLength(s);
      [s[..n]] + Fields(s[n..])
  }

  /** The tokens of a command line separated by single spaces. */
  function Unwords(ts: seq<string>): string {
    if ts == [] then ""
    else if |ts| == 1 then ts[0]
    else ts[0] + " " + Unwords(ts[1..])
  }

  lemma TokenLengthUnique(s: string, n: nat)
    requires n <= |s|
    requires forall i :: 0 <= i < n ==> !IsSpace(s[i])
    requires n < |s| ==> IsSpace(s[n])
    ensures TokenLength(s) == n
  {}

  lemma {:induction false} FieldsUnwords(ts: seq<string>)
    requires forall i :: 0 <= i < |ts| ==> IsToken(ts[i])
    ensures Fields(Unwords(ts)) == ts
  {
    if |ts| == 1 {
      TokenLengthUnique(ts[0], |ts[0]|);
      assert ts[0][|ts[0]|..] == "";
      assert ts[0][..|ts[0]|] == ts[0];
    } else if |ts| > 1 {
      var s := Unwords(ts);
      TokenLengthUnique(s, |ts[0]|);
      assert s[..|ts[0]|] == ts[0];
      assert s[|ts[0]|..] == " " + Unwords(ts[1..]);
      assert (" " + Unwords(ts[1..]))[1..] == Unwords(ts[1..]);
      FieldsUnwords(ts[1..]);
    }
  }

  /** `last` is the last word of `s`: white space or nothing in front of it, only white
      space behind it. */
  predicate EndsInWord(s: string, front: string, last: string, trail: string) {
    && IsToken(last) && s == front + (last + trail) && WhiteSpace(trail)
    && (front == "" || WhiteSpace([front[|front| - 1]]))
  }

  lemma BlankInFront(c: char, rest: string)
    requires IsSpace(c)
    ensures WhiteSpace([c] + rest) <==> WhiteSpace(rest)
    ensures forall front, last, trail :: EndsInWord(rest, front, last, trail) ==>
              EndsInWord([c] + rest, [c] + front, last, trail)
  {
    assert forall i :: 0 <= i < |rest| ==> ([c] + rest)[i + 1] == rest[i];
    forall front, last, trail | EndsInWord(rest, front, last, trail)
      ensures EndsInWord([c] + rest, [c] + front, last, trail)
    {
      assert [c] + (front + (last + trail)) == ([c] + front) + (last + trail);
      assert ([c] + front)[|[c] + front| - 1] == if front == "" then c else front[|front| - 1];
    }
  }

  lemma WordInFront(word: string, rest: string)
    requires IsToken(word) && (rest != "" ==> IsSpace(rest[0]))
    ensures !WhiteSpace(word + rest)
    ensures WhiteSpace(rest) ==> EndsInWord(word + rest, "", word, rest)
    ensures forall front, last, trail :: EndsInWord(rest, front, last, trail) ==>
              EndsInWord(word + rest, word + front, last, trail)
  {
    assert (word + rest)[0] == word[0];
    assert "" + (word + rest) == word + rest;
    forall front, last, trail | EndsInWord(rest, front, last, trail)
      ensures EndsInWord(word + rest, word + front, last, trail)
    {
      assert "" + (last + trail) == last + trail && (last + trail)[0] == last[0];
      assert front != "" && (word + front)[|word + front| - 1] == front[|front| - 1];
      assert word + (front + (last + trail)) == (word + front) + (last + trail);
    }
  }

  /** The last field of a text is its last word; a text of white space has none. */
  lemma {:induction false} LastField(s: string) returns (front: string, trail: string)
    ensures Fields(s) == [] <==> WhiteSpace(s)
    ensures Fields(s) != [] ==> EndsInWord(s, front, Fields(s)[|Fields(s)| - 1], trail)
    decreases |s|
  {
    hide EndsInWord, WhiteSpace, IsSpace;
    if s == "" {
      front, trail := "", "";
      NothingIsBlank();
    } else if IsSpace(s[0]) {
      front, trail := LastField(s[1..]);
      BlankInFront(s[0], s[1..]);
      assert s == [s[0]] + s[1..];
      front := [s[0]] + front;
    } else {
      var n := TokenLength(s);
      assert s == s[..n] + s[n..];
      front, trail := LastField(s[n..]);
      WordInFront(s[..n], s[n..]);
      if Fields(s[n..]) == [] {
        front, trail := "", s[n..];
      } else {
        front := s[..n] + front;
      }
    }
  }

  lemma NothingIsBlank()
    ensures WhiteSpace("")
  {}

  // ---- Decimal numbers ----------------------------------------------------


  function DigitChar(d: nat): (c: char)
    requires d < 10
    ensures IsDigit(c)
  {
    '0' + (d as char)
  }

  function DigitValue(c: char): (d: nat)
    requires IsDigit(c)
    ensures d < 10
  {
    (c - '0') as nat
  }

  /** `%d` of a non-negative number. */
  function NatText(n: nat): (s: string)
    ensures s != "" && AllDigits(s)
  {
    if n < 10 then [DigitChar(n)] else NatText(n / 10) + [DigitChar(n % 10)]
  }

  /** `%d`. */
  function IntText(n: int): (s: string)
    ensures IsToken(s)
  {
    if n < 0 then "-" + NatText(-n) else NatText(n)
  }

  function NatValue(s: string): nat
    requires AllDigits(s)
  {
    if s == "" then 0 else 10 * NatValue(s[..|s| - 1]) + DigitValue(s[|s| - 1])
  }

  /** `strconv.Atoi` on a run of digits, its error ignored: a number that does
      not fit is clamped to the largest int. */
  function Atoi(s: string): (n: nat)
    requires AllDigits(s)
    ensures n <= MAX_INT64
  {
    if NatValue(s) <= MAX_INT64 then NatValue(s) else MAX_INT64
  }

  /** The number that the digits stand for, or the largest int if that is larger. */
  lemma AtoiExact(s: string)
    requires AllDigits(s)
    ensures Atoi(s) == if NatValue(s) <= 0x7FFF_FFFF_FFFF_FFFF then NatValue(s) else 0x7FFF_FFFF_FFFF_FFFF
    ensures s != "" ==> NatValue(s) == 10 * NatValue(s[..|s| - 1]) + (s[|s| - 1] - '0') as nat
  {}

  /** Reads back a number printed with `%d`. */
  function IntValue(s: string): int {
    if AllDigits(s) then NatValue(s)
    else if s[0] == '-' && AllDigits(s[1..]) then 0 - NatValue(s[1..])
    else 0
  }

  lemma {:induction false} NatTextRoundTrip(n: nat)
    ensures NatValue(NatText(n)) == n
  {
    if n < 10 {
      assert NatText(n) == [DigitChar(n)];
      assert NatText(n)[..0] == "";
    } else {
      NatTextRoundTrip(n / 10);
      assert NatText(n)[..|NatText(n)| - 1] == NatText(n / 10);
    }
  }

  lemma IntTextRoundTrip(n: int)
    ensures IntValue(IntText(n)) == n
  {
    if n < 0 {
      NatTextRoundTrip(-n);
      assert IntText(n)[1..] == NatText(-n);
      assert !IsDigit(IntText(n)[0]);
    } else {
      NatTextRoundTrip(n);
    }
  }
}
