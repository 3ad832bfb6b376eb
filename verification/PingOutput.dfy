/** The output parser of remote/huawei.go. The regular expressions are scanners
    over the rest of the text: their digit and space classes are disjoint from
    what follows them, so the greedy scan is the leftmost match. */
module PingOutput {
  import opened Machine
  import opened Wrappers
  import opened Text
  import opened Huawei

  // ---- Scanners -----------------------------------------------------------

  function Expect(lit: string, s: string): (rest: Option<string>)
    ensures rest.Some? ==> s == lit + rest.value
  {
    if lit <= s then Some(s[|lit|..]) else None
  }

  function DigitRun(s: string): (n: nat)
    ensures n <= |s| && AllDigits(s[..n])
    ensures n < |s| ==> !IsDigit(s[n])
  {
    if s != "" && IsDigit(s[0]) then 1 + DigitRun(s[1..]) else 0
  }

  function SpaceRun(s: string): (n: nat)
    ensures n <= |s|
    ensures forall i :: 0 <= i < n ==> IsReSpace(s[i])
    ensures n < |s| ==> !IsReSpace(s[n])
  {
    if s != "" && IsReSpace(s[0]) then 1 + SpaceRun(s[1..]) else 0
  }

  /** `\d+`, with the value `strconv.Atoi` gives to it. */
  function Number(s: string): (r: Option<(nat, string)>)
    ensures r.Some? ==> |r.value.1| < |s|
  {
    var n := DigitRun(s);
    if n == 0 then None else Some((Atoi(s[..n]), s[n..]))
  }

  /** `\s*`. */
  function SkipSpaces(s: string): (rest: string)
    ensures |rest| <= |s|
  {
    s[SpaceRun(s)..]
  }

  /** `\s+`. */
  function Spaces(s: string): (rest: Option<string>)
    ensures rest.Some? ==> |rest.value| < |s|
  {
    if SpaceRun(s) == 0 then None else Some(SkipSpaces(s))
  }

  /** `time.Duration(n) * time.Millisecond`. */
  function Millis(n: nat): int { Wrapped(n * MILLISECOND) }

  /** `time\s*=\s*(\d+)\s*ms`. */
  function MatchTime(s: string): (r: Option<(nat, string)>)
    ensures r.Some? ==> |r.value.1| < |s|
  {
    var s1 :- Expect("time", s);
    var s2 :- Expect("=", SkipSpaces(s1));
    var (ms, s3) :- Number(SkipSpaces(s2));
    var rest :- Expect("ms", SkipSpaces(s3));
    Some((ms, rest))
  }

  /** `(?:ttl|hop limit)=(\d+)`. */
  function MatchTtl(s: string): (r: Option<(nat, string)>)
    ensures r.Some? ==> |r.value.1| < |s|
  {
    var s1 :- if "ttl" <= s then Expect("ttl=", s) else Expect("hop limit=", s);
    Number(s1)
  }

  /** `(?:ttl|hop limit)=(\d+)\s+time\s*=\s*(\d+)\s*ms`. */
  function MatchTtlAndTime(s: string): (r: Option<(nat, nat, string)>)
    ensures r.Some? ==> |r.value.2| < |s|
  {
    var (ttl, s1) :- MatchTtl(s);
    var s2 :- Spaces(s1);
    var (ms, rest) :- MatchTime(s2);
    Some((ttl, ms, rest))
  }

  /** `replyRe` at the start of `s`. */
  function MatchReply(s: string): (r: Option<(Reply, string)>)
    ensures r.Some? ==> |r.value.1| < |s| && "Sequence=" <= s
  {
    var s1 :- Expect("Sequence=", s);
    var (seqNo, s2) :- Number(s1);
    var s3 :- Spaces(s2);
    var (ttl, ms, rest) :- MatchTtlAndTime(s3);
    Some((Reply(seqNo, Millis(ms), ttl), rest))
  }

  /** `\s+packet\(s\)\s+` and then the given word. */
  predicate MatchesCounted(s: string, word: string) {
    match Spaces(s)
    case None => false
    case Some(s1) =>
      match Expect("packet(s)", s1)
      case None => false
      case Some(s2) => Spaces(s2).Some? && word <= Spaces(s2).value
  }

  /** `sentRe` and `receivedRe` at the start of `s`: the count before
      `packet(s) transmitted` or `packet(s) received`. */
  function MatchCount(s: string, word: string): Option<nat> {
    match Number(s)
    case None => None
    case Some((n, rest)) => if MatchesCounted(rest, word) then Some(n) else None
  }

  /** The leftmost match of a count. */
  function FindCount(s: string, word: string): Option<nat> {
    if MatchCount(s, word).Some? then MatchCount(s, word)
    else if s == "" then None
    else FindCount(s[1..], word)
  }

  /** `replyRe.FindAllStringSubmatch`: the non-overlapping matches from the left. */
  function FindReplies(s: string): seq<Reply>
    decreases |s|
  {
    match MatchReply(s)
    case Some((reply, rest)) => [reply] + FindReplies(rest)
    case None => if s == "" then [] else FindReplies(s[1..])
  }

  const REQUEST_TIME_OUT := "Request time out"

  /** `len(timeoutRe.FindAllStringIndex(out, -1))`. */
  function CountTimeouts(s: string): nat
    decreases |s|
  {
    if REQUEST_TIME_OUT <= s then 1 + CountTimeouts(s[|REQUEST_TIME_OUT|..])
    else if s == "" then 0
    else CountTimeouts(s[1..])
  }

  /** The first line that is not empty once trimmed. */
  function FirstLine(lines: seq<string>): string {
    if lines == [] then "(empty output)"
    else if TrimSpace(lines[0]) != "" then TrimSpace(lines[0])
    else FirstLine(lines[1..])
  }

  /** The first line with anything but white space on it, trimmed. */
  ghost predicate IsFirstLine(lines: seq<string>, line: string) {
    if forall k :: 0 <= k < |lines| ==> TrimSpace(lines[k]) == "" then line == "(empty output)"
    else exists i :: 0 <= i < |lines| && line == TrimSpace(lines[i]) != ""
                     && forall k :: 0 <= k < i ==> TrimSpace(lines[k]) == ""
  }

  lemma {:induction false} FirstLineIs(lines: seq<string>)
    ensures IsFirstLine(lines, FirstLine(lines))
  {
    hide TrimSpace;
    if lines != [] && TrimSpace(lines[0]) == "" {
      FirstLineIs(lines[1..]);
      if k :| 0 <= k < |lines| && TrimSpace(lines[k]) != "" {
        assert TrimSpace(lines[1..][k - 1]) != "";
        var i :| 0 <= i < |lines[1..]| && FirstLine(lines) == TrimSpace(lines[1..][i]) != ""
                 && forall k :: 0 <= k < i ==> TrimSpace(lines[1..][k]) == "";
        assert lines[1..][i] == lines[i + 1];
        forall k | 0 <= k < i + 1 ensures TrimSpace(lines[k]) == "" {
          assert k > 0 ==> TrimSpace(lines[1..][k - 1]) == "";
        }
        assert FirstLine(lines) == TrimSpace(lines[i + 1]);
      }
    }
  }

  /** What ParseOutput computes. */
  function Parse(out: string): Result<PingResult, ParseError> {
    match FindCount(out, "transmitted")
    case None => Err(NoTransmittedCount(FirstLine(Split(out))))
    case Some(sent) =>
      match FindCount(out, "received")
      case None => Err(NoReceivedCount(FirstLine(Split(out))))
      case Some(received) =>
        var replies := FindReplies(out);
        if received != |replies| then Err(CountMismatch(received, |replies|))
        else Ok(PingResult(sent, replies, CountTimeouts(out)))
  }

  /** Which error it is, and what it quotes. */
  lemma ErrorsQuote(out: string)
    requires Parse(out).Err?
    ensures match Parse(out).error
            case NoTransmittedCount(line) =>
              FindCount(out, "transmitted").None? && IsFirstLine(Split(out), line)
            case NoReceivedCount(line) =>
              && FindCount(out, "transmitted").Some? && FindCount(out, "received").None?
              && IsFirstLine(Split(out), line)
            case CountMismatch(received, parsed) =>
              && FindCount(out, "transmitted").Some? && FindCount(out, "received") == Some(received)
              && parsed == |FindReplies(out)| && received != parsed
  {
    hide FindCount, FindReplies, CountTimeouts, Split, FirstLine, IsFirstLine;
    FirstLineIs(Split(out));
  }

  // ---- The imperative parser ----------------------------------------------

  method FirstNonEmpty(lines: seq<string>) returns (line: string)
    ensures line == FirstLine(lines)
  {
    assert lines[0..] == lines;
    for i := 0 to |lines|
      invariant FirstLine(lines) == FirstLine(lines[i..])
    {
      var trimmed := TrimSpace(lines[i]);
      if trimmed != "" {
        return trimmed;
      }
      assert lines[i..][1..] == lines[i + 1..];
    }
    return "(empty output)";
  }

  lemma FindRepliesStep(s: string)
    ensures MatchReply(s).Some? ==> FindReplies(s) == [MatchReply(s).value.0] + FindReplies(MatchReply(s).value.1)
    ensures MatchReply(s).None? && s != "" ==> FindReplies(s) == FindReplies(s[1..])
    ensures FindReplies("") == []
  {}

  method CollectReplies(out: string) returns (replies: seq<Reply>)
    ensures replies == FindReplies(out)
  {
    hide FindReplies, MatchReply;
    replies := [];
    var cursor := out;
    while cursor != ""
      invariant replies + FindReplies(cursor) == FindReplies(out)
      decreases |cursor|
    {
      FindRepliesStep(cursor);
      match MatchReply(cursor)
      case Some((reply, rest)) =>
        assert replies + ([reply] + FindReplies(rest)) == (replies + [reply]) + FindReplies(rest);
        replies, cursor := replies + [reply], rest;
      case None =>
        cursor := cursor[1..];
    }
    FindRepliesStep(cursor);
  }

  /** Collects the replies one match at a time, then checks their number
      against the router's own count before it returns anything. */
  method ParseOutput(out: string) returns (r: Result<PingResult, ParseError>)
    ensures r == Parse(out)
    ensures r.Ok? ==> FindCount(out, "received") == Some(|r.value.replies|)
  {
    var lines := Split(out);
    var sent := FindCount(out, "transmitted");
    if sent.None? {
      var line := FirstNonEmpty(lines);
      return Err(NoTransmittedCount(line));
    }
    var replies := CollectReplies(out);
    var timeouts := CountTimeouts(out);
    var received := FindCount(out, "received");
    if received.None? {
      var line := FirstNonEmpty(lines);
      return Err(NoReceivedCount(line));
    }
    if received.value != |replies| {
      return Err(CountMismatch(received.value, |replies|));
    }
    return Ok(PingResult(sent.value, replies, timeouts));
  }
}
