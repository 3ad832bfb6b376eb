/** The data types and the command printer of remote/huawei.go. */
module Huawei {
  import opened Machine
  import opened Wrappers
  import opened Text

  type Byte = n: nat | n < 256

  // Durations are int64 nanoseconds.
  const MILLISECOND := 1_000_000

  /** One ping run on the router. */
  datatype Job = Job(
    target: string,
    ipv6: bool,
    source: string,
    count: int,
    packetInterval: int,
    timeout: int,
    size: int,
    tos: Byte,
    vpnInstance: string)

  /** One echo reply reported by the router; `rtt` is a duration. */
  datatype Reply = Reply(seqNo: nat, rtt: int, ttl: nat)

  datatype PingResult = PingResult(sent: nat, replies: seq<Reply>, timeouts: nat)

  /** Why an output was not a ping result (all three wrap ErrParse). */
  datatype ParseError =
    | NoTransmittedCount(firstLine: string)
    | NoReceivedCount(firstLine: string)
    | CountMismatch(received: nat, parsed: nat)

  // ---- The command --------------------------------------------------------

  /** `Duration.Milliseconds`. */
  function Milliseconds(d: int): int { Quotient(d, MILLISECOND) }

  /** Whole milliseconds, cut towards zero. */
  lemma MillisecondsExact(d: int)
    ensures d >= 0 ==> 1_000_000 * Milliseconds(d) <= d < 1_000_000 * Milliseconds(d) + 1_000_000
    ensures d < 0 ==> 1_000_000 * Milliseconds(d) - 1_000_000 < d <= 1_000_000 * Milliseconds(d) <= 0
  {}

  /** `w`, one space, and the rest of the line. */
  function Spaced(w: string, rest: string): string { w + " " + rest }

  /** The VRP ping command for `j`. IPv4 takes the VPN instance as an option,
      IPv6 as a keyword right before the destination. */
  function BuildCommand(j: Job): string {
    var family := if j.ipv6 then "ping ipv6" else "ping";
    var tosFlag := if j.ipv6 then "-tc" else "-tos";
    var vpn6 := if j.vpnInstance != "" && j.ipv6 then "vpn-instance " + j.vpnInstance + " " else "";
    var vpn4 := if j.vpnInstance != "" && !j.ipv6 then "-vpn-instance " + j.vpnInstance + " " else "";
    Spaced(family, vpn4 +
      Spaced("-c", Spaced(IntText(j.count),
      Spaced("-m", Spaced(IntText(Milliseconds(j.packetInterval)),
      Spaced("-t", Spaced(IntText(Milliseconds(j.timeout)),
      Spaced("-s", Spaced(IntText(j.size),
      Spaced(tosFlag, Spaced(IntText(j.tos),
      Spaced("-a", Spaced(j.source, vpn6 + j.target)))))))))))))
  }

  /** The string fields of a job stand for single words on the command line;
      an empty VPN instance means the option is absent. */
  predicate Printable(j: Job) {
    IsToken(j.target) && IsToken(j.source) && (j.vpnInstance == "" || IsToken(j.vpnInstance))
  }

  predicate AllTokens(ts: seq<string>) { forall i :: 0 <= i < |ts| ==> IsToken(ts[i]) }

  /** The words before, in and after the twelve options of a ping command. */
  function HeadWords(j: Job): seq<string> {
    if j.ipv6 then ["ping", "ipv6"]
    else if j.vpnInstance == "" then ["ping"]
    else ["ping", "-vpn-instance", j.vpnInstance]
  }

  function OptionWords(j: Job): seq<string> {
    ["-c", IntText(j.count), "-m", IntText(Milliseconds(j.packetInterval)),
     "-t", IntText(Milliseconds(j.timeout)), "-s", IntText(j.size),
     if j.ipv6 then "-tc" else "-tos", IntText(j.tos), "-a", j.source]
  }

  function TailWords(j: Job): seq<string> {
    if j.ipv6 && j.vpnInstance != "" then ["vpn-instance", j.vpnInstance, j.target] else [j.target]
  }

  function CommandWords(j: Job): seq<string> { HeadWords(j) + (OptionWords(j) + TailWords(j)) }

  /** Reads the options that start at word `o`. */
  function ReadOptions(ts: seq<string>, o: nat, v6: bool, vpn: string, target: string): Option<Job>
    requires o + 12 <= |ts|
  {
    var tos := IntValue(ts[o + 9]);
    if 0 <= tos < 256 then
      Some(Job(target, v6, ts[o + 11], IntValue(ts[o + 1]),
               IntValue(ts[o + 3]) * MILLISECOND, IntValue(ts[o + 5]) * MILLISECOND,
               IntValue(ts[o + 7]), tos, vpn))
    else None
  }

  /** A positional reader of ping commands, independent of how they are printed. */
  function ReadCommand(cmd: string): Option<Job> {
    var ts := Fields(cmd);
    if |ts| == 15 && ts[1] == "ipv6" then ReadOptions(ts, 2, true, "", ts[14])
    else if |ts| == 17 && ts[1] == "ipv6" then ReadOptions(ts, 2, true, ts[15], ts[16])
    else if |ts| == 14 then ReadOptions(ts, 1, false, "", ts[13])
    else if |ts| == 16 && ts[1] == "-vpn-instance" then ReadOptions(ts, 3, false, ts[2], ts[15])
    else None
  }

  /** What the command line keeps of a job: durations in whole milliseconds. */
  function Truncated(j: Job): Job {
    j.(packetInterval := Milliseconds(j.packetInterval) * MILLISECOND,
       timeout := Milliseconds(j.timeout) * MILLISECOND)
  }

  lemma UnwordsCons(t: string, ts: seq<string>)
    requires ts != []
    ensures Unwords([t] + ts) == Spaced(t, Unwords(ts))
  {
    assert ([t] + ts)[1..] == ts;
  }

  /** Two more words in front of a line. */
  lemma UnwordsTwo(a: string, b: string, ts: seq<string>)
    requires ts != []
    ensures Unwords([a, b] + ts) == Spaced(a, Spaced(b, Unwords(ts)))
  {
    UnwordsCons(b, ts);
    UnwordsCons(a, [b] + ts);
    assert [a, b] + ts == [a] + ([b] + ts);
  }

  lemma TokensTwo(a: string, b: string, ts: seq<string>)
    requires IsToken(a) && IsToken(b) && AllTokens(ts)
    ensures AllTokens([a, b] + ts)
  {}

  lemma FlagsAreTokens()
    ensures AllTokens(["ping", "ipv6"]) && IsToken("-vpn-instance") && IsToken("vpn-instance")
    ensures IsToken("-c") && IsToken("-m") && IsToken("-t") && IsToken("-s")
    ensures IsToken("-tc") && IsToken("-tos") && IsToken("-a")
  {}

  lemma WordsAreTokens(j: Job)
    requires Printable(j)
    ensures AllTokens(CommandWords(j))
  {
    FlagsAreTokens();
    var f := if j.ipv6 then "-tc" else "-tos";
    var c, m, t, s, q := IntText(j.count), IntText(Milliseconds(j.packetInterval)),
      IntText(Milliseconds(j.timeout)), IntText(j.size), IntText(j.tos);
    var w1 := ["-a", j.source] + [];
    var w2 := [f, q] + w1;
    var w3 := ["-s", s] + w2;
    var w4 := ["-t", t] + w3;
    var w5 := ["-m", m] + w4;
    assert OptionWords(j) == ["-c", c] + w5;
    TokensTwo("-a", j.source, []);
    TokensTwo(f, q, w1);
    TokensTwo("-s", s, w2);
    TokensTwo("-t", t, w3);
    TokensTwo("-m", m, w4);
    TokensTwo("-c", c, w5);
    assert AllTokens(HeadWords(j)) && AllTokens(TailWords(j)) by {
      assert ["ping", "ipv6"][0] == "ping";
    }
  }

  lemma TailText(j: Job)
    ensures Unwords(TailWords(j))
         == (if j.vpnInstance != "" && j.ipv6 then "vpn-instance " + j.vpnInstance + " " else "") + j.target
  {
    if j.ipv6 && j.vpnInstance != "" {
      assert TailWords(j) == ["vpn-instance", j.vpnInstance] + [j.target];
      UnwordsTwo("vpn-instance", j.vpnInstance, [j.target]);
    }
  }

  lemma OptionText(j: Job, ts: seq<string>)
    requires ts != []
    ensures Unwords(OptionWords(j) + ts)
         == Spaced("-c", Spaced(IntText(j.count),
            Spaced("-m", Spaced(IntText(Milliseconds(j.packetInterval)),
            Spaced("-t", Spaced(IntText(Milliseconds(j.timeout)),
            Spaced("-s", Spaced(IntText(j.size),
            Spaced(if j.ipv6 then "-tc" else "-tos", Spaced(IntText(j.tos),
            Spaced("-a", Spaced(j.source, Unwords(ts)))))))))))))
  {
    var f := if j.ipv6 then "-tc" else "-tos";
    var c, m, t, s, q := IntText(j.count), IntText(Milliseconds(j.packetInterval)),
      IntText(Milliseconds(j.timeout)), IntText(j.size), IntText(j.tos);
    var w1 := ["-a", j.source] + ts;
    var w2 := [f, q] + w1;
    var w3 := ["-s", s] + w2;
    var w4 := ["-t", t] + w3;
    var w5 := ["-m", m] + w4;
    assert OptionWords(j) + ts == ["-c", c] + w5;
    UnwordsTwo("-a", j.source, ts);
    UnwordsTwo(f, q, w1);
    UnwordsTwo("-s", s, w2);
    UnwordsTwo("-t", t, w3);
    UnwordsTwo("-m", m, w4);
    UnwordsTwo("-c", c, w5);
  }

  lemma HeadText(j: Job, rest: seq<string>)
    requires rest != []
    ensures Unwords(HeadWords(j) + rest)
         == Spaced(if j.ipv6 then "ping ipv6" else "ping",
              (if j.vpnInstance != "" && !j.ipv6 then "-vpn-instance " + j.vpnInstance + " " else "")
              + Unwords(rest))
  {
    var r := Unwords(rest);
    assert "" + r == r;
    if j.ipv6 {
      UnwordsTwo("ping", "ipv6", rest);
      assert Spaced("ping", Spaced("ipv6", r)) == Spaced("ping ipv6", r);
    } else if j.vpnInstance == "" {
      UnwordsCons("ping", rest);
    } else {
      var vpn := ["-vpn-instance", j.vpnInstance] + rest;
      UnwordsTwo("-vpn-instance", j.vpnInstance, rest);
      UnwordsCons("ping", vpn);
      assert HeadWords(j) + rest == ["ping"] + vpn;
      assert Spaced("-vpn-instance", Spaced(j.vpnInstance, r))
          == "-vpn-instance " + j.vpnInstance + " " + r;
    }
  }

  /** The printed command is exactly its words, separated by single spaces. */
  lemma CommandIsItsWords(j: Job)
    ensures BuildCommand(j) == Unwords(CommandWords(j))
  {
    HeadText(j, OptionWords(j) + TailWords(j));
    OptionText(j, TailWords(j));
    TailText(j);
  }

  /** The words of a command in full, for durations of so many milliseconds and a bit. */
  lemma WordsInFull(j: Job, interval: nat, wait: nat)
    requires 1_000_000 * interval <= j.packetInterval < 1_000_000 * interval + 1_000_000
    requires 1_000_000 * wait <= j.timeout < 1_000_000 * wait + 1_000_000
    ensures var options := ["-c", IntText(j.count), "-m", IntText(interval), "-t", IntText(wait),
                            "-s", IntText(j.size)];
            CommandWords(j) ==
              if j.ipv6 then
                ["ping", "ipv6"] + options + ["-tc", IntText(j.tos), "-a", j.source]
                + (if j.vpnInstance == "" then [] else ["vpn-instance", j.vpnInstance]) + [j.target]
              else
                ["ping"] + (if j.vpnInstance == "" then [] else ["-vpn-instance", j.vpnInstance])
                + options + ["-tos", IntText(j.tos), "-a", j.source, j.target]
  {
    hide IntText, Milliseconds;
    MillisecondsExact(j.packetInterval);
    MillisecondsExact(j.timeout);
  }

  /** The command in full. */
  lemma CommandInFull(j: Job, interval: nat, wait: nat)
    requires 1_000_000 * interval <= j.packetInterval < 1_000_000 * interval + 1_000_000
    requires 1_000_000 * wait <= j.timeout < 1_000_000 * wait + 1_000_000
    ensures var options := ["-c", IntText(j.count), "-m", IntText(interval), "-t", IntText(wait),
                            "-s", IntText(j.size)];
            BuildCommand(j) == Unwords(
              if j.ipv6 then
                ["ping", "ipv6"] + options + ["-tc", IntText(j.tos), "-a", j.source]
                + (if j.vpnInstance == "" then [] else ["vpn-instance", j.vpnInstance]) + [j.target]
              else
                ["ping"] + (if j.vpnInstance == "" then [] else ["-vpn-instance", j.vpnInstance])
                + options + ["-tos", IntText(j.tos), "-a", j.source, j.target])
  {
    hide BuildCommand, Unwords, IntText, CommandWords;
    CommandIsItsWords(j);
    WordsInFull(j, interval, wait);
  }

  lemma OptionsReadBack(j: Job, ts: seq<string>, o: nat, v6: bool, vpn: string, target: string)
    requires o + 12 <= |ts| && ts[o..o + 12] == OptionWords(j)
    ensures ReadOptions(ts, o, v6, vpn, target)
         == Some(Truncated(j).(ipv6 := v6, vpnInstance := vpn, target := target))
  {
    var opts := ts[o..o + 12];
    assert ts[o + 1] == opts[1] && ts[o + 3] == opts[3] && ts[o + 5] == opts[5];
    assert ts[o + 7] == opts[7] && ts[o + 9] == opts[9] && ts[o + 11] == opts[11];
    IntTextRoundTrip(j.count);
    IntTextRoundTrip(Milliseconds(j.packetInterval));
    IntTextRoundTrip(Milliseconds(j.timeout));
    IntTextRoundTrip(j.size);
    IntTextRoundTrip(j.tos);
  }

  lemma MiddleSlice<T>(a: seq<T>, b: seq<T>, c: seq<T>)
    ensures (a + (b + c))[|a|..|a| + |b|] == b
    ensures forall i :: 0 <= i < |c| ==> (a + (b + c))[|a| + |b| + i] == c[i]
  {}

  /** Where the words of a command stand, case by case. */
  lemma WordPositions(j: Job)
    ensures |CommandWords(j)| == |HeadWords(j)| + 12 + |TailWords(j)|
    ensures CommandWords(j)[|CommandWords(j)| - 1] == j.target
    ensures CommandWords(j)[1] == if j.ipv6 then "ipv6" else if j.vpnInstance == "" then "-c" else "-vpn-instance"
    ensures j.vpnInstance != "" ==> CommandWords(j)[if j.ipv6 then 15 else 2] == j.vpnInstance
    ensures CommandWords(j)[|HeadWords(j)|..|HeadWords(j)| + 12] == OptionWords(j)
  {
    MiddleSlice(HeadWords(j), OptionWords(j), TailWords(j));
  }

  /** Every field of a job can be read back from its command; only the parts of
      the durations below one millisecond are lost. */
  lemma CommandRoundTrip(j: Job)
    requires Printable(j)
    ensures ReadCommand(BuildCommand(j)) == Some(Truncated(j))
  {
    hide BuildCommand, CommandWords, OptionWords, ReadOptions, Fields;
    CommandIsItsWords(j);
    WordsAreTokens(j);
    FieldsUnwords(CommandWords(j));
    WordPositions(j);
    OptionsReadBack(j, CommandWords(j), |HeadWords(j)|, j.ipv6, j.vpnInstance, j.target);
  }

  /** Two jobs print the same command exactly when they agree up to truncation. */
  lemma CommandInjective(j: Job, k: Job)
    requires Printable(j) && Printable(k)
    ensures BuildCommand(j) == BuildCommand(k) <==> Truncated(j) == Truncated(k)
  {
    CommandRoundTrip(j);
    CommandRoundTrip(k);
  }
}
