/** The outputs that huawei_test.go spells out, line by line, and a command of the kind
    it does. */
module Samples {
  import opened Wrappers
  import opened Text
  import opened Huawei
  import opened PingOutput
  import opened PingReports

  lemma Numbers()
    ensures NatText(0) == "0" && NatText(1) == "1" && NatText(2) == "2" && NatText(3) == "3" && NatText(5) == "5"
    ensures NatText(10) == "10" && NatText(17) == "17" && NatText(18) == "18"
    ensures NatText(50) == "50" && NatText(55) == "55" && NatText(56) == "56" && NatText(57) == "57"
  {}

  lemma LongNumbers()
    ensures NatText(116) == "116" && NatText(119) == "119" && NatText(500) == "500"
  {
    Numbers();
    assert NatText(11) == "11";
  }

  /** `ping -c 10 -m 50 -t 500 -s 56 -tos 0 -a 201.131.152.1 8.8.8.8` */
  lemma SampleCommand()
    ensures BuildCommand(Job("8.8.8.8", false, "201.131.152.1", 10, 50_000_000, 500_000_000, 56, 0, ""))
         == Unwords(["ping"] + [] + ["-c", "10", "-m", "50", "-t", "500", "-s", "56"]
                    + ["-tos", "0", "-a", "201.131.152.1", "8.8.8.8"])
  {
    hide NatText, BuildCommand, Unwords;
    Numbers();
    LongNumbers();
    CommandInFull(Job("8.8.8.8", false, "201.131.152.1", 10, 50_000_000, 500_000_000, 56, 0, ""), 50, 500);
  }

  // ---- A report is its lines ---------------------------------------------------------------

  function Texts(es: seq<Entry>): seq<string> {
    if es == [] then [] else [Line(es[0], "")] + Texts(es[1..])
  }

  lemma Regrouped(a: string, b: string, c: string, d: string, rest: string)
    ensures a + (b + (c + (d + rest))) == (a + (b + (c + d))) + rest
  {}

  lemma LineAndRest(e: Entry, rest: string)
    ensures Line(e, rest) == Line(e, "") + rest
  {
    hide NatText;
    match e
    case Answered(lead, v6, seqNo, ttl, ms) =>
      var time := TimeText(ms, "");
      Regrouped("time=", NatText(ms), " ms", "", rest);
      assert "" + rest == rest && " ms" + "" == " ms";
      assert TimeText(ms, rest) == time + rest;
      Regrouped(TtlWord(v6), NatText(ttl), " ", time, rest);
      assert TtlText(v6, ttl, time + rest) == TtlText(v6, ttl, time) + rest;
      Regrouped("Sequence=", NatText(seqNo), " ", TtlText(v6, ttl, time), rest);
      assert ReplyText(v6, seqNo, ttl, ms, rest) == ReplyText(v6, seqNo, ttl, ms, "") + rest;
      Appended(lead, ReplyText(v6, seqNo, ttl, ms, ""), rest);
    case TimedOut(lead) =>
      Appended(lead, REQUEST_TIME_OUT, rest);
    case Broken(text) =>
    case Other(text) =>
  }

  lemma Appended(a: string, b: string, rest: string)
    ensures a + (b + rest) == (a + b) + rest && b + "" == b
  {}

  lemma {:induction false} LinesJoined(es: seq<Entry>, more: seq<string>)
    requires more != []
    ensures Lines(es, "\n", Join(more)) == Join(Texts(es) + more)
  {
    hide Line, Join;
    if es == [] {
      assert Texts(es) + more == more;
    } else {
      LinesJoined(es[1..], more);
      LineAndRest(es[0], "\n" + Lines(es[1..], "\n", Join(more)));
      JoinedBehind(Line(es[0], ""), Texts(es[1..]) + more);
      assert Texts(es) + more == [Line(es[0], "")] + (Texts(es[1..]) + more);
    }
  }

  lemma JoinedBehind(line: string, lines: seq<string>)
    requires lines != []
    ensures line + ("\n" + Join(lines)) == Join([line] + lines)
  {
    hide Join;
    JoinCons(line, lines);
    assert line + ("\n" + Join(lines)) == line + "\n" + Join(lines);
  }

  /** A line of the statistics. */
  function CountLine(n: nat, word: string): string { "    " + (NatText(n) + (" packet(s) " + word)) }

  lemma CountLineBehind(n: nat, word: string, lines: seq<string>)
    requires lines != []
    ensures "    " + CountText(n, word, "\n" + Join(lines)) == Join([CountLine(n, word)] + lines)
  {
    hide NatText, Join;
    Regrouped("    ", NatText(n), " packet(s) ", word, "\n" + Join(lines));
    JoinedBehind(CountLine(n, word), lines);
  }

  /** A report whose footer is on lines of its own is these lines. */
  lemma ReportJoined(r: Report, after: seq<string>)
    requires after != [] && r.footer == "\n" + Join(after)
    ensures PrintRun(r, "\n")
         == Join(Texts(RunEntries(r))
                 + ([CountLine(r.sent, "transmitted")] + ([CountLine(ReceivedCount(r.echoes), "received")] + after)))
  {
    hide CountLine, RunEntries, CountText, Join, ReceivedCount;
    var second := [CountLine(ReceivedCount(r.echoes), "received")] + after;
    CountLineBehind(ReceivedCount(r.echoes), "received", after);
    CountLineBehind(r.sent, "transmitted", second);
    LinesJoined(RunEntries(r), [CountLine(r.sent, "transmitted")] + second);
  }

  // ---- An IPv4 report with a lost request --------------------------------------------------------

  function ReplyV4(seqNo: string, time: string): string {
    "    Reply from 8.8.8.8: bytes=56 Sequence=" + (seqNo + (" ttl=119 time=" + (time + " ms")))
  }

  lemma HeaderText()
    ensures "  PING " + ("8.8.8.8" + (": " + ("56" + "  data bytes, press CTRL_C to break")))
         == "  PING 8.8.8.8: 56" + "  data bytes, press CTRL_C to break"
  {}

  lemma TrailerText()
    ensures "  --- " + ("8.8.8.8" + " ping statistics ---") == "  --- 8.8.8.8 ping statistics ---"
  {}

  lemma CountTexts()
    ensures "    " + ("3" + (" packet(s) " + "transmitted")) == "    3 packet(s) transmitted"
    ensures "    " + ("2" + (" packet(s) " + "received")) == "    2 packet(s) received"
  {}

  lemma LeadV4()
    ensures LeadText("8.8.8.8", 56, false) == "    Reply from 8.8.8.8: bytes=56 "
  {
    hide NatText;
    Numbers();
  }

  lemma DataV4(seqNo: nat, ms: nat, lead: string)
    ensures Line(Entry.Answered(lead, false, seqNo, 119, ms), "")
         == (lead + "Sequence=") + (NatText(seqNo) + (" ttl=119 time=" + (NatText(ms) + " ms")))
  {
    hide NatText;
    LongNumbers();
    var t := NatText(ms) + " ms";
    assert " ms" + "" == " ms";
    assert " " + ("ttl=" + ("119" + (" " + ("time=" + t)))) == " ttl=119 time=" + t;
    Appended(lead, "Sequence=", NatText(seqNo) + (" ttl=119 time=" + t));
  }

  lemma ReplyLineV4(seqNo: nat, ms: nat)
    ensures Line(Entry.Answered(LeadText("8.8.8.8", 56, false), false, seqNo, 119, ms), "")
         == ReplyV4(NatText(seqNo), NatText(ms))
  {
    hide NatText, LeadText, Line;
    LeadV4();
    DataV4(seqNo, ms, LeadText("8.8.8.8", 56, false));
    assert "    Reply from 8.8.8.8: bytes=56 " + "Sequence=" == "    Reply from 8.8.8.8: bytes=56 Sequence=";
  }

  function LossV4(): Report {
    VrpReport("8.8.8.8", 56, false, [Got(1, 119, 55), Lost, Got(3, 119, 57)], 3,
              "\n" + Join(["    33.33% packet loss", "    round-trip min/avg/max = 55/56/57 ms"]))
  }

  const LOSS_V4: seq<string> := [
    "  PING 8.8.8.8: 56" + "  data bytes, press CTRL_C to break",
    ReplyV4("1", "55"),
    "    Request time out",
    ReplyV4("3", "57"),
    "",
    "  --- 8.8.8.8 ping statistics ---",
    "    3 packet(s) transmitted",
    "    2 packet(s) received",
    "    33.33% packet loss",
    "    round-trip min/avg/max = 55/56/57 ms"]

  lemma LossEntries()
    ensures RunEntries(LossV4())
         == [Other(Header("8.8.8.8", 56, false)),
             Entry.Answered(LeadText("8.8.8.8", 56, false), false, 1, 119, 55),
             TimedOut("    "),
             Entry.Answered(LeadText("8.8.8.8", 56, false), false, 3, 119, 57),
             Other(""), Other(Trailer("8.8.8.8", false))]
  {
    hide Header, Trailer, LeadText;
    var e := LossV4().echoes;
    assert e[1..][1..] == [Got(3, 119, 57)];
    assert AllEchoEntries("8.8.8.8", 56, false, e[1..][1..])
        == [Entry.Answered(LeadText("8.8.8.8", 56, false), false, 3, 119, 57)];
  }

  lemma TextsCons(e: Entry, es: seq<Entry>)
    ensures Texts([e] + es) == [Line(e, "")] + Texts(es)
  {
    assert ([e] + es)[1..] == es;
  }

  lemma TextsOf(a: Entry, b: Entry, c: Entry, d: Entry, e: Entry, f: Entry)
    ensures Texts([a, b, c, d, e, f])
         == [Line(a, ""), Line(b, ""), Line(c, ""), Line(d, ""), Line(e, ""), Line(f, "")]
  {
    hide Line;
    TextsCons(f, []);
    TextsCons(e, [f]);
    TextsCons(d, [e, f]);
    TextsCons(c, [d, e, f]);
    TextsCons(b, [c, d, e, f]);
    TextsCons(a, [b, c, d, e, f]);
    assert [a] + [b, c, d, e, f] == [a, b, c, d, e, f] && [b] + [c, d, e, f] == [b, c, d, e, f];
    assert [c] + [d, e, f] == [c, d, e, f] && [d] + [e, f] == [d, e, f] && [e] + [f] == [e, f] && [f] + [] == [f];
  }

  lemma OtherLines(h: string, t: string)
    ensures Line(Other(h), "") == h && Line(Other(t), "") == t && Line(Other(""), "") == ""
    ensures Line(TimedOut("    "), "") == "    Request time out"
  {}

  lemma LossTexts()
    ensures Texts(RunEntries(LossV4())) == LOSS_V4[..6]
  {
    hide RunEntries, Line, Header, Trailer, LeadText, ReplyV4, NatText;
    LossEntries();
    var h, t, lead := Header("8.8.8.8", 56, false), Trailer("8.8.8.8", false), LeadText("8.8.8.8", 56, false);
    TextsOf(Other(h), Entry.Answered(lead, false, 1, 119, 55), TimedOut("    "),
            Entry.Answered(lead, false, 3, 119, 57), Other(""), Other(t));
    OtherLines(h, t);
    ReplyLineV4(1, 55);
    ReplyLineV4(3, 57);
    Numbers();
    FrameV4();
  }

  lemma FrameV4()
    ensures Header("8.8.8.8", 56, false) == "  PING 8.8.8.8: 56" + "  data bytes, press CTRL_C to break"
    ensures Trailer("8.8.8.8", false) == "  --- 8.8.8.8 ping statistics ---"
  {
    hide NatText;
    Numbers();
    HeaderText();
    TrailerText();
  }

  lemma LossIsPrinted()
    ensures PrintRun(LossV4(), "\n") == Join(LOSS_V4)
  {
    hide PrintRun, Texts, RunEntries, Join, NatText;
    ReportJoined(LossV4(), LOSS_V4[8..]);
    LossTexts();
    Numbers();
    CountTexts();
    assert LOSS_V4 == LOSS_V4[..6] + ([LOSS_V4[6]] + ([LOSS_V4[7]] + LOSS_V4[8..]));
  }

  lemma LossCounts()
    ensures GotReplies(LossV4().echoes) == [Reply(1, 55_000_000, 119), Reply(3, 57_000_000, 119)]
    ensures LostCount(LossV4().echoes) == 1
  {
    hide Millis;
    var x, y := Got(1, 119, 55), Got(3, 119, 57);
    assert LossV4().echoes == [x, Lost, y];
    MillisExact(55);
    MillisExact(57);
    assert [x, Lost, y][1..] == [Lost, y] && [Lost, y][1..] == [y] && [y][1..] == [];
    assert GotReplies([y]) == [Reply(3, 57_000_000, 119)] && LostCount([y]) == 0;
    assert GotReplies([Lost, y]) == [Reply(3, 57_000_000, 119)] && LostCount([Lost, y]) == 1;
    assert GotReplies([x, Lost, y]) == [Reply(1, 55_000_000, 119)] + GotReplies([Lost, y]);
  }

  lemma LossVerdict()
    ensures PingReports.Verdict(LossV4())
         == Ok(PingResult(3, [Reply(1, 55_000_000, 119), Reply(3, 57_000_000, 119)], 1))
  {
    hide GotReplies, LostCount, ReceivedCount;
    LossCounts();
  }

  lemma PlainAddress()
    ensures Plain("8.8.8.8") && 'q' !in "    33.33% packet loss" && 'q' !in "    round-trip min/avg/max = 55/56/57 ms"
  {}

  /** The IPv4 output with one request lost: two replies, one timeout, three sent. */
  lemma OutputWithLoss()
    ensures Parse(Join(LOSS_V4)) == Ok(PingResult(3, [Reply(1, 55_000_000, 119), Reply(3, 57_000_000, 119)], 1))
  {
    hide Parse, PrintRun, Join, PingReports.Verdict, GotReplies;
    PlainAddress();
    FooterPlain("    33.33% packet loss", "    round-trip min/avg/max = 55/56/57 ms");
    LossIsPrinted();
    LossVerdict();
    var r := LossV4();
    VrpRoundTrip("8.8.8.8", 56, false, r.echoes, 3, "\n", r.footer);
  }

  lemma FooterPlain(a: string, b: string)
    requires 'q' !in a && 'q' !in b
    ensures 'q' !in "\n" + Join([a, b])
  {}

  // ---- An output that is no report --------------------------------------------------------------

  /** A refusal of the router is no result, and the error quotes it. */
  lemma RefusalIsQuoted()
    ensures Parse("Error: The source address is invalid.")
         == Err(NoTransmittedCount("Error: The source address is invalid."))
  {
    var out := "Error: The source address is invalid.";
    NoDigits();
    hide Parse, FirstLine, Split, IsSpace, IsDigit;
    NothingCounted(out);
    OneLine(out);
  }

  lemma NothingCounted(out: string)
    requires forall i :: 0 <= i < |out| ==> !IsDigit(out[i])
    ensures Parse(out) == Err(NoTransmittedCount(FirstLine(Split(out))))
  {
    hide FirstLine, Split, FindReplies, CountTimeouts;
    SkipNoDigit(out, "", "transmitted");
    assert out + "" == out;
    assert FindCount("", "transmitted").None?;
  }

  lemma NoDigits()
    ensures var out := "Error: The source address is invalid.";
            (forall i :: 0 <= i < |out| ==> !IsDigit(out[i])) && '\n' !in out
            && out != "" && !IsSpace(out[0]) && !IsSpace(out[|out| - 1])
  {}

  lemma OneLine(out: string)
    requires out != "" && '\n' !in out && !IsSpace(out[0]) && !IsSpace(out[|out| - 1])
    ensures FirstLine(Split(out)) == out
  {
    forall q: nat ensures !At(out, q, "\n") {
      AtPointwise(out, q, "\n");
      assert q < |out| ==> out[q] in out;
    }
    assert IndexOf(out, "\n") < 0;
  }
}
