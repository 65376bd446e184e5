/** Reading the rules back off a printed ruleset, without its tagged line: the rules that
    stand in the input chain, in order, and the chain's own policy. What the file's own lines
    decide about a packet is what its policy means. */
module RulesetReader {
  import opened Splitting
  import opened Texts
  import opened Firewall

  /** The ports between the braces. */
  function ReadPorts(body: string): seq<nat> {
    PortsIn(Split(body, ','))
  }

  predicate EndsWith(s: string, suffix: string) {
    |s| >= |suffix| && s[|s| - |suffix|..] == suffix
  }

  const TCP_OPEN := "tcp dport { "
  const UDP_OPEN := "udp dport { "

  /** The neighbour discovery types an IPv6 host needs. */
  const NEIGHBOURS :=
    "icmpv6 type { " + ("nd-neighbor-solicit, " + "nd-neighbor-advert, " + "nd-router-solicit, " + "nd-router-advert }")

  function ReadMatch(text: string): Option<Match> {
    if text == "ct state established,related" then Some(Tracked)
    else if text == "ct state invalid" then Some(Untrackable)
    else if text == "iif \"lo\"" then Some(Loopback)
    else if text == NEIGHBOURS then Some(NeighbourDiscovery)
    else if text == "ip protocol icmp" then Some(Icmp4)
    else if text == "icmpv6 type echo-request" then Some(EchoRequest6)
    else if TCP_OPEN <= text && |text| >= |TCP_OPEN| + 2 then Some(Tcp(ReadPorts(text[|TCP_OPEN|..|text| - 2])))
    else if UDP_OPEN <= text && |text| >= |UDP_OPEN| + 2 then Some(Udp(ReadPorts(text[|UDP_OPEN|..|text| - 2])))
    else None
  }

  /** A line of the input chain: two tabs, a match, a verdict. */
  function ReadRule(line: string): seq<Rule> {
    if !("\t\t" <= line) then []
    else
      var body := line[2..];
      if EndsWith(body, " accept") then
        match ReadMatch(body[..|body| - 7])
        case None => []
        case Some(m) => [Rule(m, true)]
      else if EndsWith(body, " drop") then
        match ReadMatch(body[..|body| - 5])
        case None => []
        case Some(m) => [Rule(m, false)]
      else []
  }

  function ReadRules(lines: seq<string>): seq<Rule> {
    if lines == [] then [] else ReadRules(Front(lines)) + ReadRule(Last(lines))
  }

  // --- One rule ---

  /** Texts of the fixed matches are told apart by a character or their length. */
  lemma FixedMatchReads(m: Match)
    requires !m.Tcp? && !m.Udp?
    ensures ReadMatch(MatchText(m)) == Some(m)
  {
    assert MatchText(Tracked)[9] == 'e' && MatchText(Untrackable)[9] == 'i';
    assert MatchText(Tracked)[0] == 'c' && MatchText(Untrackable)[0] == 'c';
    assert MatchText(Loopback)[0] == 'i' && MatchText(Loopback)[1] == 'i';
    assert MatchText(NeighbourDiscovery)[1] == 'c' && MatchText(NeighbourDiscovery)[12] == '{';
    assert MatchText(Icmp4)[1] == 'p' && MatchText(EchoRequest6)[1] == 'c' && MatchText(EchoRequest6)[12] == 'e';
    assert MatchText(NeighbourDiscovery)[0] == 'i' && MatchText(Icmp4)[0] == 'i' && MatchText(EchoRequest6)[0] == 'i';
  }

  lemma FixedMatchesStart()
    ensures MatchText(Tracked)[0] == 'c' && MatchText(Untrackable)[0] == 'c' && MatchText(Loopback)[0] == 'i'
    ensures MatchText(NeighbourDiscovery)[0] == 'i' && MatchText(Icmp4)[0] == 'i' && MatchText(EchoRequest6)[0] == 'i'
    ensures TCP_OPEN[0] == 't' && UDP_OPEN[0] == 'u'
  {
  }

  function Spaced(s: string): string {
    " " + s
  }

  /** Items printed with ", " between them are cut at the commas, all but the first spaced. */
  function CutPieces(items: seq<string>): seq<string> {
    if items == [] then [""] else [items[0]] + SpacedAll(items[1..])
  }

  function SpacedAll(items: seq<string>): seq<string> {
    seq(|items|, i requires 0 <= i < |items| => Spaced(items[i]))
  }

  lemma {:induction false} CommaSpacedCut(items: seq<string>)
    requires AllFree(items, ',')
    ensures Split(CommaSpaced(items), ',') == CutPieces(items)
  {
    if |items| == 1 {
      SplitOfJoin(items, ',');
      assert CutPieces(items) == items;
    } else if |items| > 1 {
      var more := items[1..];
      var rest := CommaSpaced(more);
      CommaSpacedCut(more);
      var tail := "," + (" " + rest);
      assert CommaSpaced(items) == items[0] + tail;
      SplitPrepend(items[0], tail, ',');
      assert tail[1..] == " " + rest;
      SplitPrepend(" ", rest, ',');
      assert Split(" " + rest, ',') == [" " + Split(rest, ',')[0]] + Split(rest, ',')[1..];
      assert items[0] + [] == items[0];
      assert SpacedAll(more) == [Spaced(more[0])] + SpacedAll(more[1..]);
    }
  }

  lemma PortTextStrips(n: nat)
    ensures Strip(Digits(n)) == Digits(n)
  {
    DigitsAreWords(n);
  }

  lemma {:induction false} PortsOfCut(pieces: seq<string>, ports: seq<nat>)
    requires |pieces| == |ports|
    requires forall i :: 0 <= i < |ports| ==> Strip(pieces[i]) == Digits(ports[i])
    ensures PortsIn(pieces) == ports
  {
    if ports != [] {
      PortsOfCut(Front(pieces), Front(ports));
      NumberOfDigits(Last(ports));
      assert ports == Front(ports) + [Last(ports)];
    }
  }

  lemma PortSetReads(ports: seq<nat>)
    requires ports != []
    ensures ReadPorts(CommaSpaced(PortTexts(ports))) == ports
  {
    var texts := PortTexts(ports);
    forall i | 0 <= i < |texts| ensures ',' !in texts[i] {
      DigitsAreWords(ports[i]);
    }
    CommaSpacedCut(texts);
    var pieces := CutPieces(texts);
    forall i | 0 <= i < |ports| ensures Strip(pieces[i]) == Digits(ports[i]) {
      PortTextStrips(ports[i]);
      if i > 0 {
        assert pieces[i] == SpacedAll(texts[1..])[i - 1] == Spaced(texts[i]);
      }
    }
    PortsOfCut(pieces, ports);
  }

  lemma OpenBraceReads(inner: string)
    ensures ReadMatch(TCP_OPEN + inner + " }") == Some(Tcp(ReadPorts(inner)))
    ensures ReadMatch(UDP_OPEN + inner + " }") == Some(Udp(ReadPorts(inner)))
  {
    FixedMatchesStart();
    OpenBrace(TCP_OPEN, inner);
    OpenBrace(UDP_OPEN, inner);
  }

  lemma OpenBrace(open: string, inner: string)
    ensures var text := open + inner + " }";
            open <= text && |text| >= |open| + 2 && text[|open|..|text| - 2] == inner
            && (open != "" ==> text[0] == open[0])
  {
  }

  lemma PortMatchText(ports: seq<nat>)
    ensures MatchText(Tcp(ports)) == TCP_OPEN + CommaSpaced(PortTexts(ports)) + " }"
    ensures MatchText(Udp(ports)) == UDP_OPEN + CommaSpaced(PortTexts(ports)) + " }"
  {
    var inner := CommaSpaced(PortTexts(ports));
    Bracketed("tcp dport ", "{ ", inner);
    Bracketed("udp dport ", "{ ", inner);
    assert "tcp dport " + "{ " == TCP_OPEN && "udp dport " + "{ " == UDP_OPEN;
  }

  lemma Bracketed(start: string, open: string, inner: string)
    ensures start + (open + inner + " }") == (start + open) + inner + " }"
  {
  }

  lemma PortMatchReads(m: Match)
    requires (m.Tcp? || m.Udp?) && m.ports != []
    ensures ReadMatch(MatchText(m)) == Some(m)
  {
    PortSetReads(m.ports);
    PortMatchText(m.ports);
    OpenBraceReads(CommaSpaced(PortTexts(m.ports)));
  }

  predicate Printable(m: Match) {
    m.Tcp? || m.Udp? ==> m.ports != []
  }

  lemma MatchReads(m: Match)
    requires Printable(m)
    ensures ReadMatch(MatchText(m)) == Some(m)
  {
    if m.Tcp? || m.Udp? {
      PortMatchReads(m);
    } else {
      FixedMatchReads(m);
    }
  }

  lemma LineParts(text: string, verdict: string)
    ensures var line := "\t\t" + text + verdict;
            "\t\t" <= line && line[2..] == text + verdict
    ensures EndsWith(text + verdict, verdict) && (text + verdict)[..|text + verdict| - |verdict|] == text
  {
    assert "\t\t" + text + verdict == "\t\t" + (text + verdict);
  }

  lemma DropIsNotAccept(text: string)
    ensures !EndsWith(text + " drop", " accept")
  {
    assert Last(text + " drop") == 'p' && Last(" accept") == 't';
  }

  /** A printed rule reads back as that rule and nothing else. */
  lemma RuleReads(r: Rule)
    requires Printable(r.when)
    ensures ReadRule(RuleLine(r)) == [r]
  {
    MatchReads(r.when);
    LineParts(MatchText(r.when), if r.accepts then " accept" else " drop");
    DropIsNotAccept(MatchText(r.when));
  }

  // --- The whole file ---

  lemma {:induction false} ReadRulesAppend(a: seq<string>, b: seq<string>)
    ensures ReadRules(a + b) == ReadRules(a) + ReadRules(b)
  {
    if b == [] {
      assert a + b == a;
    } else {
      assert Front(a + b) == a + Front(b) && Last(a + b) == Last(b);
      ReadRulesAppend(a, Front(b));
      Assoc(ReadRules(a), ReadRules(Front(b)), ReadRule(Last(b)));
    }
  }

  predicate AllPrintable(rules: seq<Rule>) {
    forall i :: 0 <= i < |rules| ==> Printable(rules[i].when)
  }

  predicate Reads(line: string, r: Rule) {
    ReadRule(line) == [r]
  }

  lemma OneMore(before: seq<Rule>, read: seq<Rule>, all: seq<Rule>, rules: seq<Rule>)
    requires rules != [] && before == Front(rules) && read == [Last(rules)] && all == before + read
    ensures all == rules
  {
    assert rules == Front(rules) + [Last(rules)];
  }

  lemma ReadRulesSnoc(lines: seq<string>)
    requires lines != []
    ensures ReadRules(lines) == ReadRules(Front(lines)) + ReadRule(Last(lines))
  {
  }

  lemma {:induction false} ReadsLineByLine(lines: seq<string>, rules: seq<Rule>)
    requires |lines| == |rules| && forall i :: 0 <= i < |rules| ==> Reads(lines[i], rules[i])
    ensures ReadRules(lines) == rules
  {
    if rules != [] {
      var n := |rules| - 1;
      assert Reads(lines[n], rules[n]);
      forall i | 0 <= i < n ensures Reads(Front(lines)[i], Front(rules)[i]) {
        assert Front(lines)[i] == lines[i] && Front(rules)[i] == rules[i];
      }
      ReadsLineByLine(Front(lines), Front(rules));
      ReadRulesSnoc(lines);
      OneMore(ReadRules(Front(lines)), ReadRule(Last(lines)), ReadRules(lines), rules);
    }
  }

  lemma {:induction false} RuleLineAt(rules: seq<Rule>, i: nat)
    requires i < |rules|
    ensures |RuleLines(rules)| == |rules| && RuleLines(rules)[i] == RuleLine(rules[i])
  {
    if |rules| > 1 {
      RuleLineAt(Front(rules), if i < |rules| - 1 then i else 0);
    }
  }

  lemma RuleLinesRead(rules: seq<Rule>)
    requires AllPrintable(rules)
    ensures ReadRules(RuleLines(rules)) == rules
  {
    if rules != [] {
      RuleLineAt(rules, 0);
    }
    forall i | 0 <= i < |rules| ensures Reads(RuleLines(rules)[i], rules[i]) {
      RuleLineAt(rules, i);
      RuleReads(rules[i]);
    }
    ReadsLineByLine(RuleLines(rules), rules);
  }

  /** Lines that carry no rule: not indented by two tabs, or not ending in a verdict. */
  predicate NoRule(line: string) {
    |line| < 2 || line[0] != '\t' || line[1] != '\t' || (Last(line) != 't' && Last(line) != 'p')
  }

  predicate NoRules(lines: seq<string>) {
    forall i :: 0 <= i < |lines| ==> NoRule(lines[i])
  }

  lemma {:induction false} NoRulesReadNothing(lines: seq<string>)
    requires NoRules(lines)
    ensures ReadRules(lines) == []
  {
    if lines != [] {
      NoRulesReadNothing(Front(lines));
    }
  }

  predicate OneLine(s: string) {
    '\n' !in s
  }

  predicate Plain(s: string) {
    OneLine(s) && NoRule(s)
  }

  predicate AllPlain(lines: seq<string>) {
    forall i :: 0 <= i < |lines| ==> Plain(lines[i])
  }

  lemma HookIsPlain(hook: string, policy: string)
    requires OneLine(hook) && OneLine(policy)
    ensures Plain(HookLine(hook, policy))
  {
    var line := HookLine(hook, policy);
    assert OneLine("\t\ttype filter hook ") && OneLine(" priority 0; " + "policy ") && OneLine(";");
    assert line == "\t\ttype filter hook " + hook + (" priority 0; " + "policy ") + policy + ";";
    assert Last(line) == ';';
  }

  lemma ChainLinesArePlain()
    ensures Plain("\t}") && Plain("}") && Plain("\tchain forward {") && Plain("\tchain output {")
  {
  }

  lemma EightPlain(a: string, b: string, c: string, d: string, e: string, f: string, g: string, h: string)
    requires Plain(a) && Plain(b) && Plain(c) && Plain(d) && Plain(e) && Plain(f) && Plain(g) && Plain(h)
    ensures AllPlain([a, b, c, d, e, f, g, h])
  {
  }

  lemma ClosingIsPlain()
    ensures AllPlain(CLOSING)
  {
    ChainLinesArePlain();
    HookIsPlain("forward", "drop");
    HookIsPlain("output", "accept");
    EightPlain("\t}", "\tchain forward {", HookLine("forward", "drop"), "\t}",
               "\tchain output {", HookLine("output", "accept"), "\t}", "}");
  }

  lemma HeaderIsPlain(p: Policy)
    requires KnownDefault(p.defaultInput)
    ensures AllPlain([SHEBANG, TITLE, NOTE, GestLine(p)])
  {
    ShebangLine();
    TitleLine();
    NoteLine();
    GestLineIsOneLine(p);
    assert SHEBANG[0] == '#';
    assert TITLE == MARKER + (" \U{2014} simple " + "stateful firewall.");
    assert TITLE[0] == MARKER[0];
    assert NOTE == "# The 'gest:' line " + ("below encodes the " + "policy; edit it via " + "GeST, not by hand.");
    assert NOTE[0] == '#';
    assert GestLine(p)[0] == TAG[0];
  }

  lemma {:induction false} CommaSpacedIsOneLine(items: seq<string>)
    requires forall i :: 0 <= i < |items| ==> OneLine(items[i])
    ensures OneLine(CommaSpaced(items))
  {
    if |items| > 1 {
      CommaSpacedIsOneLine(items[1..]);
    }
  }

  lemma NeighbourMatchIsOneLine()
    ensures OneLine(MatchText(NeighbourDiscovery))
  {
    assert OneLine("icmpv6 type { ");
  }

  lemma FixedMatchIsOneLine(m: Match)
    requires !m.Tcp? && !m.Udp?
    ensures OneLine(MatchText(m))
  {
    NeighbourMatchIsOneLine();
  }

  lemma MatchIsOneLine(m: Match)
    ensures OneLine(MatchText(m))
  {
    if m.Tcp? || m.Udp? {
      var texts := PortTexts(m.ports);
      forall i | 0 <= i < |texts| ensures OneLine(texts[i]) {
        DigitsAreWords(m.ports[i]);
      }
      CommaSpacedIsOneLine(texts);
    } else {
      FixedMatchIsOneLine(m);
    }
  }

  lemma {:induction false} RuleLinesAreFree(rules: seq<Rule>)
    ensures AllFree(RuleLines(rules), '\n')
  {
    if rules != [] {
      RuleLinesAreFree(Front(rules));
      MatchIsOneLine(Last(rules).when);
    }
  }

  lemma InputRulesArePrintable(p: Policy)
    ensures AllPrintable(InputRules(p))
  {
  }

  /** Above the rules, the rules, below the rules. */
  function Above(p: Policy): seq<string> {
    [SHEBANG, TITLE, NOTE, GestLine(p)] + OPENING + [HookLine("input", p.defaultInput)]
  }

  lemma FileParts(p: Policy)
    ensures [SHEBANG, TITLE, NOTE, GestLine(p)] + Chains(p) == Above(p) + RuleLines(InputRules(p)) + CLOSING
  {
    FilePartsOf([SHEBANG, TITLE, NOTE, GestLine(p)], OPENING, [HookLine("input", p.defaultInput)],
                RuleLines(InputRules(p)), CLOSING);
  }

  lemma FilePartsOf(a: seq<string>, b: seq<string>, c: seq<string>, d: seq<string>, e: seq<string>)
    ensures a + (b + c + d + e) == a + b + c + d + e
  {
  }

  lemma AboveIsPlain(p: Policy)
    requires KnownDefault(p.defaultInput)
    ensures AllPlain(Above(p))
  {
    HeaderIsPlain(p);
    OpeningIsPlain();
    HookIsPlain("input", p.defaultInput);
    PlainAppend([SHEBANG, TITLE, NOTE, GestLine(p)], OPENING, HookLine("input", p.defaultInput));
  }

  lemma OpeningIsPlain()
    ensures AllPlain(OPENING)
  {
    assert Plain("") && Plain("flush ruleset") && Plain("table inet filter {") && Plain("\tchain input {");
  }

  lemma PlainAppend(a: seq<string>, b: seq<string>, line: string)
    requires AllPlain(a) && AllPlain(b) && Plain(line)
    ensures AllPlain(a + b + [line])
  {
  }

  lemma LinesOfRuleset(p: Policy)
    requires KnownDefault(p.defaultInput)
    ensures LinesOf(Ruleset(p)) == Above(p) + RuleLines(InputRules(p)) + CLOSING
  {
    FileParts(p);
    AboveIsPlain(p);
    RuleLinesAreFree(InputRules(p));
    ClosingIsPlain();
    LinesOfTerminated(Above(p) + RuleLines(InputRules(p)) + CLOSING);
  }

  /** The rules that stand in the file are the policy's rules, in order, and no others. */
  lemma RulesReadBack(p: Policy)
    requires KnownDefault(p.defaultInput)
    ensures ReadRules(LinesOf(Ruleset(p))) == InputRules(p)
  {
    var rules := RuleLines(InputRules(p));
    LinesOfRuleset(p);
    AboveIsPlain(p);
    ClosingIsPlain();
    NoRulesReadNothing(Above(p));
    NoRulesReadNothing(CLOSING);
    InputRulesArePrintable(p);
    RuleLinesRead(InputRules(p));
    ReadRulesAppend(Above(p) + rules, CLOSING);
    ReadRulesAppend(Above(p), rules);
    Assoc(InputRules(p), [], []);
  }

  // --- The input chain's own policy ---

  const INPUT_HOOK := "\t\ttype filter hook " + "input" + " priority 0; " + "policy "

  /** The policy on the first line that opens the input hook. */
  function ReadDefault(lines: seq<string>): Option<string> {
    if lines == [] then None
    else if INPUT_HOOK <= lines[0] && |lines[0]| > |INPUT_HOOK| then
      Some(lines[0][|INPUT_HOOK|..|lines[0]| - 1])
    else ReadDefault(lines[1..])
  }

  predicate OneTab(line: string) {
    |line| < 2 || line[0] != '\t' || line[1] != '\t'
  }

  lemma HookStarts()
    ensures |INPUT_HOOK| >= 2 && INPUT_HOOK[0] == '\t' && INPUT_HOOK[1] == '\t'
  {
    assert INPUT_HOOK == "\t\ttype filter hook " + ("input" + " priority 0; " + "policy ");
  }

  lemma {:induction false} DefaultBelow(before: seq<string>, line: string, after: seq<string>)
    requires forall i :: 0 <= i < |before| ==> OneTab(before[i])
    ensures ReadDefault(before + ([line] + after)) == ReadDefault([line] + after)
  {
    if before == [] {
      assert before + ([line] + after) == [line] + after;
    } else {
      HookStarts();
      assert (before + ([line] + after))[1..] == before[1..] + ([line] + after);
      DefaultBelow(before[1..], line, after);
    }
  }

  lemma HookReads(policy: string)
    ensures HookLine("input", policy) == INPUT_HOOK + policy + ";"
    ensures INPUT_HOOK <= HookLine("input", policy)
    ensures HookLine("input", policy)[|INPUT_HOOK|..|HookLine("input", policy)| - 1] == policy
  {
    HookParts("\t\ttype filter hook ", "input", " priority 0; ", "policy ", policy, ";");
  }

  lemma HookParts(a: string, b: string, c: string, d: string, policy: string, end: string)
    ensures a + b + c + d + policy + end == (a + b + c + d) + policy + end
    ensures |end| == 1 ==>
              (a + b + c + d + policy + end)[|a + b + c + d|..|a + b + c + d + policy + end| - 1] == policy
  {
  }

  lemma AboveOneTab(p: Policy)
    ensures forall i :: 0 <= i < |Above(p)| - 1 ==> OneTab(Above(p)[i])
    ensures Last(Above(p)) == HookLine("input", p.defaultInput)
  {
    assert SHEBANG[0] == '#' && TAG[0] == '#' && MARKER[0] == '#';
    assert TITLE == MARKER + (" \U{2014} simple " + "stateful firewall.");
    assert NOTE == "# The 'gest:' line " + ("below encodes the " + "policy; edit it via " + "GeST, not by hand.");
    assert OneTab(SHEBANG) && OneTab(TITLE) && OneTab(NOTE) && OneTab(GestLine(p));
    assert OneTab("") && OneTab("flush ruleset") && OneTab("table inet filter {") && OneTab("\tchain input {");
  }

  lemma SplitAtLast(above: seq<string>, rules: seq<string>, closing: seq<string>)
    requires above != []
    ensures above + rules + closing == Front(above) + ([Last(above)] + (rules + closing))
  {
  }

  lemma DefaultReadsBack(p: Policy)
    requires KnownDefault(p.defaultInput)
    ensures ReadDefault(LinesOf(Ruleset(p))) == Some(p.defaultInput)
  {
    LinesOfRuleset(p);
    AboveOneTab(p);
    DefaultStandsAt(Above(p), p.defaultInput, RuleLines(InputRules(p)), CLOSING);
  }

  lemma DefaultStandsAt(above: seq<string>, policy: string, rules: seq<string>, closing: seq<string>)
    requires above != [] && Last(above) == HookLine("input", policy)
    requires forall i :: 0 <= i < |above| - 1 ==> OneTab(above[i])
    ensures ReadDefault(above + rules + closing) == Some(policy)
  {
    var hook := Last(above);
    var after := rules + closing;
    SplitAtLast(above, rules, closing);
    DefaultBelow(Front(above), hook, after);
    HookReads(policy);
    assert ([hook] + after)[0] == hook;
  }

  // --- The chains ---

  function ChainHeader(chain: string): string {
    "\tchain " + chain + " {"
  }

  /** The line after the first one that opens the chain. */
  function FirstOf(lines: seq<string>, header: string): Option<string> {
    if lines == [] then None
    else if lines[0] == header then (if |lines| > 1 then Some(lines[1]) else None)
    else FirstOf(lines[1..], header)
  }

  /** Not the opening of a chain whose name starts with `c`. */
  predicate OtherThan(line: string, c: char) {
    |line| < 8 || line[0] != '\t' || line[1] != 'c' || line[7] != c
  }

  lemma HeaderIs(chain: string, c: char)
    requires chain != "" && chain[0] == c
    ensures !OtherThan(ChainHeader(chain), c)
  {
    assert ChainHeader(chain)[7] == chain[0] && ChainHeader(chain)[1] == 'c';
  }

  lemma {:induction false} FirstBelow(before: seq<string>, header: string, c: char, after: seq<string>)
    requires !OtherThan(header, c) && forall i :: 0 <= i < |before| ==> OtherThan(before[i], c)
    ensures FirstOf(before + after, header) == FirstOf(after, header)
  {
    if before == [] {
      assert before + after == after;
    } else {
      assert (before + after)[1..] == before[1..] + after;
      FirstBelow(before[1..], header, c, after);
    }
  }

  lemma HookIsOther(hook: string, policy: string, c: char)
    ensures OtherThan(HookLine(hook, policy), c)
  {
    HookParts("\t\ttype filter hook ", hook, " priority 0; ", "policy ", policy, ";");
    assert HookLine(hook, policy)[1] == '\t';
  }

  lemma {:induction false} RulesAreOther(rules: seq<Rule>, c: char)
    ensures forall i :: 0 <= i < |RuleLines(rules)| ==> OtherThan(RuleLines(rules)[i], c)
  {
    if rules != [] {
      RulesAreOther(Front(rules), c);
      assert RuleLine(Last(rules))[1] == '\t';
    }
  }

  lemma HeaderLinesAreOther(p: Policy, c: char)
    requires c != 'i'
    ensures forall i :: 0 <= i < |Above(p)| ==> OtherThan(Above(p)[i], c)
  {
    assert SHEBANG[0] == '#' && TAG[0] == '#' && MARKER[0] == '#';
    assert TITLE == MARKER + (" \U{2014} simple " + "stateful firewall.");
    assert NOTE == "# The 'gest:' line " + ("below encodes the " + "policy; edit it via " + "GeST, not by hand.");
    assert OtherThan(SHEBANG, c) && OtherThan(TITLE, c) && OtherThan(NOTE, c) && OtherThan(GestLine(p), c);
    assert OtherThan("", c) && OtherThan("flush ruleset", c) && OtherThan("table inet filter {", c);
    assert "\tchain input {"[7] == 'i';
    HookIsOther("input", p.defaultInput, c);
  }

  lemma ClosingFirst(c: char)
    ensures FirstOf(CLOSING, ChainHeader("forward")) == Some(HookLine("forward", "drop"))
    ensures FirstOf(CLOSING, ChainHeader("output")) == Some(HookLine("output", "accept"))
  {
    ClosingIs();
    var lines := CLOSING;
    HeaderIs("forward", 'f');
    FirstBelow(lines[..1], ChainHeader("forward"), 'f', lines[1..]);
    assert lines == lines[..1] + lines[1..];
    assert lines[1..][0] == ChainHeader("forward") && lines[1..][1] == HookLine("forward", "drop");
    HeaderIs("output", 'o');
    HookIsOther("forward", "drop", 'o');
    assert ChainHeader("forward")[7] == 'f';
    FirstBelow(lines[..4], ChainHeader("output"), 'o', lines[4..]);
    assert lines == lines[..4] + lines[4..];
    assert lines[4..][0] == ChainHeader("output") && lines[4..][1] == HookLine("output", "accept");
  }

  lemma ClosingIs()
    ensures |CLOSING| == 8 && CLOSING[0] == "\t}" && CLOSING[3] == "\t}"
    ensures CLOSING[1] == ChainHeader("forward") && CLOSING[2] == HookLine("forward", "drop")
    ensures CLOSING[4] == ChainHeader("output") && CLOSING[5] == HookLine("output", "accept")
  {
  }

  /** The line that hooks a chain in and says what happens to what no rule decides. */
  function PolicyLine(chain: string, policy: string): string {
    "\t\ttype filter hook " + chain + " priority 0; " + "policy " + policy + ";"
  }

  lemma HookIsPolicyLine(chain: string, policy: string)
    ensures HookLine(chain, policy) == PolicyLine(chain, policy)
  {
  }

  lemma ChainStandsBelow(p: Policy, chain: string, c: char)
    requires chain != "" && chain[0] == c && c != 'i'
    ensures FirstOf(Above(p) + RuleLines(InputRules(p)) + CLOSING, ChainHeader(chain))
         == FirstOf(CLOSING, ChainHeader(chain))
  {
    HeaderIs(chain, c);
    HeaderLinesAreOther(p, c);
    RulesAreOther(InputRules(p), c);
    FirstBelow(Above(p) + RuleLines(InputRules(p)), ChainHeader(chain), c, CLOSING);
  }

  /** The other two chains: nothing is forwarded, everything may leave, whatever the policy. */
  lemma OtherChainsStand(p: Policy)
    requires KnownDefault(p.defaultInput)
    ensures FirstOf(LinesOf(Ruleset(p)), ChainHeader("forward")) == Some(PolicyLine("forward", "drop"))
    ensures FirstOf(LinesOf(Ruleset(p)), ChainHeader("output")) == Some(PolicyLine("output", "accept"))
  {
    LinesOfRuleset(p);
    ClosingFirst('f');
    ChainStandsBelow(p, "forward", 'f');
    ChainStandsBelow(p, "output", 'o');
    HookIsPolicyLine("forward", "drop");
    HookIsPolicyLine("output", "accept");
  }

  // --- Main result ---

  /** What the file's own lines decide, read without the tagged line: the rules that stand
      in it, in order, then the policy that stands in it. */
  predicate FileAccepts(text: string, pkt: Packet) {
    Decide(ReadRules(LinesOf(text)), ReadDefault(LinesOf(text)) == Some("accept"), pkt)
  }

  /** The printed file admits exactly the packets its policy means to, and its tagged line
      describes that same policy. */
  lemma PrintedFileMeansItsPolicy(p: Policy, pkt: Packet)
    requires KnownDefault(p.defaultInput)
    ensures FileAccepts(Ruleset(p), pkt) <==> Admits(p, pkt)
    ensures Parsed(Ruleset(p)).Some? && (FileAccepts(Ruleset(p), pkt) <==> Admits(Parsed(Ruleset(p)).value, pkt))
  {
    RulesReadBack(p);
    DefaultReadsBack(p);
    Decision(p, pkt);
    RulesetRoundTrip(p);
  }
}
