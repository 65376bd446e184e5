/** The firewall policy: printed as an nftables ruleset that carries its own description,
    read back from it, and what the printed rules decide about a packet. */
module Firewall {
  import opened Splitting
  import opened Characters
  import opened Texts

  datatype Option<T> = None | Some(value: T)

  datatype Policy = Policy(defaultInput: string, allowPing: bool, tcpPorts: seq<nat>, udpPorts: seq<nat>)

  predicate KnownDefault(s: string) {
    s == "drop" || s == "accept"
  }

  // --- Rules and what they decide ---

  datatype Match =
    | Tracked                     // established or related
    | Untrackable                 // invalid
    | Loopback
    | NeighbourDiscovery
    | Icmp4
    | EchoRequest6
    | Tcp(ports: seq<nat>)
    | Udp(ports: seq<nat>)

  datatype Rule = Rule(when: Match, accepts: bool)

  datatype CtState = New | Established | Related | Invalid

  datatype Payload = TcpTo(port: nat) | UdpTo(port: nat) | Icmp | Neighbour6 | Echo6 | Other

  datatype Packet = Packet(state: CtState, loopback: bool, payload: Payload)

  predicate Matches(m: Match, pkt: Packet) {
    match m
    case Tracked => pkt.state.Established? || pkt.state.Related?
    case Untrackable => pkt.state.Invalid?
    case Loopback => pkt.loopback
    case NeighbourDiscovery => pkt.payload.Neighbour6?
    case Icmp4 => pkt.payload.Icmp?
    case EchoRequest6 => pkt.payload.Echo6?
    case Tcp(ports) => pkt.payload.TcpTo? && pkt.payload.port in ports
    case Udp(ports) => pkt.payload.UdpTo? && pkt.payload.port in ports
  }

  /** The first matching rule decides; without one, the chain's policy. */
  predicate Decide(rules: seq<Rule>, otherwise: bool, pkt: Packet) {
    if rules == [] then otherwise
    else if Matches(rules[0].when, pkt) then rules[0].accepts
    else Decide(rules[1..], otherwise, pkt)
  }

  const BASE_RULES: seq<Rule> :=
    [Rule(Tracked, true), Rule(Untrackable, false), Rule(Loopback, true), Rule(NeighbourDiscovery, true)]

  function InputRules(p: Policy): seq<Rule> {
    BASE_RULES
    + (if p.allowPing then [Rule(Icmp4, true), Rule(EchoRequest6, true)] else [])
    + (if p.tcpPorts != [] then [Rule(Tcp(p.tcpPorts), true)] else [])
    + (if p.udpPorts != [] then [Rule(Udp(p.udpPorts), true)] else [])
  }

  predicate Accepts(p: Policy, pkt: Packet) {
    Decide(InputRules(p), p.defaultInput == "accept", pkt)
  }

  // --- The ruleset file ---

  function PortTexts(ports: seq<nat>): seq<string> {
    seq(|ports|, i requires 0 <= i < |ports| => Digits(ports[i]))
  }

  function CommaSpaced(items: seq<string>): string {
    if items == [] then "" else if |items| == 1 then items[0] else items[0] + ", " + CommaSpaced(items[1..])
  }

  function PortSet(ports: seq<nat>): string {
    "{ " + CommaSpaced(PortTexts(ports)) + " }"
  }

  function MatchText(m: Match): string {
    match m
    case Tracked => "ct state established,related"
    case Untrackable => "ct state invalid"
    case Loopback => "iif \"lo\""
    case NeighbourDiscovery =>
      "icmpv6 type { "
      + ("nd-neighbor-solicit, " + "nd-neighbor-advert, " + "nd-router-solicit, " + "nd-router-advert }")
    case Icmp4 => "ip protocol icmp"
    case EchoRequest6 => "icmpv6 type echo-request"
    case Tcp(ports) => "tcp dport " + PortSet(ports)
    case Udp(ports) => "udp dport " + PortSet(ports)
  }

  function RuleLine(r: Rule): string {
    "\t\t" + MatchText(r.when) + if r.accepts then " accept" else " drop"
  }

  function RuleLines(rs: seq<Rule>): seq<string> {
    if rs == [] then [] else RuleLines(Front(rs)) + [RuleLine(Last(rs))]
  }

  const MARKER := "# Managed by GeST"
  const TAG := "# gest:"
  const SHEBANG := "#!/usr/sbin/nft -f"
  const TITLE := MARKER + " \U{2014} simple " + "stateful firewall."
  const NOTE := "# The 'gest:' line " + "below encodes the " + "policy; edit it via " + "GeST, not by hand."

  /** The four fields of the machine-readable line. */
  function Tokens(p: Policy): seq<string> {
    ["default_input=" + p.defaultInput,
     "allow_ping=" + (if p.allowPing then "yes" else "no"),
     "tcp=" + Join(PortTexts(p.tcpPorts), ','),
     "udp=" + Join(PortTexts(p.udpPorts), ',')]
  }

  function GestLine(p: Policy): string {
    TAG + " " + Join(Tokens(p), ' ')
  }

  function HookLine(hook: string, policy: string): string {
    "\t\ttype filter hook " + hook + " priority 0; " + "policy " + policy + ";"
  }

  const OPENING: seq<string> := ["", "flush ruleset", "", "table inet filter {", "\tchain input {"]

  const CLOSING: seq<string> :=
    ["\t}", "\tchain forward {", HookLine("forward", "drop"), "\t}",
     "\tchain output {", HookLine("output", "accept"), "\t}", "}"]

  function Chains(p: Policy): seq<string> {
    OPENING + [HookLine("input", p.defaultInput)] + RuleLines(InputRules(p)) + CLOSING
  }

  function Ruleset(p: Policy): string {
    Join([SHEBANG, TITLE, NOTE, GestLine(p)] + Chains(p), '\n') + "\n"
  }

  /** The printer: rules appended as the policy asks for them, then the file around them. */
  method RenderRuleset(p: Policy) returns (text: string)
    ensures text == Ruleset(p)
  {
    var rules := BASE_RULES;
    if p.allowPing {
      rules := rules + [Rule(Icmp4, true)];
      rules := rules + [Rule(EchoRequest6, true)];
    }
    if p.tcpPorts != [] {
      rules := rules + [Rule(Tcp(p.tcpPorts), true)];
    }
    if p.udpPorts != [] {
      rules := rules + [Rule(Udp(p.udpPorts), true)];
    }
    assert rules == InputRules(p);
    var lines := [SHEBANG, TITLE, NOTE, GestLine(p)];
    lines := lines + Chains(p);
    text := Join(lines, '\n') + "\n";
  }

  // --- Reading it back ---

  predicate OccursIn(needle: string, text: string) {
    exists i :: 0 <= i <= |text| && needle <= text[i..]
  }

  function EqualsAt(token: string): (i: nat)
    ensures i <= |token|
    ensures '=' !in token[..i]
    ensures i < |token| ==> token[i] == '='
  {
    if token == "" || token[0] == '=' then 0 else 1 + EqualsAt(token[1..])
  }

  function KeyOf(token: string): string {
    token[..EqualsAt(token)]
  }

  function ValueOf(token: string): string {
    if EqualsAt(token) < |token| then token[EqualsAt(token) + 1..] else ""
  }

  /** Later fields of the same name win. */
  function Fields(tokens: seq<string>): map<string, string> {
    if tokens == [] then map[] else Fields(Front(tokens))[KeyOf(Last(tokens)) := ValueOf(Last(tokens))]
  }

  function PortsIn(pieces: seq<string>): seq<nat> {
    if pieces == [] then []
    else
      var token := Strip(Last(pieces));
      PortsIn(Front(pieces)) + if token != "" && AllDigits(token) then [Number(token)] else []
  }

  /** What follows the tag on the first line that starts with it. */
  function GestPayload(lines: seq<string>): Option<string> {
    if lines == [] then None
    else if TAG <= Strip(lines[0]) then Some(Strip(lines[0])[|TAG|..])
    else GestPayload(lines[1..])
  }

  function Field(fields: map<string, string>, key: string, default: string): string {
    if key in fields then fields[key] else default
  }

  function PolicyOf(fields: map<string, string>): Policy {
    var chosen := Field(fields, "default_input", "drop");
    Policy(if KnownDefault(chosen) then chosen else "drop",
           Field(fields, "allow_ping", "yes") == "yes",
           PortsIn(Split(Field(fields, "tcp", ""), ',')),
           PortsIn(Split(Field(fields, "udp", ""), ',')))
  }

  function Parsed(text: string): Option<Policy> {
    if !OccursIn(MARKER, text) then None
    else match GestPayload(LinesOf(text))
      case None => None
      case Some(payload) => Some(PolicyOf(Fields(Words(payload))))
  }

  method ParsePorts(value: string) returns (ports: seq<nat>)
    ensures ports == PortsIn(Split(value, ','))
  {
    var pieces := Split(value, ',');
    ports := [];
    for i := 0 to |pieces|
      invariant ports == PortsIn(pieces[..i])
    {
      assert Front(pieces[..i + 1]) == pieces[..i];
      var token := Strip(pieces[i]);
      if token != "" && AllDigits(token) {
        ports := ports + [Number(token)];
      }
    }
    assert pieces[..|pieces|] == pieces;
  }

  method ReadFields(tokens: seq<string>) returns (fields: map<string, string>)
    ensures fields == Fields(tokens)
  {
    fields := map[];
    for i := 0 to |tokens|
      invariant fields == Fields(tokens[..i])
    {
      assert Front(tokens[..i + 1]) == tokens[..i];
      fields := fields[KeyOf(tokens[i]) := ValueOf(tokens[i])];
    }
    assert tokens[..|tokens|] == tokens;
  }

  method ParseRuleset(text: string) returns (r: Option<Policy>)
    ensures r == Parsed(text)
  {
    if !OccursIn(MARKER, text) {
      return None;
    }
    var lines := LinesOf(text);
    for i := 0 to |lines|
      invariant GestPayload(lines) == GestPayload(lines[i..])
    {
      assert lines[i..][1..] == lines[i + 1..];
      var stripped := Strip(lines[i]);
      if TAG <= stripped {
        var fields := ReadFields(Words(stripped[|TAG|..]));
        var chosen := Field(fields, "default_input", "drop");
        var tcp := ParsePorts(Field(fields, "tcp", ""));
        var udp := ParsePorts(Field(fields, "udp", ""));
        return Some(Policy(if KnownDefault(chosen) then chosen else "drop",
                           Field(fields, "allow_ping", "yes") == "yes", tcp, udp));
      }
    }
    return None;
  }

  // --- Round trip ---

  lemma LinesAfter(line: string, rest: string)
    requires '\n' !in line
    ensures LinesOf(line + ("\n" + rest)) == [line] + LinesOf(rest)
  {
    SplitPrepend(line, "\n" + rest, '\n');
    assert ("\n" + rest)[1..] == rest;
    assert line + [] == line;
  }

  lemma PrefixAgrees(tag: string, line: string, i: nat)
    requires i < |tag| <= |line|
    ensures tag <= line ==> line[i] == tag[i]
  {
  }

  /** A line that differs from the tag in its first three characters is not the tagged one. */
  lemma NotTagged(line: string)
    requires |line| >= 3 && line[0] == '#' && (line[1] != ' ' || line[2] != 'g')
    ensures !(TAG <= Strip(line))
  {
    TrimEndIsPrefix(line);
    assert TrimStart(line) == line;
    assert TAG[1] == ' ' && TAG[2] == 'g';
    if |line| >= |TAG| {
      PrefixAgrees(TAG, line, 1);
      PrefixAgrees(TAG, line, 2);
    }
  }

  lemma PortsRoundTrip(ports: seq<nat>)
    ensures PortsIn(Split(Join(PortTexts(ports), ','), ',')) == ports
  {
    if ports == [] {
      assert Split("", ',') == [""];
      assert PortsIn([""]) == [] by {
        assert Front([""]) == [];
      }
    } else {
      forall i | 0 <= i < |ports| ensures ',' !in PortTexts(ports)[i] {
        DigitsAreWords(ports[i]);
      }
      SplitOfJoin(PortTexts(ports), ',');
      PortsOfTexts(ports);
    }
  }

  lemma {:induction false} PortsOfTexts(ports: seq<nat>)
    ensures PortsIn(PortTexts(ports)) == ports
  {
    if ports != [] {
      var n := Last(ports);
      PortsOfTexts(Front(ports));
      assert Front(PortTexts(ports)) == PortTexts(Front(ports));
      DigitsAreWords(n);
      NumberOfDigits(n);
      assert Strip(Digits(n)) == Digits(n);
      assert ports == Front(ports) + [n];
    }
  }

  lemma PortsTextHasNoSpace(ports: seq<nat>)
    ensures NoSpace(Join(PortTexts(ports), ','))
  {
    var s := Join(PortTexts(ports), ',');
    forall c: char | IsSpace(c) ensures c !in s {
      forall i | 0 <= i < |ports| ensures c !in PortTexts(ports)[i] {
        DigitsAreWords(ports[i]);
      }
      JoinStaysFree(PortTexts(ports), ',', c);
    }
    forall i | 0 <= i < |s| ensures !IsSpace(s[i]) {
      assert s[i] in s;
    }
  }

  predicate NoSpace(s: string) {
    forall i :: 0 <= i < |s| ==> !IsSpace(s[i])
  }

  lemma {:induction false} EqualsAfterKey(key: string, value: string)
    requires '=' !in key
    ensures EqualsAt(key + "=" + value) == |key|
  {
    if key != "" {
      assert (key + "=" + value)[1..] == key[1..] + "=" + value;
      EqualsAfterKey(key[1..], value);
    }
  }

  lemma FieldSplits(key: string, value: string)
    requires '=' !in key
    ensures KeyOf(key + "=" + value) == key && ValueOf(key + "=" + value) == value
  {
    EqualsAfterKey(key, value);
  }

  lemma NextField(tokens: seq<string>, key: string, value: string)
    requires '=' !in key
    ensures Fields(tokens + [key + "=" + value]) == Fields(tokens)[key := value]
  {
    FieldSplits(key, value);
    assert Front(tokens + [key + "=" + value]) == tokens;
  }

  lemma FieldsOfFour(a: string, va: string, b: string, vb: string, c: string, vc: string, d: string, vd: string)
    requires '=' !in a && '=' !in b && '=' !in c && '=' !in d
    ensures Fields([a + "=" + va, b + "=" + vb, c + "=" + vc, d + "=" + vd])
              == map[][a := va][b := vb][c := vc][d := vd]
  {
    var t1 := [] + [a + "=" + va];
    var t2 := t1 + [b + "=" + vb];
    var t3 := t2 + [c + "=" + vc];
    NextField([], a, va);
    NextField(t1, b, vb);
    NextField(t2, c, vc);
    NextField(t3, d, vd);
    assert t3 + [d + "=" + vd] == [a + "=" + va, b + "=" + vb, c + "=" + vc, d + "=" + vd];
  }

  lemma WordGrows(a: string, b: string)
    requires IsWord(a) && NoSpace(b)
    ensures IsWord(a + b)
  {
  }

  lemma DefaultToken(d: string)
    requires KnownDefault(d)
    ensures IsWord("default_input=" + d)
  {
    WordGrows("default_input=", d);
  }

  lemma PingToken(answer: string)
    requires answer == "yes" || answer == "no"
    ensures IsWord("allow_ping=" + answer)
  {
    WordGrows("allow_ping=", answer);
  }

  lemma PortsToken(key: string, ports: seq<nat>)
    requires IsWord(key)
    ensures IsWord(key + Join(PortTexts(ports), ','))
  {
    PortsTextHasNoSpace(ports);
    WordGrows(key, Join(PortTexts(ports), ','));
  }

  lemma FourWords(a: string, b: string, c: string, d: string)
    requires IsWord(a) && IsWord(b) && IsWord(c) && IsWord(d)
    ensures AllWords([a, b, c, d])
  {
  }

  lemma TokensAreWords(p: Policy)
    requires KnownDefault(p.defaultInput)
    ensures AllWords(Tokens(p))
  {
    var ping := if p.allowPing then "yes" else "no";
    DefaultToken(p.defaultInput);
    PingToken(ping);
    PortsToken("tcp=", p.tcpPorts);
    PortsToken("udp=", p.udpPorts);
    FourWords("default_input=" + p.defaultInput, "allow_ping=" + ping,
              "tcp=" + Join(PortTexts(p.tcpPorts), ','), "udp=" + Join(PortTexts(p.udpPorts), ','));
  }

  lemma FieldsOfTokens(p: Policy)
    ensures Fields(Tokens(p)) == map["default_input" := p.defaultInput,
                                     "allow_ping" := if p.allowPing then "yes" else "no",
                                     "tcp" := Join(PortTexts(p.tcpPorts), ','),
                                     "udp" := Join(PortTexts(p.udpPorts), ',')]
  {
    FieldsOfFour("default_input", p.defaultInput, "allow_ping", if p.allowPing then "yes" else "no",
                 "tcp", Join(PortTexts(p.tcpPorts), ','), "udp", Join(PortTexts(p.udpPorts), ','));
    assert "default_input" + "=" == "default_input=" && "allow_ping" + "=" == "allow_ping=";
    assert "tcp" + "=" == "tcp=" && "udp" + "=" == "udp=";
  }

  /** The tagged line, once stripped, still starts with the tag, and its words are the fields. */
  lemma GestLineReads(tag: string, ws: seq<string>)
    requires tag != "" && !IsSpace(tag[0]) && ws != [] && AllWords(ws)
    ensures Strip(tag + " " + Join(ws, ' ')) == tag + " " + Join(ws, ' ')
    ensures Words((tag + " " + Join(ws, ' '))[|tag|..]) == ws
  {
    var line := tag + " " + Join(ws, ' ');
    WordsOfJoin(ws, ' ');
    JoinEndsInWord(ws);
    assert Last(line) == Last(Join(ws, ' '));
    assert line[|tag|..] == " " + Join(ws, ' ');
    assert (" " + Join(ws, ' '))[1..] == Join(ws, ' ');
  }

  lemma {:induction false} JoinEndsInWord(ws: seq<string>)
    requires ws != [] && AllWords(ws)
    ensures Join(ws, ' ') != "" && !IsSpace(Last(Join(ws, ' ')))
  {
    if |ws| > 1 {
      JoinEndsInWord(ws[1..]);
    }
  }

  lemma GestLineIsOneLine(p: Policy)
    requires KnownDefault(p.defaultInput)
    ensures '\n' !in GestLine(p)
  {
    TokensAreWords(p);
    var ws := Tokens(p);
    forall i | 0 <= i < |ws| ensures '\n' !in ws[i] {
      assert IsWord(ws[i]);
    }
    JoinStaysFree(ws, ' ', '\n');
  }

  lemma JoinCons(line: string, rest: seq<string>)
    requires rest != []
    ensures Join([line] + rest, '\n') + "\n" == line + ("\n" + (Join(rest, '\n') + "\n"))
  {
    assert ([line] + rest)[1..] == rest;
  }

  lemma PayloadBelow(line: string, rest: string)
    requires '\n' !in line && !(TAG <= Strip(line))
    ensures GestPayload(LinesOf(line + ("\n" + rest))) == GestPayload(LinesOf(rest))
  {
    LinesAfter(line, rest);
    assert ([line] + LinesOf(rest))[1..] == LinesOf(rest);
  }

  lemma PayloadHere(line: string, rest: string)
    requires '\n' !in line && TAG <= Strip(line)
    ensures GestPayload(LinesOf(line + ("\n" + rest))) == Some(Strip(line)[|TAG|..])
  {
    LinesAfter(line, rest);
  }

  lemma OccursBelow(line: string, rest: string, needle: string)
    requires needle <= rest
    ensures OccursIn(needle, line + ("\n" + rest))
  {
    assert (line + ("\n" + rest))[|line| + 1..] == rest;
  }

  lemma FourLinesThen(a: string, b: string, c: string, d: string, rest: seq<string>)
    requires rest != []
    ensures Join([a, b, c, d] + rest, '\n') + "\n"
              == a + ("\n" + (b + ("\n" + (c + ("\n" + (d + ("\n" + (Join(rest, '\n') + "\n"))))))))
  {
    JoinCons(d, rest);
    JoinCons(c, [d] + rest);
    JoinCons(b, [c] + ([d] + rest));
    JoinCons(a, [b] + ([c] + ([d] + rest)));
    assert [a, b, c, d] + rest == [a] + ([b] + ([c] + ([d] + rest)));
  }

  /** Three lines that are not the tagged one, then the tagged one, then anything. */
  lemma PayloadBelowThree(a: string, b: string, c: string, d: string, tail: string)
    requires '\n' !in a && '\n' !in b && '\n' !in c && '\n' !in d
    requires !(TAG <= Strip(a)) && !(TAG <= Strip(b)) && !(TAG <= Strip(c)) && TAG <= Strip(d)
    ensures GestPayload(LinesOf(a + ("\n" + (b + ("\n" + (c + ("\n" + (d + ("\n" + tail)))))))))
              == Some(Strip(d)[|TAG|..])
  {
    var t3 := d + ("\n" + tail);
    var t2 := c + ("\n" + t3);
    var t1 := b + ("\n" + t2);
    PayloadBelow(a, t1);
    PayloadBelow(b, t2);
    PayloadBelow(c, t3);
    PayloadHere(d, tail);
  }

  lemma PayloadBelowHeader(a: string, b: string, c: string, d: string, rest: seq<string>)
    requires '\n' !in a && '\n' !in b && '\n' !in c && '\n' !in d && rest != []
    requires !(TAG <= Strip(a)) && !(TAG <= Strip(b)) && !(TAG <= Strip(c)) && TAG <= Strip(d)
    ensures GestPayload(LinesOf(Join([a, b, c, d] + rest, '\n') + "\n")) == Some(Strip(d)[|TAG|..])
  {
    FourLinesThen(a, b, c, d, rest);
    PayloadBelowThree(a, b, c, d, Join(rest, '\n') + "\n");
  }

  lemma MarkerBelowFirst(a: string, b: string, c: string, d: string, rest: seq<string>, marker: string)
    requires marker <= b && rest != []
    ensures OccursIn(marker, Join([a, b, c, d] + rest, '\n') + "\n")
  {
    FourLinesThen(a, b, c, d, rest);
    var t1 := b + ("\n" + (c + ("\n" + (d + ("\n" + (Join(rest, '\n') + "\n"))))));
    assert marker <= t1;
    OccursBelow(a, t1, marker);
  }

  lemma TitleLine()
    ensures '\n' !in TITLE && MARKER <= TITLE && !(TAG <= Strip(TITLE))
  {
    assert TITLE == MARKER + (" \U{2014} simple " + "stateful firewall.");
    assert TITLE[1] == MARKER[1] && TITLE[2] == MARKER[2];
    NotTagged(TITLE);
  }

  lemma NotTaggedFrom(start: string, more: string)
    requires |start| >= 3 && start[0] == '#' && (start[1] != ' ' || start[2] != 'g')
    ensures !(TAG <= Strip(start + more))
  {
    NotTagged(start + more);
  }

  lemma NoteLine()
    ensures '\n' !in NOTE && !(TAG <= Strip(NOTE))
  {
    NotTaggedFrom("# The 'gest:' line ", "below encodes the " + "policy; edit it via " + "GeST, not by hand.");
    assert "# The 'gest:' line " + ("below encodes the " + "policy; edit it via " + "GeST, not by hand.") == NOTE;
  }

  lemma ShebangLine()
    ensures '\n' !in SHEBANG && !(TAG <= Strip(SHEBANG))
  {
    NotTagged(SHEBANG);
  }

  // --- Main results ---

  /** Reading a printed ruleset gives back the very policy it was printed from, for port
      lists of any length. */
  lemma RulesetRoundTrip(p: Policy)
    requires KnownDefault(p.defaultInput)
    ensures Parsed(Ruleset(p)) == Some(p)
  {
    var tokens := Tokens(p);
    ShebangLine();
    TitleLine();
    NoteLine();
    GestLineIsOneLine(p);
    TokensAreWords(p);
    GestLineReads(TAG, tokens);
    PayloadBelowHeader(SHEBANG, TITLE, NOTE, GestLine(p), Chains(p));
    MarkerBelowFirst(SHEBANG, TITLE, NOTE, GestLine(p), Chains(p), MARKER);
    FieldsGiveBack(p);
  }

  lemma FieldsGiveBack(p: Policy)
    requires KnownDefault(p.defaultInput)
    ensures PolicyOf(Fields(Tokens(p))) == p
  {
    FieldsOfTokens(p);
    PortsRoundTrip(p.tcpPorts);
    PortsRoundTrip(p.udpPorts);
  }

  /** Whatever managed text was read, printing the policy and reading it again changes
      nothing more. */
  lemma {:induction false} ReadingIsStable(text: string)
    requires Parsed(text).Some?
    ensures Parsed(Ruleset(Parsed(text).value)) == Parsed(text)
  {
    RulesetRoundTrip(Parsed(text).value);
  }

  /** Of several fields with one name the last is read. */
  lemma {:induction false} LastFieldWins(tokens: seq<string>, key: string)
    ensures key in Fields(tokens) <==> exists i :: 0 <= i < |tokens| && KeyOf(tokens[i]) == key
    ensures forall i :: 0 <= i < |tokens| && KeyOf(tokens[i]) == key
                        && (forall j :: i < j < |tokens| ==> KeyOf(tokens[j]) != key) ==>
              Fields(tokens)[key] == ValueOf(tokens[i])
  {
    if tokens != [] {
      var rest := Front(tokens);
      assert tokens == rest + [Last(tokens)];
      LastFieldWins(rest, key);
      if KeyOf(Last(tokens)) == key {
        assert KeyOf(tokens[|tokens| - 1]) == key;
      } else {
        assert forall i :: 0 <= i < |rest| ==> tokens[i] == rest[i];
      }
    }
  }

  /** What the tagged line leaves unsaid, or says in other words, is read as the closed
      policy that answers pings and lists no port. */
  lemma UnsaidFields(fields: map<string, string>)
    ensures var p := PolicyOf(fields);
            && p.defaultInput == (if "default_input" in fields && fields["default_input"] == "accept" then "accept"
                                  else "drop")
            && (p.allowPing <==> "allow_ping" !in fields || fields["allow_ping"] == "yes")
            && ("tcp" !in fields ==> p.tcpPorts == [])
            && ("udp" !in fields ==> p.udpPorts == [])
  {
    NoPorts();
  }

  lemma NoPorts()
    ensures PortsIn(Split("", ',')) == []
  {
    assert Split("", ',') == [""];
    assert Strip("") == "";
    assert PortsIn([""]) == PortsIn([]) + [];
  }

  lemma {:induction false} DecideAppend(a: seq<Rule>, b: seq<Rule>, otherwise: bool, pkt: Packet)
    ensures Decide(a + b, otherwise, pkt) <==> Decide(a, Decide(b, otherwise, pkt), pkt)
  {
    if a == [] {
      assert a + b == b;
    } else {
      assert (a + b)[1..] == a[1..] + b;
      DecideAppend(a[1..], b, otherwise, pkt);
    }
  }

  /** Is the packet one the policy names, whatever the default? */
  predicate Listed(p: Policy, payload: Payload) {
    match payload
    case TcpTo(port) => port in p.tcpPorts
    case UdpTo(port) => port in p.udpPorts
    case Icmp => p.allowPing
    case Echo6 => p.allowPing
    case Neighbour6 => true
    case Other => false
  }

  /** Tracked traffic always gets in, untrackable traffic never, loopback and everything
      the policy lists do, and the rest follows the default. */
  predicate Admits(p: Policy, pkt: Packet) {
    || pkt.state in {Established, Related}
    || (pkt.state == New && (pkt.loopback || Listed(p, pkt.payload) || p.defaultInput == "accept"))
  }

  lemma DecideBase(otherwise: bool, pkt: Packet)
    ensures Decide(BASE_RULES, otherwise, pkt) <==>
              || pkt.state in {Established, Related}
              || (pkt.state == New && (pkt.loopback || pkt.payload.Neighbour6? || otherwise))
  {
    var r3 := [Rule(NeighbourDiscovery, true)];
    var r2 := [Rule(Loopback, true)] + r3;
    var r1 := [Rule(Untrackable, false)] + r2;
    assert BASE_RULES[1..] == r1 && r1[1..] == r2 && r2[1..] == r3 && r3[1..] == [];
    assert Decide(r3, otherwise, pkt) <==> pkt.payload.Neighbour6? || otherwise;
    assert Decide(r2, otherwise, pkt) <==> pkt.loopback || pkt.payload.Neighbour6? || otherwise;
    assert Decide(r1, otherwise, pkt) <==> pkt.state != Invalid && Decide(r2, otherwise, pkt);
  }

  lemma DecideAccepts(rules: seq<Rule>, otherwise: bool, pkt: Packet)
    requires |rules| <= 2 && forall i :: 0 <= i < |rules| ==> rules[i].accepts
    ensures Decide(rules, otherwise, pkt) <==>
              otherwise || exists i :: 0 <= i < |rules| && Matches(rules[i].when, pkt)
  {
    if |rules| == 2 {
      assert rules[1..] == [rules[1]] && rules[1..][1..] == [];
    }
  }

  /** What the printed rules decide about every packet. */
  lemma Decision(p: Policy, pkt: Packet)
    ensures Accepts(p, pkt) <==> Admits(p, pkt)
  {
    var otherwise := p.defaultInput == "accept";
    var ping := if p.allowPing then [Rule(Icmp4, true), Rule(EchoRequest6, true)] else [];
    var tcp := if p.tcpPorts != [] then [Rule(Tcp(p.tcpPorts), true)] else [];
    var udp := if p.udpPorts != [] then [Rule(Udp(p.udpPorts), true)] else [];
    var afterTcp := Decide(udp, otherwise, pkt);
    var afterPing := Decide(tcp, afterTcp, pkt);
    DecideAppend(BASE_RULES + ping + tcp, udp, otherwise, pkt);
    DecideAppend(BASE_RULES + ping, tcp, afterTcp, pkt);
    DecideAppend(BASE_RULES, ping, afterPing, pkt);
    DecideBase(Decide(ping, afterPing, pkt), pkt);
    DecideAccepts(udp, otherwise, pkt);
    DecideAccepts(tcp, afterTcp, pkt);
    DecideAccepts(ping, afterPing, pkt);
    assert afterTcp <==> otherwise || (pkt.payload.UdpTo? && pkt.payload.port in p.udpPorts) by {
      if p.udpPorts != [] {
        assert udp[0].when == Udp(p.udpPorts);
      }
    }
    assert afterPing <==> afterTcp || (pkt.payload.TcpTo? && pkt.payload.port in p.tcpPorts) by {
      if p.tcpPorts != [] {
        assert tcp[0].when == Tcp(p.tcpPorts);
      }
    }
    if p.allowPing {
      assert ping[0].when == Icmp4 && ping[1].when == EchoRequest6;
    }
  }

  /** Two policies let the same packets in exactly when they have the same effective
      default and, if that is to drop, list the same ports and agree on ping. */
  lemma SameFirewallIff(p: Policy, q: Policy)
    ensures (forall pkt :: Accepts(p, pkt) <==> Accepts(q, pkt)) <==>
              && (p.defaultInput == "accept" <==> q.defaultInput == "accept")
              && (p.defaultInput == "accept" || forall payload :: Listed(p, payload) <==> Listed(q, payload))
  {
    forall pkt ensures Accepts(p, pkt) <==> Admits(p, pkt) {
      Decision(p, pkt);
    }
    forall pkt ensures Accepts(q, pkt) <==> Admits(q, pkt) {
      Decision(q, pkt);
    }
    if forall pkt :: Accepts(p, pkt) <==> Accepts(q, pkt) {
      assert Accepts(p, Packet(New, false, Other)) <==> Accepts(q, Packet(New, false, Other));
      forall payload ensures p.defaultInput == "accept" || (Listed(p, payload) <==> Listed(q, payload)) {
        assert Accepts(p, Packet(New, false, payload)) <==> Accepts(q, Packet(New, false, payload));
      }
    }
  }
}
