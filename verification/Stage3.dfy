/** Download, check and unpack a stage3. */
module Stage3 {
  import opened Splitting
  import opened Streaming
  import opened Characters
  import MountPlans

  datatype Option<T> = None | Some(value: T)

  /** The request and the host: `expected` are the digests listed for the file, `hashes`
      computes the digests of a file's content. */
  datatype Request = Request(
    root: string, url: string, filename: string, signatureUrl: string,
    expected: map<string, string>, hashes: string -> map<string, string>, gpgInstalled: bool)

  datatype Command = Download(url: string) | DownloadSignature(url: string) | CheckSignature | Untar(root: string)

  /** What the file system shows when a command has exited. */
  datatype Disk = Disk(tarballThere: bool, signatureThere: bool, content: Option<string>)

  datatype Phase = Downloading | FetchingSignature | CheckingSignature | Unpacking | Ended

  /** `reading` is whether the running command's output is still open; `started` is every
      command started so far. */
  datatype Runner = Runner(
    phase: Phase, reading: bool, signatureDownloaded: bool, stream: Stream, started: seq<Command>)

  // --- The integrity gate ---

  /** Every listed digest is one we can compute and matches, and there is at least one. */
  predicate HashesMatch(hashes: string -> map<string, string>, content: string, expected: map<string, string>) {
    && expected != map[]
    && forall algorithm :: algorithm in expected ==>
         algorithm in hashes(content) && Lower(hashes(content)[algorithm]) == Lower(expected[algorithm])
  }

  predicate HttpUrl(url: string) {
    "https://" <= url || "http://" <= url
  }

  // --- Phases ---

  function Say(r: Runner, lines: seq<Line>): Runner {
    r.(stream := r.stream.(signals := r.stream.signals + [Progress(lines)]))
  }

  function Launch(r: Runner, c: Command, phase: Phase): Runner {
    r.(phase := phase, reading := true, stream := Fresh(r.stream.signals), started := r.started + [c])
  }

  function Finish(r: Runner, code: int): Runner {
    r.(phase := Ended, stream := r.stream.(signals := r.stream.signals + [Finished(code)]))
  }

  function Start(q: Request): Runner {
    var idle := Runner(Ended, false, false, Fresh([]), []);
    Launch(Say(idle, ["Downloading " + q.filename, "  from " + q.url]), Download(q.url), Downloading)
  }

  function AfterDownload(q: Request, r: Runner, code: int, disk: Disk): Runner {
    if code != 0 || !disk.tarballThere then
      Finish(Say(r, ["!!! download failed"]), if code != 0 then code else 1)
    else if HttpUrl(q.signatureUrl) then
      Launch(Say(r, ["Downloading signature (.asc)"]), DownloadSignature(q.signatureUrl), FetchingSignature)
    else
      AfterSignature(q, r, 1, disk)
  }

  function AfterSignature(q: Request, r: Runner, code: int, disk: Disk): Runner {
    VerifyHashes(q, r.(signatureDownloaded := code == 0 && disk.signatureThere), disk)
  }

  function VerifyHashes(q: Request, r: Runner, disk: Disk): Runner {
    var r := Say(r, ["Verifying integrity (BLAKE2B + SHA512)"]);
    if disk.content.None? then Finish(Say(r, ["!!! cannot read downloaded tarball"]), 1)
    else if q.expected == map[] then Finish(Say(r, ["!!! refusing to unpack an unverifiable tarball"]), 1)
    else if !HashesMatch(q.hashes, disk.content.value, q.expected) then
      Finish(Say(r, ["!!! HASH MISMATCH"]), 1)
    else GpgVerify(q, Say(r, ["  integrity OK"]))
  }

  function GpgVerify(q: Request, r: Runner): Runner {
    if !r.signatureDownloaded then Unpack(q, Say(r, ["GPG: no signature available"]))
    else if !q.gpgInstalled then Unpack(q, Say(r, ["GPG: gpg not installed"]))
    else Launch(Say(r, ["Verifying GPG signature (best-effort)"]), CheckSignature, CheckingSignature)
  }

  function AfterGpg(q: Request, r: Runner, code: int): Runner {
    Unpack(q, Say(r, [if code == 0 then "  GPG signature VERIFIED" else "  GPG unverified"]))
  }

  function Unpack(q: Request, r: Runner): Runner {
    Launch(Say(r, ["Unpacking into " + q.root]), Untar(q.root), Unpacking)
  }

  function AfterUnpack(q: Request, r: Runner, code: int): Runner {
    Finish(Say(r, [if code == 0 then "Stage3 unpacked into " + q.root else "!!! unpack failed"]), code)
  }

  // --- Runs ---

  datatype Happening = Output(event: Event) | EndOfOutput | Exited(code: int, disk: Disk)

  predicate Possible(r: Runner, h: Happening) {
    match h
    case Output(e) => r.phase != Ended && r.reading && Enabled(r.stream, e)
    case EndOfOutput => r.phase != Ended && r.reading
    case Exited(_, _) => r.phase != Ended && !r.reading
  }

  function AfterExit(q: Request, r: Runner, code: int, disk: Disk): Runner
    requires r.phase != Ended
  {
    match r.phase
    case Downloading => AfterDownload(q, r, code, disk)
    case FetchingSignature => AfterSignature(q, r, code, disk)
    case CheckingSignature => AfterGpg(q, r, code)
    case Unpacking => AfterUnpack(q, r, code)
  }

  function AfterOutput(r: Runner, e: Event): Runner {
    r.(stream := After(r.stream, e))
  }

  function AfterEndOfOutput(r: Runner): Runner {
    r.(stream := AfterEof(r.stream), reading := false)
  }

  function Next(q: Request, r: Runner, h: Happening): Runner
    requires Possible(r, h)
  {
    match h
    case Output(e) => AfterOutput(r, e)
    case EndOfOutput => AfterEndOfOutput(r)
    case Exited(code, disk) => AfterExit(q, r, code, disk)
  }

  predicate Feasible(q: Request, r: Runner, hs: seq<Happening>)
    decreases hs
  {
    hs == [] || (Possible(r, hs[0]) && Feasible(q, Next(q, r, hs[0]), hs[1..]))
  }

  function Install(q: Request, r: Runner, hs: seq<Happening>): Runner
    requires Feasible(q, r, hs)
    decreases hs
  {
    if hs == [] then r else Install(q, Next(q, r, hs[0]), hs[1..])
  }

  // --- What happened, told without the runner ---

  /** How a command ended, and what was on disk then. */
  datatype Exit = Exit(code: int, disk: Disk)

  /** The commands that have exited with what each wrote, what the running one has written so
      far and whether its output is closed. */
  datatype History = History(exits: seq<Exit>, outputs: seq<string>, current: string, closed: bool)

  const NO_HISTORY := History([], [], "", false)

  function Remember(m: History, h: Happening): History {
    match h
    case Output(Chunk(data, _)) => m.(current := m.current + data)
    case Output(_) => m
    case EndOfOutput => m.(closed := true)
    case Exited(code, disk) => History(m.exits + [Exit(code, disk)], m.outputs + [m.current], "", false)
  }

  function RememberAll(m: History, hs: seq<Happening>): History
    decreases hs
  {
    if hs == [] then m else RememberAll(Remember(m, hs[0]), hs[1..])
  }

  /** The download succeeded and left a tarball. */
  predicate Arrived(exits: seq<Exit>) {
    |exits| >= 1 && exits[0].code == 0 && exits[0].disk.tarballThere
  }

  predicate FetchesSignature(q: Request, exits: seq<Exit>) {
    Arrived(exits) && HttpUrl(q.signatureUrl)
  }

  /** The exit after which the hashes are checked: the signature download's if there is one,
      else the download's. */
  function GateAt(q: Request): nat {
    if HttpUrl(q.signatureUrl) then 1 else 0
  }

  /** The gate: the download arrived, could be read, and matches its digests. */
  predicate GatePassed(q: Request, exits: seq<Exit>) {
    && Arrived(exits) && |exits| > GateAt(q)
    && exits[GateAt(q)].disk.content.Some?
    && HashesMatch(q.hashes, exits[GateAt(q)].disk.content.value, q.expected)
  }

  predicate SignatureCame(q: Request, exits: seq<Exit>) {
    FetchesSignature(q, exits) && |exits| >= 2 && exits[1].code == 0 && exits[1].disk.signatureThere
  }

  predicate ChecksSignature(q: Request, exits: seq<Exit>) {
    GatePassed(q, exits) && SignatureCame(q, exits) && q.gpgInstalled
  }

  /** tar comes after the gate and after the signature check, if there is one. */
  predicate Unpacks(q: Request, exits: seq<Exit>) {
    GatePassed(q, exits) && (ChecksSignature(q, exits) ==> |exits| >= 3)
  }

  /** The commands that these exits call for. */
  function Commands(q: Request, exits: seq<Exit>): seq<Command> {
    [Download(q.url)]
    + (if FetchesSignature(q, exits) then [DownloadSignature(q.signatureUrl)] else [])
    + (if ChecksSignature(q, exits) then [CheckSignature] else [])
    + (if Unpacks(q, exits) then [Untar(q.root)] else [])
  }

  function UnpackAt(q: Request, exits: seq<Exit>): nat {
    GateAt(q) + if ChecksSignature(q, exits) then 2 else 1
  }

  /** The exit code a run must end with, from the download, the hash check and the unpack. */
  function ResultCode(q: Request, exits: seq<Exit>): int {
    if !Arrived(exits) then (if exits != [] && exits[0].code != 0 then exits[0].code else 1)
    else if !GatePassed(q, exits) then 1
    else if |exits| > UnpackAt(q, exits) then exits[UnpackAt(q, exits)].code else 1
  }

  // --- What an observer is told ---

  function Opening(q: Request): seq<Line> {
    ["Downloading " + q.filename, "  from " + q.url]
  }

  function GateLines(q: Request, exits: seq<Exit>): seq<Line>
    requires |exits| > GateAt(q)
  {
    var content := exits[GateAt(q)].disk.content;
    ["Verifying integrity (BLAKE2B + SHA512)"] +
    if content.None? then ["!!! cannot read downloaded tarball"]
    else if q.expected == map[] then ["!!! refusing to unpack an unverifiable tarball"]
    else if !HashesMatch(q.hashes, content.value, q.expected) then ["!!! HASH MISMATCH"]
    else ["  integrity OK"] + SignatureLines(q, exits)
  }

  function SignatureLines(q: Request, exits: seq<Exit>): seq<Line> {
    if !SignatureCame(q, exits) then ["GPG: no signature available", "Unpacking into " + q.root]
    else if !q.gpgInstalled then ["GPG: gpg not installed", "Unpacking into " + q.root]
    else ["Verifying GPG signature (best-effort)"]
  }

  /** What is said when the last of these exits has happened. */
  function SaidAfter(q: Request, exits: seq<Exit>): seq<Line>
    requires exits != []
  {
    if !Arrived(exits) then ["!!! download failed"]
    else if |exits| <= GateAt(q) then ["Downloading signature (.asc)"]
    else if |exits| == GateAt(q) + 1 then GateLines(q, exits)
    else if |exits| <= UnpackAt(q, exits) then
      [if Last(exits).code == 0 then "  GPG signature VERIFIED" else "  GPG unverified"]
      + ["Unpacking into " + q.root]
    else [if Last(exits).code == 0 then "Stage3 unpacked into " + q.root else "!!! unpack failed"]
  }

  /** Everything told by the time the last of these exits has been dealt with: what is said and
      what each command wrote, in order. */
  function Transcript(q: Request, exits: seq<Exit>, outputs: seq<string>): seq<Line>
    requires |exits| == |outputs|
  {
    if exits == [] then Opening(q)
    else Transcript(q, Front(exits), Front(outputs)) + LinesOf(Last(outputs)) + SaidAfter(q, exits)
  }

  // --- The invariant ---

  predicate PhaseInv(q: Request, r: Runner, exits: seq<Exit>) {
    && r.started == Commands(q, exits)
    && match r.phase
       case Downloading => exits == []
       case FetchingSignature => |exits| == 1 && FetchesSignature(q, exits)
       case CheckingSignature => |exits| == GateAt(q) + 1 && ChecksSignature(q, exits)
       case Unpacking => GatePassed(q, exits) && |exits| == UnpackAt(q, exits)
       case Ended => |exits| == |Commands(q, exits)|
  }

  predicate TraceInv(q: Request, r: Runner, m: History) {
    var signals := r.stream.signals;
    && |m.exits| == |m.outputs|
    && var told := Transcript(q, m.exits, m.outputs);
    if r.phase == Ended then
      && signals != [] && AllProgress(Front(signals)) && Last(signals) == Finished(ResultCode(q, m.exits))
      && r.stream == Fresh(signals) && LinesSent(Front(signals)) == told && m.current == ""
    else
      && AllProgress(signals)
      && if r.reading then Inv(r.stream, told, m.current) else Quiet(r, told + LinesOf(m.current))
  }

  predicate RunnerInv(q: Request, r: Runner, m: History) {
    PhaseInv(q, r, m.exits) && TraceInv(q, r, m)
  }

  /** Between commands: nothing buffered, everything told is on the bus. */
  predicate Quiet(r: Runner, told: seq<Line>) {
    && r.stream == Fresh(r.stream.signals)
    && AllProgress(r.stream.signals) && BatchSized(r.stream.signals)
    && LinesSent(r.stream.signals) == told
  }

  lemma SayKeepsQuiet(r: Runner, told: seq<Line>, lines: seq<Line>)
    requires Quiet(r, told) && 1 <= |lines| <= 2
    ensures Quiet(Say(r, lines), told + lines)
  {
    LinesSentAppend(r.stream.signals, [Progress(lines)]);
    assert [Progress(lines)][1..] == [];
    assert lines + [] == lines;
  }

  /** A command was started and everything told is on the bus. */
  predicate Running(r: Runner, told: seq<Line>, phase: Phase, started: seq<Command>) {
    r.phase == phase && r.reading && Quiet(r, told) && r.started == started
  }

  /** The run was ended with this code. */
  predicate Over(r: Runner, told: seq<Line>, code: int, started: seq<Command>) {
    var signals := r.stream.signals;
    && r.phase == Ended && r.started == started && signals != []
    && AllProgress(Front(signals)) && Last(signals) == Finished(code)
    && r.stream == Fresh(signals) && LinesSent(Front(signals)) == told
  }

  lemma LaunchRuns(r: Runner, told: seq<Line>, line: Line, c: Command, phase: Phase)
    requires Quiet(r, told)
    ensures Running(Launch(Say(r, [line]), c, phase), told + [line], phase, r.started + [c])
  {
    SayKeepsQuiet(r, told, [line]);
  }

  lemma FinishEnds(r: Runner, told: seq<Line>, line: Line, code: int)
    requires Quiet(r, told)
    ensures Over(Finish(Say(r, [line]), code), told + [line], code, r.started)
  {
    SayKeepsQuiet(r, told, [line]);
    assert Front(Say(r, [line]).stream.signals + [Finished(code)]) == Say(r, [line]).stream.signals;
  }

  /** What a runner must look like once the last of these exits was dealt with. */
  predicate Answered(q: Request, r: Runner, exits: seq<Exit>, told: seq<Line>) {
    && PhaseInv(q, r, exits)
    && if r.phase == Ended then Over(r, told, ResultCode(q, exits), r.started) else r.reading && Quiet(r, told)
  }

  lemma AnsweredKeepsInv(q: Request, r: Runner, m: History)
    requires |m.exits| == |m.outputs| && m.current == "" && Answered(q, r, m.exits, Transcript(q, m.exits, m.outputs))
    ensures RunnerInv(q, r, m)
  {
    var told := Transcript(q, m.exits, m.outputs);
    assert Split("", '\n') == [[]];
    assert told + [[]] == told + [] + [[]];
  }

  lemma GpgAnswers(q: Request, r: Runner, exits: seq<Exit>, told: seq<Line>)
    requires Quiet(r, told) && GatePassed(q, exits) && |exits| == GateAt(q) + 1
    requires r.signatureDownloaded == SignatureCame(q, exits)
    requires r.started == [Download(q.url)]
             + if FetchesSignature(q, exits) then [DownloadSignature(q.signatureUrl)] else []
    ensures Answered(q, GpgVerify(q, r), exits, told + SignatureLines(q, exits))
  {
    var unpacking := "Unpacking into " + q.root;
    if !SignatureCame(q, exits) {
      SayKeepsQuiet(r, told, ["GPG: no signature available"]);
      LaunchRuns(Say(r, ["GPG: no signature available"]), told + ["GPG: no signature available"], unpacking,
                 Untar(q.root), Unpacking);
      Pair(told, "GPG: no signature available", unpacking);
    } else if !q.gpgInstalled {
      SayKeepsQuiet(r, told, ["GPG: gpg not installed"]);
      LaunchRuns(Say(r, ["GPG: gpg not installed"]), told + ["GPG: gpg not installed"], unpacking,
                 Untar(q.root), Unpacking);
      Pair(told, "GPG: gpg not installed", unpacking);
    } else {
      LaunchRuns(r, told, "Verifying GPG signature (best-effort)", CheckSignature, CheckingSignature);
    }
  }

  lemma Pair(told: seq<Line>, a: Line, b: Line)
    ensures told + [a] + [b] == told + [a, b]
  {
  }

  /** A check that refuses: what is said, and code 1. */
  lemma RefusalAnswers(q: Request, r: Runner, exits: seq<Exit>, told: seq<Line>, first: Line, line: Line)
    requires Quiet(r, told + [first]) && Arrived(exits) && |exits| == GateAt(q) + 1 && !GatePassed(q, exits)
    requires r.started == [Download(q.url)]
             + if FetchesSignature(q, exits) then [DownloadSignature(q.signatureUrl)] else []
    ensures Answered(q, Finish(Say(r, [line]), 1), exits, told + [first, line])
  {
    FinishEnds(r, told + [first], line, 1);
    Pair(told, first, line);
  }

  lemma VerifyAnswers(q: Request, r: Runner, exits: seq<Exit>, told: seq<Line>)
    requires Quiet(r, told) && Arrived(exits) && |exits| == GateAt(q) + 1
    requires r.signatureDownloaded == SignatureCame(q, exits)
    requires r.started == [Download(q.url)]
             + if FetchesSignature(q, exits) then [DownloadSignature(q.signatureUrl)] else []
    ensures Answered(q, VerifyHashes(q, r, exits[GateAt(q)].disk), exits, told + GateLines(q, exits))
  {
    var first, content := "Verifying integrity (BLAKE2B + SHA512)", exits[GateAt(q)].disk.content;
    var said := Say(r, [first]);
    SayKeepsQuiet(r, told, [first]);
    if content.None? {
      RefusalAnswers(q, said, exits, told, first, "!!! cannot read downloaded tarball");
    } else if q.expected == map[] {
      RefusalAnswers(q, said, exits, told, first, "!!! refusing to unpack an unverifiable tarball");
    } else if !HashesMatch(q.hashes, content.value, q.expected) {
      RefusalAnswers(q, said, exits, told, first, "!!! HASH MISMATCH");
    } else {
      SayKeepsQuiet(said, told + [first], ["  integrity OK"]);
      GpgAnswers(q, Say(said, ["  integrity OK"]), exits, told + [first] + ["  integrity OK"]);
      Assoc(told + [first], ["  integrity OK"], SignatureLines(q, exits));
      Assoc(told, [first], ["  integrity OK"] + SignatureLines(q, exits));
    }
  }

  lemma DownloadAnswers(q: Request, r: Runner, e: Exit, told: seq<Line>)
    requires Quiet(r, told) && r.started == Commands(q, [])
    ensures Answered(q, AfterDownload(q, r, e.code, e.disk), [e], told + SaidAfter(q, [e]))
  {
    if !Arrived([e]) {
      FinishEnds(r, told, "!!! download failed", if e.code != 0 then e.code else 1);
    } else if HttpUrl(q.signatureUrl) {
      LaunchRuns(r, told, "Downloading signature (.asc)", DownloadSignature(q.signatureUrl), FetchingSignature);
    } else {
      VerifyAnswers(q, r.(signatureDownloaded := false), [e], told);
    }
  }

  /** Later exits change nothing about the gate. */
  lemma GateIsSettled(q: Request, exits: seq<Exit>, e: Exit)
    requires |exits| > GateAt(q)
    ensures Arrived(exits + [e]) <==> Arrived(exits)
    ensures GatePassed(q, exits + [e]) <==> GatePassed(q, exits)
    ensures FetchesSignature(q, exits + [e]) <==> FetchesSignature(q, exits)
    ensures SignatureCame(q, exits + [e]) <==> SignatureCame(q, exits)
    ensures ChecksSignature(q, exits + [e]) <==> ChecksSignature(q, exits)
  {
    var more := exits + [e];
    assert more[0] == exits[0] && more[GateAt(q)] == exits[GateAt(q)];
    assert |exits| >= 2 ==> more[1] == exits[1];
  }

  lemma GpgExitAnswers(q: Request, r: Runner, exits: seq<Exit>, e: Exit, told: seq<Line>)
    requires Quiet(r, told) && r.phase == CheckingSignature && PhaseInv(q, r, exits)
    ensures Answered(q, AfterGpg(q, r, e.code), exits + [e], told + SaidAfter(q, exits + [e]))
  {
    GateIsSettled(q, exits, e);
    var line := if e.code == 0 then "  GPG signature VERIFIED" else "  GPG unverified";
    var unpacking := "Unpacking into " + q.root;
    SayKeepsQuiet(r, told, [line]);
    LaunchRuns(Say(r, [line]), told + [line], unpacking, Untar(q.root), Unpacking);
    Assoc(told, [line], [unpacking]);
  }

  lemma UnpackExitAnswers(q: Request, r: Runner, exits: seq<Exit>, e: Exit, told: seq<Line>)
    requires Quiet(r, told) && r.phase == Unpacking && PhaseInv(q, r, exits)
    ensures Answered(q, AfterUnpack(q, r, e.code), exits + [e], told + SaidAfter(q, exits + [e]))
  {
    GateIsSettled(q, exits, e);
    FinishEnds(r, told, if e.code == 0 then "Stage3 unpacked into " + q.root else "!!! unpack failed", e.code);
  }

  lemma SignatureExitAnswers(q: Request, r: Runner, exits: seq<Exit>, e: Exit, told: seq<Line>)
    requires Quiet(r, told) && r.phase == FetchingSignature && PhaseInv(q, r, exits)
    ensures Answered(q, AfterSignature(q, r, e.code, e.disk), exits + [e], told + SaidAfter(q, exits + [e]))
  {
    var more := exits + [e];
    assert more[0] == exits[0] && more[1] == e;
    VerifyAnswers(q, r.(signatureDownloaded := e.code == 0 && e.disk.signatureThere), more, told);
  }

  lemma ExitAnswers(q: Request, r: Runner, exits: seq<Exit>, e: Exit, told: seq<Line>)
    requires r.phase != Ended && PhaseInv(q, r, exits) && Quiet(r, told)
    ensures Answered(q, AfterExit(q, r, e.code, e.disk), exits + [e], told + SaidAfter(q, exits + [e]))
  {
    match r.phase {
      case Downloading =>
        assert exits + [e] == [e];
        DownloadAnswers(q, r, e, told);
      case FetchingSignature => SignatureExitAnswers(q, r, exits, e, told);
      case CheckingSignature => GpgExitAnswers(q, r, exits, e, told);
      case Unpacking => UnpackExitAnswers(q, r, exits, e, told);
    }
  }

  lemma TranscriptGrows(q: Request, exits: seq<Exit>, outputs: seq<string>, e: Exit, output: string)
    requires |exits| == |outputs|
    ensures Transcript(q, exits + [e], outputs + [output])
         == Transcript(q, exits, outputs) + LinesOf(output) + SaidAfter(q, exits + [e])
  {
    assert Front(exits + [e]) == exits && Front(outputs + [output]) == outputs;
  }

  lemma ExitKeepsInv(q: Request, r: Runner, m: History, code: int, disk: Disk)
    requires RunnerInv(q, r, m) && Possible(r, Exited(code, disk))
    ensures RunnerInv(q, AfterExit(q, r, code, disk), Remember(m, Exited(code, disk)))
  {
    var e := Exit(code, disk);
    ExitAnswers(q, r, m.exits, e, Transcript(q, m.exits, m.outputs) + LinesOf(m.current));
    TranscriptGrows(q, m.exits, m.outputs, e, m.current);
    AnsweredKeepsInv(q, AfterExit(q, r, code, disk), Remember(m, Exited(code, disk)));
  }

  lemma OutputKeepsInv(q: Request, r: Runner, m: History, e: Event)
    requires RunnerInv(q, r, m) && Possible(r, Output(e))
    ensures RunnerInv(q, AfterOutput(r, e), Remember(m, Output(e)))
  {
    var r', told := AfterOutput(r, e), Transcript(q, m.exits, m.outputs);
    CallbackAppends(r.stream, e);
    match e {
      case Chunk(data, id) => ChunkKeepsInv(r.stream, told, m.current, data, id);
      case Fire(id) => TimerKeepsInv(r.stream, told, m.current, id);
    }
    assert r'.stream.signals == r.stream.signals + r'.stream.signals[|r.stream.signals|..];
  }

  lemma EndOfOutputKeepsInv(q: Request, r: Runner, m: History)
    requires RunnerInv(q, r, m) && Possible(r, EndOfOutput)
    ensures RunnerInv(q, AfterEndOfOutput(r), Remember(m, EndOfOutput))
  {
    EofDelivers(r.stream, Transcript(q, m.exits, m.outputs), m.current);
    BatchesOnly(if r.stream.partial == "" then r.stream.buf else r.stream.buf + [r.stream.partial]);
  }

  lemma {:induction false} InstallKeepsInv(q: Request, r: Runner, m: History, hs: seq<Happening>)
    requires RunnerInv(q, r, m) && Feasible(q, r, hs)
    ensures RunnerInv(q, Install(q, r, hs), RememberAll(m, hs))
    decreases hs
  {
    if hs != [] {
      match hs[0] {
        case Output(e) => OutputKeepsInv(q, r, m, e);
        case EndOfOutput => EndOfOutputKeepsInv(q, r, m);
        case Exited(code, disk) => ExitKeepsInv(q, r, m, code, disk);
      }
      InstallKeepsInv(q, Next(q, r, hs[0]), Remember(m, hs[0]), hs[1..]);
    }
  }

  lemma StartInv(q: Request)
    ensures RunnerInv(q, Start(q), NO_HISTORY)
  {
    var idle := Runner(Ended, false, false, Fresh([]), []);
    SayKeepsQuiet(idle, [], Opening(q));
    assert [] + Opening(q) == Opening(q);
    AnsweredKeepsInv(q, Start(q), NO_HISTORY);
  }

  lemma EveryInstall(q: Request, hs: seq<Happening>)
    requires Feasible(q, Start(q), hs)
    ensures RunnerInv(q, Install(q, Start(q), hs), RememberAll(NO_HISTORY, hs))
  {
    StartInv(q);
    InstallKeepsInv(q, Start(q), NO_HISTORY, hs);
  }

  // --- Main results ---

  /** At every moment of every run the commands started are exactly the ones the exits so far
      call for, in order and with these arguments: the download of the requested file; then,
      if it arrived and the signature address is an http one, the download of that; then, if
      the hashes match, a signature came and gpg is there, the signature check; then, if the
      hashes match, tar into the requested root, and nothing else. */
  lemma CommandsAreCalledFor(q: Request, hs: seq<Happening>)
    requires Feasible(q, Start(q), hs)
    ensures var r, exits := Install(q, Start(q), hs), RememberAll(NO_HISTORY, hs).exits;
            && r.started == [Download(q.url)]
                 + (if FetchesSignature(q, exits) then [DownloadSignature(q.signatureUrl)] else [])
                 + (if ChecksSignature(q, exits) then [CheckSignature] else [])
                 + (if Unpacks(q, exits) then [Untar(q.root)] else [])
            && |r.started| == |exits| + if r.phase == Ended then 0 else 1
  {
    EveryInstall(q, hs);
  }

  lemma UntarIn(q: Request, exits: seq<Exit>)
    ensures Untar(q.root) in Commands(q, exits) <==> Unpacks(q, exits)
    ensures forall c :: c in Commands(q, exits) && c.Untar? ==> c == Untar(q.root) && Unpacks(q, exits)
  {
  }

  /** tar is started, and into the requested root, only for a download that arrived, could be
      read, and matches a non-empty set of digests; the signature plays no part. */
  lemma TarOnlyAfterTheGate(q: Request, hs: seq<Happening>, i: nat)
    requires Feasible(q, Start(q), hs)
    requires i < |Install(q, Start(q), hs).started| && Install(q, Start(q), hs).started[i].Untar?
    ensures Install(q, Start(q), hs).started[i] == Untar(q.root)
    ensures GatePassed(q, RememberAll(NO_HISTORY, hs).exits) && q.expected != map[]
  {
    EveryInstall(q, hs);
    UntarIn(q, RememberAll(NO_HISTORY, hs).exits);
    assert Install(q, Start(q), hs).started[i] in Install(q, Start(q), hs).started;
  }

  /** When the exits called for have all happened. */
  lemma EndedCommands(q: Request, exits: seq<Exit>)
    requires |exits| == |Commands(q, exits)|
    ensures Untar(q.root) in Commands(q, exits) <==> GatePassed(q, exits)
    ensures ResultCode(q, exits) == 0 <==>
              GatePassed(q, exits) && |exits| == UnpackAt(q, exits) + 1 && Last(exits).code == 0
  {
    UntarIn(q, exits);
  }

  /** An ended run sent exactly one `Finished`, last, with the code fixed by the download,
      the hash check and the unpack; it is 0 exactly when all three succeeded; before it
      every said line and every line of every command's output arrived, in order. */
  lemma EndedRun(q: Request, hs: seq<Happening>)
    requires Feasible(q, Start(q), hs)
    ensures var r, m := Install(q, Start(q), hs), RememberAll(NO_HISTORY, hs);
            var signals := r.stream.signals;
            && |m.exits| == |m.outputs|
            && if r.phase != Ended then AllProgress(signals)
            else
              && signals != [] && AllProgress(Front(signals))
              && LinesSent(Front(signals)) == Transcript(q, m.exits, m.outputs)
              && Last(signals) == Finished(ResultCode(q, m.exits))
              && (ResultCode(q, m.exits) == 0 <==>
                    GatePassed(q, m.exits) && |m.exits| == UnpackAt(q, m.exits) + 1 && Last(m.exits).code == 0)
              && (Untar(q.root) in r.started <==> GatePassed(q, m.exits))
              && (forall h :: !Possible(r, h))
  {
    EveryInstall(q, hs);
    if Install(q, Start(q), hs).phase == Ended {
      EndedCommands(q, RememberAll(NO_HISTORY, hs).exits);
    }
  }

  /** Everything said in a run, without the commands' own output. */
  function Said(q: Request, exits: seq<Exit>): seq<Line> {
    if exits == [] then Opening(q) else Said(q, Front(exits)) + SaidAfter(q, exits)
  }

  const VERIFIED := "  GPG signature VERIFIED"

  lemma OtherLines(q: Request)
    ensures "Downloading " + q.filename != VERIFIED && "  from " + q.url != VERIFIED
    ensures "Unpacking into " + q.root != VERIFIED && "Stage3 unpacked into " + q.root != VERIFIED
  {
    assert ("Downloading " + q.filename)[0] == 'D' && ("  from " + q.url)[2] == 'f';
    assert ("Unpacking into " + q.root)[0] == 'U' && ("Stage3 unpacked into " + q.root)[0] == 'S';
    assert VERIFIED[0] == ' ' && VERIFIED[2] == 'G';
  }

  lemma VerifiedAfter(q: Request, exits: seq<Exit>)
    requires exits != []
    ensures VERIFIED in SaidAfter(q, exits) <==>
              ChecksSignature(q, exits) && |exits| == UnpackAt(q, exits) && Last(exits).code == 0
  {
    OtherLines(q);
    if Arrived(exits) && |exits| == GateAt(q) + 1 {
      GateLinesDoNotVerify(q, exits);
    }
  }

  lemma GateLinesDoNotVerify(q: Request, exits: seq<Exit>)
    requires |exits| > GateAt(q)
    ensures VERIFIED !in GateLines(q, exits)
  {
    OtherLines(q);
  }

  /** The signature is said to be verified exactly when gpg was run on it and exited 0. */
  lemma {:induction false} VerifiedIff(q: Request, exits: seq<Exit>)
    ensures VERIFIED in Said(q, exits) <==>
              exists n :: 1 <= n <= |exits| && ChecksSignature(q, exits[..n]) && n == UnpackAt(q, exits[..n]) &&
                  exits[n - 1].code == 0
  {
    OtherLines(q);
    if exits != [] {
      VerifiedIff(q, Front(exits));
      VerifiedAfter(q, exits);
      assert exits[..|exits|] == exits;
      assert forall n :: 1 <= n < |exits| ==> Front(exits)[..n] == exits[..n];
    }
  }

  /** What the result may depend on. */
  datatype Facts = Facts(download: Option<Exit>, content: Option<Option<string>>, unpack: Option<int>)

  function FactsOf(q: Request, exits: seq<Exit>): Facts {
    Facts(if exits != [] then Some(Exit(exits[0].code, Disk(exits[0].disk.tarballThere, false, None))) else None,
          if Arrived(exits) && |exits| > GateAt(q) then Some(exits[GateAt(q)].disk.content) else None,
          if |exits| > UnpackAt(q, exits) then Some(exits[UnpackAt(q, exits)].code) else None)
  }

  predicate Passed(q: Request, f: Facts) {
    f.content.Some? && f.content.value.Some? && HashesMatch(q.hashes, f.content.value.value, q.expected)
  }

  /** The result from those facts alone. */
  function ResultOf(q: Request, f: Facts): int {
    if f.download.None? then 1
    else if f.download.value.code != 0 then f.download.value.code
    else if !f.download.value.disk.tarballThere || !Passed(q, f) || f.unpack.None? then 1
    else f.unpack.value
  }

  lemma ResultOfFacts(q: Request, exits: seq<Exit>)
    ensures GatePassed(q, exits) <==> Passed(q, FactsOf(q, exits))
    ensures ResultCode(q, exits) == ResultOf(q, FactsOf(q, exits))
  {
  }

  /** `r` is an ended run for `q` that found out `f`. */
  predicate Ends(q: Request, hs: seq<Happening>, r: Runner, f: Facts) {
    && Feasible(q, Start(q), hs) && r == Install(q, Start(q), hs) && r.phase == Ended
    && f == FactsOf(q, RememberAll(NO_HISTORY, hs).exits)
  }

  lemma EndedByFacts(q: Request, hs: seq<Happening>, r: Runner, f: Facts)
    requires Ends(q, hs, r, f)
    ensures r.stream.signals != [] && Last(r.stream.signals) == Finished(ResultOf(q, f))
    ensures Untar(q.root) in r.started <==> Passed(q, f)
  {
    EndedRun(q, hs);
    ResultOfFacts(q, RememberAll(NO_HISTORY, hs).exits);
  }

  lemma SameResult(q1: Request, q2: Request, f: Facts)
    requires q1.expected == q2.expected && q1.hashes == q2.hashes
    ensures Passed(q1, f) == Passed(q2, f) && ResultOf(q1, f) == ResultOf(q2, f)
  {
  }

  /** Two ended runs that agree on the download, the file's content and the unpack's exit
      agree on the result and on whether tar ran, whatever happened to the signature:
      other signature addresses, a missing gpg, a failed or a refused signature. */
  lemma SignatureIsAdvisory(q1: Request, q2: Request, hs1: seq<Happening>, hs2: seq<Happening>,
                            r1: Runner, r2: Runner, f: Facts)
    requires q2 == q1.(signatureUrl := q2.signatureUrl, gpgInstalled := q2.gpgInstalled)
    requires Ends(q1, hs1, r1, f) && Ends(q2, hs2, r2, f)
    ensures r1.stream.signals != [] && r2.stream.signals != []
    ensures Last(r1.stream.signals) == Last(r2.stream.signals)
    ensures Untar(q1.root) in r1.started <==> Untar(q1.root) in r2.started
  {
    EndedByFacts(q1, hs1, r1, f);
    EndedByFacts(q2, hs2, r2, f);
    SameResult(q1, q2, f);
  }

  // --- The call that starts a run ---

  datatype Answer = Denied | Invalid | Running(runner: Runner)

  /** Authorization first, then the confinement of the root, then the address. */
  function OnCall(authorized: bool, q: Request): Answer {
    if !authorized then Denied
    else if !MountPlans.ValidTargetRoot(q.root) || !HttpUrl(q.url) then Invalid
    else Answer.Running(Start(q))
  }

  /** Whatever is asked for and however it goes: a tar that is ever started is started for an
      authorized caller, into a root below one of the prefixes for targets, never into `/`. */
  lemma TarStaysConfined(authorized: bool, q: Request, hs: seq<Happening>, root: string)
    requires OnCall(authorized, q).Running? && Feasible(q, OnCall(authorized, q).runner, hs)
    requires Untar(root) in Install(q, OnCall(authorized, q).runner, hs).started
    ensures authorized && root == q.root && root != "/" && MountPlans.UnderAllowedPrefix(root)
  {
    var started := Install(q, Start(q), hs).started;
    var i :| 0 <= i < |started| && started[i] == Untar(root);
    TarOnlyAfterTheGate(q, hs, i);
  }

  // --- The runner object ---

  /** One install: every command gets fresh stream cells on the same bus. */
  class Stage3Runner {
    const request: Request
    var phase: Phase
    var reading: bool
    var signatureDownloaded: bool
    var cells: LineStreamer
    ghost var started: seq<Command>

    ghost function State(): Runner
      reads this, cells
    {
      Runner(phase, reading, signatureDownloaded, cells.State(), started)
    }

    constructor (q: Request)
      ensures State() == Start(q) && request == q && fresh(cells)
    {
      request := q;
      phase, reading, signatureDownloaded := Ended, false, false;
      cells := new LineStreamer([]);
      started := [];
      new;
      SayLines(["Downloading " + q.filename, "  from " + q.url]);
      RunCommand(Download(q.url), Downloading);
    }

    method SayLines(lines: seq<Line>)
      modifies this, cells
      ensures State() == Say(old(State()), lines) && cells == old(cells)
    {
      cells.signals := cells.signals + [Progress(lines)];
    }

    method RunCommand(c: Command, phase: Phase)
      modifies this
      ensures State() == Launch(old(State()), c, phase) && fresh(cells)
    {
      cells := new LineStreamer(cells.signals);
      this.phase, reading := phase, true;
      started := started + [c];
    }

    method FinishWith(code: int)
      modifies this, cells
      ensures State() == Finish(old(State()), code) && cells == old(cells)
    {
      cells.signals := cells.signals + [Finished(code)];
      phase := Ended;
    }

    method OnOutput(e: Event)
      requires Possible(State(), Output(e)) && TimerMatchesBuffer(cells.State())
      modifies this, cells
      ensures State() == AfterOutput(old(State()), e) && TimerMatchesBuffer(cells.State())
    {
      match e
      case Chunk(data, id) => cells.OnChunk(data, id);
      case Fire(id) => cells.OnTimer(id);
    }

    method OnEof()
      requires Possible(State(), EndOfOutput) && TimerMatchesBuffer(cells.State())
      modifies this, cells
      ensures State() == AfterEndOfOutput(old(State()))
    {
      cells.OnEof();
      reading := false;
    }

    /** A command exited: hand over to the phase it belongs to. */
    method OnExit(code: int, disk: Disk)
      requires Possible(State(), Exited(code, disk))
      modifies this, cells
      ensures State() == AfterExit(request, old(State()), code, disk)
    {
      match phase
      case Downloading => OnDownloadDone(code, disk);
      case FetchingSignature => OnSignatureDone(code, disk);
      case CheckingSignature => OnGpgDone(code);
      case Unpacking => OnUnpackDone(code);
    }

    method OnDownloadDone(code: int, disk: Disk)
      modifies this, cells
      ensures State() == AfterDownload(request, old(State()), code, disk)
    {
      if code != 0 || !disk.tarballThere {
        SayLines(["!!! download failed"]);
        FinishWith(if code != 0 then code else 1);
        return;
      }
      if HttpUrl(request.signatureUrl) {
        SayLines(["Downloading signature (.asc)"]);
        RunCommand(DownloadSignature(request.signatureUrl), FetchingSignature);
      } else {
        OnSignatureDone(1, disk);
      }
    }

    method OnSignatureDone(code: int, disk: Disk)
      modifies this, cells
      ensures State() == AfterSignature(request, old(State()), code, disk)
    {
      signatureDownloaded := code == 0 && disk.signatureThere;
      CheckHashes(disk);
    }

    method CheckHashes(disk: Disk)
      modifies this, cells
      ensures State() == VerifyHashes(request, old(State()), disk)
    {
      SayLines(["Verifying integrity (BLAKE2B + SHA512)"]);
      if disk.content.None? {
        SayLines(["!!! cannot read downloaded tarball"]);
        FinishWith(1);
      } else if request.expected == map[] {
        SayLines(["!!! refusing to unpack an unverifiable tarball"]);
        FinishWith(1);
      } else if !HashesMatch(request.hashes, disk.content.value, request.expected) {
        SayLines(["!!! HASH MISMATCH"]);
        FinishWith(1);
      } else {
        SayLines(["  integrity OK"]);
        CheckSignatureIfAny();
      }
    }

    method CheckSignatureIfAny()
      modifies this, cells
      ensures State() == GpgVerify(request, old(State()))
    {
      if !signatureDownloaded {
        SayLines(["GPG: no signature available"]);
        StartUnpack();
      } else if !request.gpgInstalled {
        SayLines(["GPG: gpg not installed"]);
        StartUnpack();
      } else {
        SayLines(["Verifying GPG signature (best-effort)"]);
        RunCommand(CheckSignature, CheckingSignature);
      }
    }

    method OnGpgDone(code: int)
      modifies this, cells
      ensures State() == AfterGpg(request, old(State()), code)
    {
      SayLines([if code == 0 then "  GPG signature VERIFIED" else "  GPG unverified"]);
      StartUnpack();
    }

    method StartUnpack()
      modifies this, cells
      ensures State() == Unpack(request, old(State()))
    {
      SayLines(["Unpacking into " + request.root]);
      RunCommand(Untar(request.root), Unpacking);
    }

    method OnUnpackDone(code: int)
      modifies this, cells
      ensures State() == AfterUnpack(request, old(State()), code)
    {
      SayLines([if code == 0 then "Stage3 unpacked into " + request.root else "!!! unpack failed"]);
      FinishWith(code);
    }
  }
}
