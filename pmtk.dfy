/**
 * The PMTK vocabulary the L86 driver speaks: sentence bodies, the
 * argument codes its enum switches produce, the constellation bitmask
 * encoders, and the decoder of the PMTK355 search-mode reply.
 */
module Pmtk {
  import opened Fields

  datatype Option<T> = None | Some(value: T)

  type Uint16 = x: nat | x < 0x1_0000
  type Uint32 = x: nat | x < 0x1_0000_0000

  /** gnss_systems_t: one bit per constellation, as in Zephyr's gnss.h. */
  type Systems = bv32

  const GPS: Systems := 0x01
  const GLONASS: Systems := 0x02
  const GALILEO: Systems := 0x04
  const BEIDOU: Systems := 0x08
  const QZSS: Systems := 0x10
  const SBAS: Systems := 0x40

  /** The systems `set_enabled_systems` accepts. */
  const SettableSystems: Systems := GPS | GLONASS | GALILEO | BEIDOU
  /** The systems the PMTK355 reply can report. */
  const ReportableSystems: Systems := GPS | GLONASS | GALILEO | BEIDOU | QZSS
  /** The fixed answer of `get_supported_systems`. */
  const SupportedSystems: Systems := GPS | GLONASS | GALILEO | BEIDOU | QZSS | SBAS

  /** Status field of a PMTK001 acknowledgement meaning "valid command, action succeeded". */
  const AckSuccess := "3"

  /** Size of each of the two scratch buffers, `pmtk_request_buf` and `pmtk_match_buf`. */
  const ScratchSize := 32

  /** A PMTK sentence body: `PMTK<id>` followed by its comma-separated arguments. */
  datatype Sentence = Sentence(id: string, args: seq<string>)

  function Text(p: Sentence): (body: string)
  {
    Join(["PMTK" + p.id] + p.args)
  }

  /** Reads a sentence body back into its id and arguments. */
  function Parse(s: string): (parsed: Option<Sentence>)
  {
    var f := Split(s);
    if |f[0]| >= 4 && f[0][..4] == "PMTK" then Some(Sentence(f[0][4..], f[1..])) else None
  }

  predicate WellFormed(p: Sentence)
  {
    NoComma(p.id) && forall i :: 0 <= i < |p.args| ==> NoComma(p.args[i])
  }

  /** The acknowledgement `PMTK001,<id>,<status>[,<echoed args>]`. */
  function Ack(id: string, status: string, echoed: seq<string>): (ack: Sentence)
  {
    Sentence("001", [id, status] + echoed)
  }

  lemma ParseText(p: Sentence)
    requires WellFormed(p)
    ensures Parse(Text(p)) == Some(p)
  {
    var fields := ["PMTK" + p.id] + p.args;
    forall i | 0 <= i < |fields| ensures NoComma(fields[i]) {
      if i > 0 {
        assert fields[i] == p.args[i - 1];
      }
    }
    SplitJoin(fields);
    assert ("PMTK" + p.id)[..4] == "PMTK";
    assert ("PMTK" + p.id)[4..] == p.id;
  }

  /** Two well-formed sentences with the same text are the same sentence. */
  lemma TextInjective(p: Sentence, q: Sentence)
    requires WellFormed(p) && WellFormed(q)
    requires Text(p) == Text(q)
    ensures p == q
  {
    ParseText(p);
    ParseText(q);
  }

  // ---------------------------------------------------------------- fix rate

  predicate ValidFixInterval(ms: nat) { 200 <= ms <= 1000 }

  function FixRateRequest(ms: nat): (body: string) { Text(Sentence("220", [Decimal(ms)])) }

  function FixRateAck(ms: nat): (body: string) { Text(Ack("220", AckSuccess, [Decimal(ms)])) }

  /** The expected acknowledgement names command 220, reports success and echoes exactly `ms`. */
  lemma FixRateAckEchoes(ms: nat)
    ensures Parse(FixRateAck(ms)) == Some(Ack("220", AckSuccess, [Decimal(ms)]))
    ensures ParseDecimal(Parse(FixRateAck(ms)).value.args[2]) == ms
  {
    ParseText(Ack("220", AckSuccess, [Decimal(ms)]));
    ParseDecimalOfDecimal(ms);
  }

  /** No two intervals share an expected acknowledgement. */
  lemma FixRateAckInjective(a: nat, b: nat)
    requires FixRateAck(a) == FixRateAck(b)
    ensures a == b
  {
    FixRateAckEchoes(a);
    FixRateAckEchoes(b);
  }

  // --------------------------------------------------------- navigation mode

  datatype NavigationMode = ZeroDynamics | LowDynamics | BalancedDynamics | HighDynamics

  /** PMTK886 argument for each Zephyr navigation mode (stationary, fitness, normal, aviation). */
  function NavModeCode(m: NavigationMode): (code: nat)
    ensures code in {0, 1, 2, 4}
    ensures NavModeOfCode(code) == Some(m)
  {
    match m
    case ZeroDynamics => 4
    case LowDynamics => 1
    case BalancedDynamics => 0
    case HighDynamics => 2
  }

  function NavModeOfCode(code: nat): (mode: Option<NavigationMode>)
  {
    if code == 4 then Some(ZeroDynamics)
    else if code == 1 then Some(LowDynamics)
    else if code == 0 then Some(BalancedDynamics)
    else if code == 2 then Some(HighDynamics)
    else None
  }

  /** The code map is a bijection between the four modes and {0, 1, 2, 4}; 3 (balloon) is never sent. */
  lemma NavModeCodeBijective(m: NavigationMode, code: nat)
    ensures NavModeOfCode(NavModeCode(m)) == Some(m)
    ensures NavModeOfCode(code).Some? <==> code in {0, 1, 2, 4}
    ensures NavModeOfCode(code) == Some(m) ==> NavModeCode(m) == code
  {
  }

  function NavModeRequest(m: NavigationMode): (body: string)
  {
    Text(Sentence("886", [Decimal(NavModeCode(m))]))
  }

  /** As written, the mode code is placed where the acknowledgement's status belongs. */
  function NavModeAck(m: NavigationMode): (body: string)
  {
    Text(Ack("886", Decimal(NavModeCode(m)), []))
  }

  /** The expected navigation-mode acknowledgement never carries the success status. */
  lemma NavModeAckStatusNotSuccess(m: NavigationMode)
    ensures Parse(NavModeAck(m)) == Some(Ack("886", Decimal(NavModeCode(m)), []))
    ensures Decimal(NavModeCode(m)) != AckSuccess
    ensures NavModeAck(m) != Text(Ack("886", AckSuccess, []))
  {
    var status := Decimal(NavModeCode(m));
    var p, q := Ack("886", status, []), Ack("886", AckSuccess, []);
    assert status[0] != '3';
    assert WellFormed(p) by {
      assert p.args == ["886", status];
    }
    assert WellFormed(q) by {
      assert q.args == ["886", "3"];
    }
    ParseText(p);
    ParseText(q);
  }

  // ---------------------------------------------------------------- PPS mode

  datatype PpsMode = PpsDisabled | PpsEnabled | PpsEnabledAfterLock | PpsEnabledWhileLocked

  function PpsModeCode(m: PpsMode): (code: nat)
    ensures code in {0, 1, 2, 4}
    ensures PpsModeOfCode(code) == Some(m)
  {
    match m
    case PpsDisabled => 0
    case PpsEnabled => 4
    case PpsEnabledAfterLock => 1
    case PpsEnabledWhileLocked => 2
  }

  function PpsModeOfCode(code: nat): (mode: Option<PpsMode>)
  {
    if code == 0 then Some(PpsDisabled)
    else if code == 4 then Some(PpsEnabled)
    else if code == 1 then Some(PpsEnabledAfterLock)
    else if code == 2 then Some(PpsEnabledWhileLocked)
    else None
  }

  lemma PpsModeCodeBijective(m: PpsMode, code: nat)
    ensures PpsModeOfCode(PpsModeCode(m)) == Some(m)
    ensures PpsModeOfCode(code).Some? <==> code in {0, 1, 2, 4}
    ensures PpsModeOfCode(code) == Some(m) ==> PpsModeCode(m) == code
  {
  }

  function PpsRequest(m: PpsMode, width: Uint16): (body: string)
  {
    Text(Sentence("285", [Decimal(PpsModeCode(m)), Decimal(width)]))
  }

  function PpsAck(): (body: string) { Text(Ack("285", AckSuccess, [])) }

  /** The PPS request carries the mode code and the pulse width, both recoverable. */
  lemma PpsRequestRoundTrip(m: PpsMode, width: Uint16)
    ensures Parse(PpsRequest(m, width)).Some?
    ensures var args := Parse(PpsRequest(m, width)).value.args;
      |args| == 2 && AllDigits(args[0]) && AllDigits(args[1]) &&
      PpsModeOfCode(ParseDecimal(args[0])) == Some(m) && ParseDecimal(args[1]) == width
  {
    ParseText(Sentence("285", [Decimal(PpsModeCode(m)), Decimal(width)]));
    ParseDecimalOfDecimal(PpsModeCode(m));
    ParseDecimalOfDecimal(width);
  }

  // ------------------------------------------------------ enabled systems

  /** The validation of `set_enabled_systems`: no bit outside GPS, GLONASS, Galileo and BeiDou. */
  predicate Settable(s: Systems) { (!SettableSystems) & s == 0 }

  /** `0 < (systems & bit)` printed with `%u`. */
  function Flag(s: Systems, bit: Systems): (flag: string)
  {
    Decimal(if s & bit != 0 then 1 else 0)
  }

  lemma FlagText(s: Systems, bit: Systems)
    ensures Flag(s, bit) == if s & bit != 0 then "1" else "0"
  {
  }

  function EnableArgs(s: Systems): (args: seq<string>)
  {
    [Flag(s, GPS), Flag(s, GLONASS), Flag(s, GALILEO), "0", Flag(s, BEIDOU)]
  }

  function EnableSystemsRequest(s: Systems): (body: string) { Text(Sentence("353", EnableArgs(s))) }

  function EnableSystemsAck(s: Systems): (body: string) { Text(Ack("353", AckSuccess, EnableArgs(s))) }

  function SbasRequest(s: Systems): (body: string) { Text(Sentence("313", [Flag(s, SBAS)])) }

  function SbasAck(): (body: string) { Text(Ack("313", AckSuccess, [])) }

  /**
   * The first character of a reply argument is '1'; an empty argument reads
   * as its terminating NUL, which is not.
   */
  function SearchModeEnabled(arg: string): (enabled: bool)
    ensures enabled <==> |arg| > 0 && arg[0] == '1'
    ensures arg == "1" ==> enabled
    ensures arg == "0" || arg == "" ==> !enabled
    ensures enabled ==> arg != [] && IsDigit(arg[0]) && DigitValue(arg[0]) == 1
  {
    |arg| > 0 && arg[0] == '1'
  }

  /** A flag as the module prints it reads back as enabled exactly when its bit is set. */
  lemma SearchModeEnabledOfFlag(s: Systems, bit: Systems)
    ensures SearchModeEnabled(Flag(s, bit)) <==> s & bit != 0
  {
    FlagText(s, bit);
  }

  function SystemsOfEnableArgs(args: seq<string>): (systems: Systems)
    requires |args| == 5
  {
    (if SearchModeEnabled(args[0]) then GPS else 0) |
    (if SearchModeEnabled(args[1]) then GLONASS else 0) |
    (if SearchModeEnabled(args[2]) then GALILEO else 0) |
    (if SearchModeEnabled(args[4]) then BEIDOU else 0)
  }

  /** The PMTK353 request carries every accepted system, and nothing else. */
  lemma EnableSystemsRequestRoundTrip(s: Systems)
    requires Settable(s)
    ensures Parse(EnableSystemsRequest(s)) == Some(Sentence("353", EnableArgs(s)))
    ensures SystemsOfEnableArgs(EnableArgs(s)) == s
  {
    ParseText(Sentence("353", EnableArgs(s)));
    FlagText(s, GPS);
    FlagText(s, GLONASS);
    FlagText(s, GALILEO);
    FlagText(s, BEIDOU);
  }

  /** Distinct accepted masks give distinct PMTK353 requests. */
  lemma EnableSystemsRequestInjective(s: Systems, t: Systems)
    requires Settable(s) && Settable(t)
    requires EnableSystemsRequest(s) == EnableSystemsRequest(t)
    ensures s == t
  {
    EnableSystemsRequestRoundTrip(s);
    EnableSystemsRequestRoundTrip(t);
    assert EnableArgs(s) == EnableArgs(t);
  }

  /** The acknowledgement expected for PMTK353 echoes the request's arguments after success. */
  lemma EnableSystemsAckEchoes(s: Systems)
    ensures Parse(EnableSystemsAck(s)) == Some(Ack("353", AckSuccess, Parse(EnableSystemsRequest(s)).value.args))
  {
    ParseText(Sentence("353", EnableArgs(s)));
    ParseText(Ack("353", AckSuccess, EnableArgs(s)));
  }

  /** Since SBAS is rejected up front, the PMTK313 request always switches SBAS off. */
  lemma SbasRequestAlwaysOff(s: Systems)
    requires Settable(s)
    ensures SbasRequest(s) == "PMTK313,0"
  {
    FlagText(s, SBAS);
    JoinCons("PMTK313", ["0"]);
    assert ["PMTK313"] + [Flag(s, SBAS)] == ["PMTK313"] + ["0"];
  }

  const QueryRequest := "PMTK355"
  /** Copied verbatim (with its leading '$') rather than formatted. */
  const QueryMatch := "$PMTK001,355,3"

  // ------------------------------------------------ search-mode reply

  /**
   * The bitmask decoded from an 8-argument PMTK355 reply: argv[1..5] are the
   * GPS, GLONASS, Galileo, BeiDou and QZSS flags.
   */
  function SearchModeSystems(argv: seq<string>): (r: Systems)
    requires |argv| == 8
    ensures r & !ReportableSystems == 0
    ensures r & SBAS == 0
  {
    (if SearchModeEnabled(argv[1]) then GPS else 0) |
    (if SearchModeEnabled(argv[2]) then GLONASS else 0) |
    (if SearchModeEnabled(argv[3]) then GALILEO else 0) |
    (if SearchModeEnabled(argv[4]) then BEIDOU else 0) |
    (if SearchModeEnabled(argv[5]) then QZSS else 0)
  }

  /** Each reported bit is set exactly when its reply flag begins with '1'. */
  lemma SearchModeSystemsBits(argv: seq<string>)
    requires |argv| == 8
    ensures SearchModeSystems(argv) & GPS != 0 <==> SearchModeEnabled(argv[1])
    ensures SearchModeSystems(argv) & GLONASS != 0 <==> SearchModeEnabled(argv[2])
    ensures SearchModeSystems(argv) & GALILEO != 0 <==> SearchModeEnabled(argv[3])
    ensures SearchModeSystems(argv) & BEIDOU != 0 <==> SearchModeEnabled(argv[4])
    ensures SearchModeSystems(argv) & QZSS != 0 <==> SearchModeEnabled(argv[5])
  {
  }

  /** The reply flags a module reporting the systems `s` would send. */
  function ReplyFlags(s: Systems): (flags: seq<string>)
  {
    [Flag(s, GPS), Flag(s, GLONASS), Flag(s, GALILEO), Flag(s, BEIDOU), Flag(s, QZSS)]
  }

  /** Decoding a reply that reports `s` gives back the reportable part of `s`. */
  lemma SearchModeRoundTrip(s: Systems, argv: seq<string>)
    requires |argv| == 8 && argv[1..6] == ReplyFlags(s)
    ensures SearchModeSystems(argv) == s & ReportableSystems
  {
    assert argv[1] == Flag(s, GPS) && argv[2] == Flag(s, GLONASS) && argv[3] == Flag(s, GALILEO);
    assert argv[4] == Flag(s, BEIDOU) && argv[5] == Flag(s, QZSS);
  }

  // ------------------------------------------------ wire text

  /** `PMTK220,<ms>` and `PMTK001,220,3,<ms>`. */
  lemma FixRateText(ms: nat)
    ensures FixRateRequest(ms) == "PMTK220," + Decimal(ms)
    ensures FixRateAck(ms) == "PMTK001,220,3," + Decimal(ms)
  {
    JoinCons("PMTK220", [Decimal(ms)]);
    JoinCons("3", [Decimal(ms)]);
    JoinCons("220", ["3", Decimal(ms)]);
    JoinCons("PMTK001", ["220", "3", Decimal(ms)]);
    assert ["PMTK001"] + (["220", AckSuccess] + [Decimal(ms)]) == ["PMTK001"] + ["220", "3", Decimal(ms)];
  }

  /** `PMTK886,<code>` and, as written, `PMTK001,886,<code>`. */
  lemma NavModeText(m: NavigationMode)
    ensures NavModeRequest(m) == "PMTK886," + Decimal(NavModeCode(m))
    ensures NavModeAck(m) == "PMTK001,886," + Decimal(NavModeCode(m))
  {
    var c := Decimal(NavModeCode(m));
    JoinCons("PMTK886", [c]);
    JoinCons("886", [c]);
    JoinCons("PMTK001", ["886", c]);
    assert ["PMTK001"] + (["886", c] + []) == ["PMTK001"] + ["886", c];
  }

  /** `PMTK285,<mode>,<width>` and `PMTK001,285,3`. */
  lemma PpsText(m: PpsMode, width: Uint16)
    ensures PpsRequest(m, width) == "PMTK285," + Decimal(PpsModeCode(m)) + "," + Decimal(width)
    ensures PpsAck() == "PMTK001,285,3"
  {
    var c, w := Decimal(PpsModeCode(m)), Decimal(width);
    JoinCons(c, [w]);
    JoinCons("PMTK285", [c, w]);
    JoinCons("285", ["3"]);
    JoinCons("PMTK001", ["285", "3"]);
    assert ["PMTK001"] + (["285", AckSuccess] + []) == ["PMTK001"] + ["285", "3"];
  }

  /** `PMTK353,<gps>,<glonass>,<galileo>,0,<beidou>` and the same fields after `PMTK001,353,3,`. */
  lemma EnableSystemsText(s: Systems)
    ensures EnableSystemsRequest(s) == "PMTK353," + Join(EnableArgs(s))
    ensures EnableSystemsAck(s) == "PMTK001,353,3," + Join(EnableArgs(s))
  {
    var a := EnableArgs(s);
    JoinCons("PMTK353", a);
    JoinConcat(["PMTK001", "353", "3"], a);
    JoinCons("PMTK001", ["353", "3"]);
    JoinCons("353", ["3"]);
    var h := Join(["PMTK001", "353", "3"]);
    assert h == "PMTK001,353,3";
    calc {
      EnableSystemsAck(s);
      Join(["PMTK" + "001"] + (["353", AckSuccess] + a));
      { assert "PMTK" + "001" == "PMTK001";
        assert ["PMTK" + "001"] + (["353", AckSuccess] + a) == ["PMTK001", "353", "3"] + a; }
      Join(["PMTK001", "353", "3"] + a);
      h + "," + Join(a);
    }
  }

  /** The five PMTK353 arguments take nine characters. */
  lemma EnableArgsLength(s: Systems)
    ensures |Join(EnableArgs(s))| == 9
  {
    var a := EnableArgs(s);
    FlagText(s, GPS);
    FlagText(s, GLONASS);
    FlagText(s, GALILEO);
    FlagText(s, BEIDOU);
    JoinConcat(a[..1], a[1..]);
    JoinConcat(a[1..2], a[2..]);
    JoinConcat(a[2..3], a[3..]);
    JoinConcat(a[3..4], a[4..]);
    assert a[..1] + a[1..] == a;
    assert a[1..2] + a[2..] == a[1..];
    assert a[2..3] + a[3..] == a[2..];
    assert a[3..4] + a[4..] == a[3..];
  }

  /** `PMTK001,313,3`. */
  lemma SbasAckText()
    ensures SbasAck() == "PMTK001,313,3"
  {
    JoinCons("313", ["3"]);
    JoinCons("PMTK001", ["313", "3"]);
    assert ["PMTK001"] + (["313", AckSuccess] + []) == ["PMTK001"] + ["313", "3"];
  }

  /** The example of setting a 500 ms fix interval. */
  lemma FixRate500()
    ensures FixRateRequest(500) == "PMTK220,500"
    ensures FixRateAck(500) == "PMTK001,220,3,500"
  {
    FixRateText(500);
    assert Decimal(500) == Decimal(50) + ['0'];
    assert Decimal(50) == Decimal(5) + ['0'];
  }

  // ------------------------------------------------ buffer capacity

  /** The framed sentence `$<body>*HH` and its terminating NUL fit a scratch buffer. */
  predicate FitsScratch(body: string) { |body| + 5 <= ScratchSize }

  /** Every body the driver formats fits its 32-byte scratch buffer. */
  lemma BodiesFitScratch(ms: nat, m: NavigationMode, pm: PpsMode, width: Uint16, s: Systems)
    requires ValidFixInterval(ms)
    ensures FitsScratch(FixRateRequest(ms)) && FitsScratch(FixRateAck(ms))
    ensures FitsScratch(NavModeRequest(m)) && FitsScratch(NavModeAck(m))
    ensures FitsScratch(PpsRequest(pm, width)) && FitsScratch(PpsAck())
    ensures FitsScratch(EnableSystemsRequest(s)) && FitsScratch(EnableSystemsAck(s))
    ensures FitsScratch(SbasRequest(s)) && FitsScratch(SbasAck())
    ensures FitsScratch(QueryRequest) && |QueryMatch| < ScratchSize
  {
    DecimalLength(ms, 4);
    DecimalLength(NavModeCode(m), 1);
    DecimalLength(PpsModeCode(pm), 1);
    DecimalLength(width, 5);
    FixRateText(ms);
    NavModeText(m);
    PpsText(pm, width);
    EnableSystemsText(s);
    EnableArgsLength(s);
    SbasAckText();
    FlagText(s, SBAS);
    JoinCons("PMTK313", [Flag(s, SBAS)]);
  }
}
