/** One trace file per connection and metric, all in one directory (scratch/ntn-iab-quic-dash.cc, 198-225 and
    321-348; scratch/ntn-iab-tcp-dash.cc, 263-294). */
module TraceStreams {
  import opened Wrappers
  import opened TracePaths

  datatype Metric = RxData | CwndChange | Rtt

  function MetricName(metric: Metric): string {
    match metric
    case RxData => "rx-data"
    case CwndChange => "cwnd-change"
    case Rtt => "rtt"
  }

  datatype Config = Config(protocol: Protocol, serverNode: nat)

  /** An entry of one of the stream maps; every metric has a map of its own. */
  datatype Entry = Entry(metric: Metric, key: nat)

  /** `streams` is the stream maps together: it gives the file behind each entry. `files` is the directory: it
      gives the lines in each file. */
  datatype Files = Files(streams: map<Entry, string>, files: map<string, seq<string>>)

  /** Who traces: a metric of a connection. */
  datatype Source = Source(metric: Metric, node: nat, conn: nat)

  predicate InU32(s: Source) {
    s.node < U32 && s.conn < U32
  }

  /** ((uint64_t)nodeId << 32) | connId, for a connId below 2^32. */
  function Key(node: nat, conn: nat): nat {
    node * U32 + conn
  }

  function EntryOf(s: Source): Entry {
    Entry(s.metric, Key(s.node, s.conn))
  }

  function Prefix(cfg: Config, node: nat): string {
    (if node == cfg.serverNode then "./server" else "./client") + (if cfg.protocol.Quic? then "QUIC-" else "TCP-")
  }

  function Numbers(node: nat, conn: nat): string {
    Decimal(node) + ("-conn" + (Decimal(conn) + ".txt"))
  }

  function FileName(cfg: Config, s: Source): string {
    Prefix(cfg, s.node) + (MetricName(s.metric) + Numbers(s.node, s.conn))
  }

  /** Creating a file empties it. */
  function GetOrCreate(cfg: Config, st: Files, s: Source): Files {
    if EntryOf(s) in st.streams then st
    else Files(st.streams[EntryOf(s) := FileName(cfg, s)], st.files[FileName(cfg, s) := []])
  }

  function Write(st: Files, name: string, line: string): Files {
    if name in st.files then st.(files := st.files[name := st.files[name] + [line]]) else st
  }

  function Trace(cfg: Config, st: Files, s: Source, line: string): Files {
    var opening := GetOrCreate(cfg, st, s);
    Write(opening, opening.streams[EntryOf(s)], line)
  }

  /** One trace callback of a metric; None where reading the context throws. */
  function OnTrace(cfg: Config, st: Files, metric: Metric, context: string, line: string): Option<Files> {
    match ParseIds(context)
    case None => None
    case Some(ids) => Some(Trace(cfg, st, Source(metric, ids.node, ids.conn), line))
  }

  class TraceLog {
    const cfg: Config
    var streams: map<Entry, string>
    var files: map<string, seq<string>>

    function State(): Files
      reads this
    {
      Files(streams, files)
    }

    constructor (cfg: Config)
      ensures this.cfg == cfg && State() == Files(map[], map[])
    {
      this.cfg := cfg;
      streams, files := map[], map[];
    }

    method GetOrCreateTraceStream(s: Source) returns (stream: string)
      modifies this
      ensures State() == GetOrCreate(cfg, old(State()), s)
      ensures EntryOf(s) in streams && stream == streams[EntryOf(s)]
    {
      var entry := EntryOf(s);
      if entry in streams {
        return streams[entry];
      }
      stream := FileName(cfg, s);
      files := files[stream := []];
      streams := streams[entry := stream];
    }

    method TraceWithContext(metric: Metric, context: string, line: string) returns (ok: bool)
      modifies this
      ensures ok == OnTrace(cfg, old(State()), metric, context, line).Some?
      ensures State() == if ok then OnTrace(cfg, old(State()), metric, context, line).value else old(State())
    {
      var parsed := ParseIds(context);
      if parsed.None? {
        return false;
      }
      var stream := GetOrCreateTraceStream(Source(metric, parsed.value.node, parsed.value.conn));
      if stream in files {
        files := files[stream := files[stream] + [line]];
      }
      return true;
    }
  }

  // ---------- Names and keys ----------

  lemma KeyInjective(node: nat, conn: nat, node': nat, conn': nat)
    requires conn < U32 && conn' < U32
    ensures Key(node, conn) == Key(node', conn') <==> node == node' && conn == conn'
  {
  }

  lemma LeadingNumber(a: string, b: string, rest: string, rest': string)
    requires AllDigits(a) && AllDigits(b) && |rest| > 0 && |rest'| > 0 && !IsDigit(rest[0]) && !IsDigit(rest'[0])
    requires a + rest == b + rest'
    ensures a == b && rest == rest'
  {
    assert (a + rest)[..|a|] == a && (b + rest')[..|b|] == b;
    RunIsGroup(a + rest, a);
    RunIsGroup(b + rest', b);
    assert (a + rest)[|a|..] == rest && (b + rest')[|b|..] == rest';
  }

  lemma DropFront(front: string, a: string, b: string)
    requires front + a == front + b
    ensures a == b
  {
    assert (front + a)[|front|..] == a && (front + b)[|front|..] == b;
  }

  lemma NumbersInjective(node: nat, conn: nat, node': nat, conn': nat)
    requires Numbers(node, conn) == Numbers(node', conn')
    ensures node == node' && conn == conn'
  {
    var tail, tail' := Decimal(conn) + ".txt", Decimal(conn') + ".txt";
    LeadingNumber(Decimal(node), Decimal(node'), "-conn" + tail, "-conn" + tail');
    DropFront("-conn", tail, tail');
    LeadingNumber(Decimal(conn), Decimal(conn'), ".txt", ".txt");
    DecimalInjective(node, node');
    DecimalInjective(conn, conn');
  }

  lemma MetricNamesDiffer(a: Metric, b: Metric, rest: string, rest': string)
    requires MetricName(a) + rest == MetricName(b) + rest'
    ensures a == b && rest == rest'
  {
    var s, t := MetricName(a) + rest, MetricName(b) + rest';
    assert s[0] == MetricName(a)[0] && s[1] == MetricName(a)[1];
    assert t[0] == MetricName(b)[0] && t[1] == MetricName(b)[1];
    DropFront(MetricName(a), rest, rest');
  }

  lemma PrefixesDiffer(cfg: Config, node: nat, node': nat, rest: string, rest': string)
    requires Prefix(cfg, node) + rest == Prefix(cfg, node') + rest'
    ensures rest == rest'
  {
    assert (Prefix(cfg, node) + rest)[2] == if node == cfg.serverNode then 's' else 'c';
    assert (Prefix(cfg, node') + rest')[2] == if node' == cfg.serverNode then 's' else 'c';
    assert Prefix(cfg, node) == Prefix(cfg, node');
    DropFront(Prefix(cfg, node), rest, rest');
  }

  /** Different metrics and connections have different files, server or client. */
  lemma FileNameInjective(cfg: Config, s: Source, s': Source)
    ensures FileName(cfg, s) == FileName(cfg, s') <==> s == s'
  {
    if FileName(cfg, s) == FileName(cfg, s') {
      var rest, rest' := Numbers(s.node, s.conn), Numbers(s'.node, s'.conn);
      PrefixesDiffer(cfg, s.node, s'.node, MetricName(s.metric) + rest, MetricName(s'.metric) + rest');
      MetricNamesDiffer(s.metric, s'.metric, rest, rest');
      NumbersInjective(s.node, s.conn, s'.node, s'.conn);
    }
  }

  // ---------- Every file holds the lines of its own connection and metric ----------

  /** A source fires; `path` is what its path says behind node and connection. */
  datatype Event = Event(source: Source, path: string, line: string)

  function LinesOf(events: seq<Event>, s: Source): seq<string> {
    if |events| == 0 then []
    else
      var e := events[|events| - 1];
      LinesOf(events[..|events| - 1], s) + if e.source == s then [e.line] else []
  }

  /** The state after a run of callbacks; None where one of them throws. */
  function Run(step: (Files, Event) -> Option<Files>, events: seq<Event>): Option<Files> {
    if |events| == 0 then Some(Files(map[], map[]))
    else
      match Run(step, events[..|events| - 1])
      case None => None
      case Some(st) => step(st, events[|events| - 1])
  }

  /** The source of e calls back with its own path. */
  function OnEvent(cfg: Config, st: Files, e: Event): Option<Files> {
    OnTrace(cfg, st, e.source.metric, Path(cfg.protocol, e.source.node, e.source.conn, e.path), e.line)
  }

  /** The file of a source exists when it traced something, and then holds exactly its lines in order. */
  ghost predicate Holds(cfg: Config, st: Files, events: seq<Event>, s: Source) {
    var name, lines := FileName(cfg, s), LinesOf(events, s);
    && (name in st.files <==> |lines| > 0)
    && (EntryOf(s) in st.streams <==> |lines| > 0)
    && (|lines| > 0 ==> st.files[name] == lines && st.streams[EntryOf(s)] == name)
  }

  lemma OnePrinted(cfg: Config, st: Files, e: Event)
    requires InU32(e.source)
    ensures OnEvent(cfg, st, e) == Some(Trace(cfg, st, e.source, e.line))
  {
    ParsePrinted(cfg.protocol, e.source.node, e.source.conn, e.path);
  }

  lemma OneMoreHolds(cfg: Config, st: Files, events: seq<Event>, e: Event, s: Source)
    requires InU32(s) && InU32(e.source)
    requires Holds(cfg, st, events, s) && Holds(cfg, st, events, e.source)
    ensures Holds(cfg, Trace(cfg, st, e.source, e.line), events + [e], s)
  {
    KeyInjective(s.node, s.conn, e.source.node, e.source.conn);
    FileNameInjective(cfg, s, e.source);
    assert (events + [e])[..|events|] == events;
  }

  ghost predicate AllHold(cfg: Config, st: Option<Files>, events: seq<Event>) {
    st.Some? && forall s :: InU32(s) ==> Holds(cfg, st.value, events, s)
  }

  lemma OneMoreAllHold(cfg: Config, st: Files, events: seq<Event>, e: Event)
    requires InU32(e.source) && AllHold(cfg, Some(st), events)
    ensures AllHold(cfg, OnEvent(cfg, st, e), events + [e])
  {
    OnePrinted(cfg, st, e);
    forall s | InU32(s) ensures Holds(cfg, Trace(cfg, st, e.source, e.line), events + [e], s) {
      OneMoreHolds(cfg, st, events, e, s);
    }
  }

  lemma {:induction false} RunHolds(cfg: Config, step: (Files, Event) -> Option<Files>, events: seq<Event>)
    requires forall st, before, e: Event :: InU32(e.source) && AllHold(cfg, Some(st), before) ==>
               AllHold(cfg, step(st, e), before + [e])
    requires forall i :: 0 <= i < |events| ==> InU32(events[i].source)
    ensures AllHold(cfg, Run(step, events), events)
  {
    if |events| == 0 {
    } else {
      var before, e := events[..|events| - 1], events[|events| - 1];
      RunHolds(cfg, step, before);
      assert before + [e] == events;
    }
  }

  /** After any run of callbacks, on any mix of metrics and connections: no two of them share a file. */
  lemma FilesHoldOwnLines(cfg: Config, events: seq<Event>)
    requires forall i :: 0 <= i < |events| ==> InU32(events[i].source)
    ensures AllHold(cfg, Run((st, e) => OnEvent(cfg, st, e), events), events)
  {
    forall st, before, e: Event | InU32(e.source) && AllHold(cfg, Some(st), before)
      ensures AllHold(cfg, OnEvent(cfg, st, e), before + [e])
    {
      OneMoreAllHold(cfg, st, before, e);
    }
    RunHolds(cfg, (st, e) => OnEvent(cfg, st, e), events);
  }

  /** What the file names look like, piece by piece. */
  lemma FileNameExamples()
    ensures FileName(Config(Quic, 2), Source(CwndChange, 2, 0)) ==
            "./server" + "QUIC-" + ("cwnd-change" + ("2" + ("-conn" + ("0" + ".txt"))))
    ensures FileName(Config(Quic, 2), Source(RxData, 7, 0)) ==
            "./client" + "QUIC-" + ("rx-data" + ("7" + ("-conn" + ("0" + ".txt"))))
    ensures FileName(Config(Tcp, 2), Source(Rtt, 7, 0)) ==
            "./client" + "TCP-" + ("rtt" + ("7" + ("-conn" + ("0" + ".txt"))))
  {
    assert Decimal(2) == "2" && Decimal(7) == "7" && Decimal(0) == "0";
  }
}
