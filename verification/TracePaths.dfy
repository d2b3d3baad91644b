/** Trace paths: how the rescan loop prints them and how the callbacks read node and socket back
    (scratch/ntn-iab-quic-dash.cc, 308-319 and 363-369; scratch/ntn-iab-tcp-dash.cc, 188-199 and 313-316). */
module TracePaths {
  import opened Wrappers

  datatype Protocol = Quic | Tcp

  const U32: nat := 0x1_0000_0000
  const U64: nat := 0x1_0000_0000_0000_0000

  // ---------- Decimal numbers ----------

  predicate IsDigit(c: char) {
    '0' <= c <= '9'
  }

  predicate AllDigits(s: string) {
    forall i :: 0 <= i < |s| ==> IsDigit(s[i])
  }

  function Digit(d: nat): (c: char)
    requires d < 10
    ensures IsDigit(c) && c as int == '0' as int + d
  {
    ('0' as int + d) as char
  }

  function Decimal(n: nat): (s: string)
    ensures |s| > 0 && AllDigits(s)
  {
    if n < 10 then [Digit(n)] else Decimal(n / 10) + [Digit(n % 10)]
  }

  /** std::stoul on a string of digits, before the range check. */
  function Value(s: string): nat
    requires AllDigits(s)
  {
    if |s| == 0 then 0 else 10 * Value(s[..|s| - 1]) + (s[|s| - 1] as int - '0' as int)
  }

  lemma {:induction false} ValueOfDecimal(n: nat)
    ensures Value(Decimal(n)) == n
  {
    if n < 10 {
    } else {
      ValueOfDecimal(n / 10);
      assert Decimal(n)[..|Decimal(n)| - 1] == Decimal(n / 10);
    }
  }

  // ---------- Searching ----------

  function DigitRun(s: string): (run: string)
    ensures |run| <= |s| && s[..|run|] == run && AllDigits(run)
    ensures |run| < |s| ==> !IsDigit(s[|run|])
  {
    if |s| > 0 && IsDigit(s[0]) then [s[0]] + DigitRun(s[1..]) else []
  }

  /** The pattern key(\d+)/ at the start of s, with its group. The run is as long as it can be: a slash follows. */
  function MatchHere(s: string, key: string): (m: Option<string>)
    ensures m.Some? ==> AllDigits(m.value)
  {
    if |key| <= |s| && s[..|key|] == key then
      var run := DigitRun(s[|key|..]);
      if |run| > 0 && |key| + |run| < |s| && s[|key| + |run|] == '/' then Some(run) else None
    else None
  }

  /** std::regex_search: the leftmost match. */
  function Search(s: string, key: string): (m: Option<string>)
    ensures m.Some? ==> AllDigits(m.value)
  {
    if MatchHere(s, key).Some? then MatchHere(s, key)
    else if |s| == 0 then None
    else Search(s[1..], key)
  }

  /** The pattern matches s at i with group m. */
  predicate Occurs(s: string, key: string, i: nat, m: string) {
    && |m| > 0 && AllDigits(m)
    && i + |key| + |m| < |s|
    && s[i..i + |key|] == key && s[i + |key|..i + |key| + |m|] == m && s[i + |key| + |m|] == '/'
  }

  lemma RunIsGroup(s: string, m: string)
    requires |m| < |s| && AllDigits(m) && s[..|m|] == m && !IsDigit(s[|m|])
    ensures DigitRun(s) == m
  {
    var run := DigitRun(s);
    assert forall i :: 0 <= i < |m| ==> s[i] == m[i];
    assert forall i :: 0 <= i < |run| ==> s[i] == run[i];
  }

  lemma MatchIsOccurrence(s: string, key: string, i: nat, m: string)
    requires i <= |s|
    ensures MatchHere(s[i..], key) == Some(m) <==> Occurs(s, key, i, m)
  {
    var t := s[i..];
    assert i + |key| <= |s| ==> t[..|key|] == s[i..i + |key|];
    assert i + |key| + |m| <= |s| ==> t[|key|..][..|m|] == s[i + |key|..i + |key| + |m|];
    if Occurs(s, key, i, m) {
      assert t[|key|..][|m|] == '/';
      RunIsGroup(t[|key|..], m);
    }
  }

  /** The search answers with the leftmost occurrence, and fails only where there is none. */
  lemma {:induction false} SearchIsLeftmost(s: string, key: string) returns (at: nat)
    ensures Search(s, key).Some? ==>
      Occurs(s, key, at, Search(s, key).value) && forall i: nat, m :: i < at ==> !Occurs(s, key, i, m)
    ensures Search(s, key).None? ==> forall i: nat, m :: !Occurs(s, key, i, m)
  {
    at := 0;
    assert s[0..] == s;
    forall m ensures MatchHere(s, key) == Some(m) <==> Occurs(s, key, 0, m) {
      MatchIsOccurrence(s, key, 0, m);
    }
    if MatchHere(s, key).Some? || |s| == 0 {
    } else {
      var t := s[1..];
      var rest := SearchIsLeftmost(t, key);
      at := rest + 1;
      forall i: nat, m | i > 0 ensures Occurs(s, key, i, m) <==> Occurs(t, key, i - 1, m) {
        OccursShifted(s, key, i - 1, m);
      }
    }
  }

  lemma OccursShifted(s: string, key: string, i: nat, m: string)
    requires |s| > 0
    ensures Occurs(s[1..], key, i, m) <==> Occurs(s, key, i + 1, m)
  {
    if i + |key| + |m| < |s[1..]| {
      assert s[1..][i..i + |key|] == s[i + 1..i + 1 + |key|];
      assert s[1..][i + |key|..i + |key| + |m|] == s[i + 1 + |key|..i + 1 + |key| + |m|];
    }
  }

  // ---------- Printing and parsing ----------

  const NODE_KEY: string := "/NodeList/"
  const SOCKET_KEY: string := "/SocketList/"

  function Layer(p: Protocol): string {
    match p
    case Quic => "/$ns3::QuicL4Protocol"
    case Tcp => "/$ns3::TcpL4Protocol"
  }

  function SocketTail(p: Protocol): string {
    match p
    case Quic => "/QuicSocketBase/"
    case Tcp => "/"
  }

  function SocketPart(p: Protocol, socket: nat, metric: string): string {
    SOCKET_KEY + (Decimal(socket) + (SocketTail(p) + metric))
  }

  function Path(p: Protocol, node: nat, socket: nat, metric: string): string {
    NODE_KEY + (Decimal(node) + (Layer(p) + SocketPart(p, socket, metric)))
  }

  datatype Ids = Ids(node: nat, conn: nat)

  /** static_cast<uint32_t>(std::stoul(...)): 0 without a match; None where stoul throws out_of_range. */
  function ReadId(m: Option<string>): (id: Option<nat>)
    requires m.Some? ==> AllDigits(m.value)
    ensures id.Some? ==> id.value < U32
  {
    if m.None? then Some(0)
    else if Value(m.value) < U64 then Some(Value(m.value) % U32)
    else None
  }

  function ParseIds(context: string): Option<Ids> {
    var node, conn := ReadId(Search(context, NODE_KEY)), ReadId(Search(context, SOCKET_KEY));
    if node.Some? && conn.Some? then Some(Ids(node.value, conn.value)) else None
  }

  lemma MatchPrinted(key: string, m: string, rest: string)
    requires |m| > 0 && AllDigits(m) && |rest| > 0 && rest[0] == '/'
    ensures Search(key + (m + rest), key) == Some(m)
  {
    var s := key + (m + rest);
    assert s[0..] == s;
    assert s[|key|..] == m + rest;
    assert s[|key|..|key| + |m|] == m;
    assert s[|key| + |m|] == rest[0];
    MatchIsOccurrence(s, key, 0, m);
  }

  /** A path component that cannot start a socket pattern. */
  predicate Component(s: string) {
    |s| >= 2 && s[0] == '/' && s[1] != 'S' && forall i :: 1 <= i < |s| ==> s[i] != '/'
  }

  predicate NoSocketAt(s: string, i: nat)
    requires i < |s|
  {
    s[i] != '/' || (i + 1 < |s| && s[i + 1] != 'S')
  }

  lemma {:induction false} SearchSkips(s: string, k: nat)
    requires k <= |s|
    requires forall i :: 0 <= i < k ==> NoSocketAt(s, i)
    ensures Search(s, SOCKET_KEY) == Search(s[k..], SOCKET_KEY)
  {
    if k == 0 {
      assert s[0..] == s;
    } else {
      assert MatchHere(s, SOCKET_KEY).None? by {
        assert NoSocketAt(s, 0);
        assert |SOCKET_KEY| <= |s| ==> s[..|SOCKET_KEY|][0] == s[0] && s[..|SOCKET_KEY|][1] == s[1];
      }
      forall i | 0 <= i < k - 1 ensures NoSocketAt(s[1..], i) {
        assert NoSocketAt(s, i + 1);
      }
      SearchSkips(s[1..], k - 1);
      assert s[1..][k - 1..] == s[k..];
    }
  }

  lemma SearchSkipsComponent(c: string, rest: string)
    requires Component(c)
    ensures Search(c + rest, SOCKET_KEY) == Search(rest, SOCKET_KEY)
  {
    var s := c + rest;
    forall i | 0 <= i < |c| ensures NoSocketAt(s, i) {
      assert s[i] == c[i];
      assert i == 0 ==> s[1] == c[1];
    }
    assert s[|c|..] == rest;
    SearchSkips(s, |c|);
  }

  lemma SkipToSocket(node: string, layer: string, part: string)
    requires |node| > 0 && AllDigits(node) && Component(layer)
    ensures Search(NODE_KEY + (node + (layer + part)), SOCKET_KEY) == Search(part, SOCKET_KEY)
  {
    var number := "/" + node;
    assert number[1] == node[0];
    assert NODE_KEY + (node + (layer + part)) == "/NodeList" + (number + (layer + part));
    SearchSkipsComponent("/NodeList", number + (layer + part));
    SearchSkipsComponent(number, layer + part);
    SearchSkipsComponent(layer, part);
  }

  lemma SearchBoth(node: string, layer: string, socket: string, rest: string)
    requires |node| > 0 && AllDigits(node) && |socket| > 0 && AllDigits(socket)
    requires Component(layer) && |rest| > 0 && rest[0] == '/'
    ensures var s := NODE_KEY + (node + (layer + (SOCKET_KEY + (socket + rest))));
            Search(s, NODE_KEY) == Some(node) && Search(s, SOCKET_KEY) == Some(socket)
  {
    var part := SOCKET_KEY + (socket + rest);
    MatchPrinted(NODE_KEY, node, layer + part);
    SkipToSocket(node, layer, part);
    MatchPrinted(SOCKET_KEY, socket, rest);
  }

  lemma SearchPath(p: Protocol, node: nat, socket: nat, metric: string)
    ensures Search(Path(p, node, socket, metric), NODE_KEY) == Some(Decimal(node))
    ensures Search(Path(p, node, socket, metric), SOCKET_KEY) == Some(Decimal(socket))
  {
    SearchBoth(Decimal(node), Layer(p), Decimal(socket), SocketTail(p) + metric);
  }

  lemma ReadDigits(m: string, n: nat)
    requires AllDigits(m) && Value(m) == n < U32
    ensures ReadId(Some(m)) == Some(n)
  {
  }

  lemma ReadBack(context: string, node: nat, socket: nat)
    requires node < U32 && socket < U32
    requires Search(context, NODE_KEY) == Some(Decimal(node)) && Search(context, SOCKET_KEY) == Some(Decimal(socket))
    ensures ParseIds(context) == Some(Ids(node, socket))
  {
    ValueOfDecimal(node);
    ValueOfDecimal(socket);
    ReadDigits(Decimal(node), node);
    ReadDigits(Decimal(socket), socket);
  }

  /** Reading a printed path gives back its node and socket, whatever follows them. */
  lemma ParsePrinted(p: Protocol, node: nat, socket: nat, metric: string)
    requires node < U32 && socket < U32
    ensures ParseIds(Path(p, node, socket, metric)) == Some(Ids(node, socket))
  {
    SearchPath(p, node, socket, metric);
    ReadBack(Path(p, node, socket, metric), node, socket);
  }

  lemma SameFront(first: string, node: string, layer: string, key: string, socket: string, tail: string,
                  m: string, n: string)
    requires first + (node + (layer + (key + (socket + (tail + m))))) ==
             first + (node + (layer + (key + (socket + (tail + n)))))
    ensures m == n
  {
    var front := first + (node + (layer + (key + (socket + tail))));
    assert first + (node + (layer + (key + (socket + (tail + m))))) == front + m;
    assert first + (node + (layer + (key + (socket + (tail + n))))) == front + n;
    assert (front + m)[|front|..] == m && (front + n)[|front|..] == n;
  }

  lemma DecimalInjective(m: nat, n: nat)
    requires Decimal(m) == Decimal(n)
    ensures m == n
  {
    ValueOfDecimal(m);
    ValueOfDecimal(n);
  }

  /** Different sources have different paths. */
  lemma PathInjective(p: Protocol, node: nat, socket: nat, metric: string, node': nat, socket': nat, metric': string)
    requires Path(p, node, socket, metric) == Path(p, node', socket', metric')
    ensures node == node' && socket == socket' && metric == metric'
  {
    SearchPath(p, node, socket, metric);
    SearchPath(p, node', socket', metric');
    DecimalInjective(node, node');
    DecimalInjective(socket, socket');
    SameFront(NODE_KEY, Decimal(node), Layer(p), SOCKET_KEY, Decimal(socket), SocketTail(p), metric, metric');
  }

  /** Numbers too long for 32 bits are cut to their last 32 bits; those too long for std::stoul make it throw. */
  lemma ParsePrintedAny(p: Protocol, node: nat, socket: nat, metric: string)
    ensures ParseIds(Path(p, node, socket, metric)) ==
            if node < U64 && socket < U64 then Some(Ids(node % U32, socket % U32)) else None
  {
    SearchPath(p, node, socket, metric);
    ValueOfDecimal(node);
    ValueOfDecimal(socket);
    ReadLong(Decimal(node), node);
    ReadLong(Decimal(socket), socket);
    ReadBoth(Path(p, node, socket, metric), Decimal(node), Decimal(socket));
  }

  lemma ReadLong(m: string, n: nat)
    requires AllDigits(m) && Value(m) == n
    ensures ReadId(Some(m)) == if n < U64 then Some(n % U32) else None
  {
  }

  lemma ReadBoth(context: string, node: string, socket: string)
    requires AllDigits(node) && AllDigits(socket)
    requires Search(context, NODE_KEY) == Some(node) && Search(context, SOCKET_KEY) == Some(socket)
    ensures var n, s := ReadId(Some(node)), ReadId(Some(socket));
            ParseIds(context) == if n.Some? && s.Some? then Some(Ids(n.value, s.value)) else None
  {
  }

  /** Without a node or a socket in the context, 0 is read. */
  lemma NothingToRead(context: string)
    requires forall i: nat, m :: !Occurs(context, NODE_KEY, i, m) && !Occurs(context, SOCKET_KEY, i, m)
    ensures ParseIds(context) == Some(Ids(0, 0))
  {
    var i := SearchIsLeftmost(context, NODE_KEY);
    var j := SearchIsLeftmost(context, SOCKET_KEY);
  }

  lemma SmallDecimals()
    ensures Decimal(7) == "7" && Decimal(12) == "12"
  {
    assert Decimal(12) == Decimal(1) + [Digit(2)];
  }

  /** What the paths look like, piece by piece. */
  lemma PathExamples()
    ensures Path(Quic, 7, 12, "RTT") ==
            "/NodeList/" + ("7" + ("/$ns3::QuicL4Protocol" + ("/SocketList/" + ("12" + ("/QuicSocketBase/" + "RTT")))))
    ensures Path(Tcp, 7, 12, "RTT") ==
            "/NodeList/" + ("7" + ("/$ns3::TcpL4Protocol" + ("/SocketList/" + ("12" + ("/" + "RTT")))))
  {
    SmallDecimals();
  }
}
