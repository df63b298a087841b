/**
  /proc/net/netstat and /proc/net/snmp: a line of names and a line of values belong together
  when they are adjacent and start with the same prefix.
*/
module Pairing {
  import opened Text

  /** A value line matched with the header line before it. */
  datatype Row = Row(prefix: string, header: seq<string>, values: seq<string>)

  /** The header line waiting for its values; an empty prefix means none is. */
  datatype State = State(pending: string, header: seq<string>)

  const IDLE := State("", [])

  /** A line with fewer than two fields is skipped. */
  predicate Noise(fields: seq<string>) { |fields| < 2 }

  function Step(st: State, fields: seq<string>): State {
    if Noise(fields) then st
    else if st.pending != "" && st.pending == fields[0] then IDLE
    else State(fields[0], fields[1..])
  }

  function Completed(st: State, fields: seq<string>): seq<Row> {
    if !Noise(fields) && st.pending != "" && st.pending == fields[0]
    then [Row(fields[0], st.header, fields[1..])]
    else []
  }

  function After(st: State, ls: seq<seq<string>>): State
    decreases |ls|
  {
    if ls == [] then st else After(Step(st, ls[0]), ls[1..])
  }

  function RowsFrom(st: State, ls: seq<seq<string>>): seq<Row>
    decreases |ls|
  {
    if ls == [] then [] else Completed(st, ls[0]) + RowsFrom(Step(st, ls[0]), ls[1..])
  }

  function Tokens(lines: seq<string>): seq<seq<string>> {
    if lines == [] then [] else Tokens(lines[..|lines| - 1]) + [Fields(lines[|lines| - 1])]
  }

  /** The rows of a file. */
  function Rows(lines: seq<string>): seq<Row> { RowsFrom(IDLE, Tokens(lines)) }

  lemma {:induction false} RunConcat(st: State, a: seq<seq<string>>, b: seq<seq<string>>)
    ensures After(st, a + b) == After(After(st, a), b)
    ensures RowsFrom(st, a + b) == RowsFrom(st, a) + RowsFrom(After(st, a), b)
    decreases |a|
  {
    if a == [] {
      assert a + b == b;
    } else {
      assert (a + b)[1..] == a[1..] + b;
      RunConcat(Step(st, a[0]), a[1..], b);
    }
  }

  // ---------------------------------------------------------------- What is read from a row

  /** How many names have a value. */
  function Paired(r: Row): nat { if |r.values| < |r.header| then |r.values| else |r.header| }

  /**
    The value for a name after the first n pairs, given the value before them. A lenient reader
    takes what ParseUint leaves behind on failure, a strict one keeps the earlier value.
  */
  function ValueIn(r: Row, n: nat, name: string, start: int, lenient: bool): int
    requires n <= Paired(r)
  {
    if n == 0 then start
    else if r.header[n - 1] == name && (lenient || ParseUint(r.values[n - 1]).ok)
    then ParseUint(r.values[n - 1]).value
    else ValueIn(r, n - 1, name, start, lenient)
  }

  function Metric(rows: seq<Row>, prefix: string, name: string, lenient: bool): int {
    if rows == [] then 0
    else
      var before, r := Metric(rows[..|rows| - 1], prefix, name, lenient), rows[|rows| - 1];
      if r.prefix == prefix then ValueIn(r, Paired(r), name, before, lenient) else before
  }

  // ---------------------------------------------------------------- The readers

  lemma NextLine(lines: seq<string>, i: nat)
    requires i < |lines|
    ensures var st := After(IDLE, Tokens(lines[..i]));
      && After(IDLE, Tokens(lines[..i + 1])) == Step(st, Fields(lines[i]))
      && Rows(lines[..i + 1]) == Rows(lines[..i]) + Completed(st, Fields(lines[i]))
  {
    assert lines[..i + 1][..i] == lines[..i];
    var before, fields := Tokens(lines[..i]), Fields(lines[i]);
    RunConcat(IDLE, before, [fields]);
  }

  /** The reader's own variables after one more line, and the row it completes, if any. */
  method PairLine(pending: string, header: seq<string>, fields: seq<string>)
    returns (pending': string, header': seq<string>, row: seq<Row>)
    ensures State(pending', header') == Step(State(pending, header), fields)
    ensures row == Completed(State(pending, header), fields)
  {
    pending', header', row := pending, header, [];
    if |fields| < 2 { return; }
    var prefix := fields[0];
    if pending == "" {
      pending', header' := prefix, fields[1..];
    } else if pending == prefix {
      row := [Row(prefix, header, fields[1..])];
      pending', header' := "", [];
    } else {
      pending', header' := prefix, fields[1..];
    }
  }

  /** The TcpExt counters, each named by its header. */
  const TCP_EXT: set<string> := {
    "ListenOverflows", "ListenDrops", "TCPMemoryPressures", "TCPRcvCollapsed", "TCPAbortOnMemory",
    "TCPReqQFullDoCookies", "TCPWinProbe", "TCPZeroWindowDrop", "TCPAbortOnData", "TCPAbortOnClose",
    "TCPTimeouts", "TCPSpuriousRtxHost", "TCPTimeWaitOverflow", "PAWSEstab", "PAWSPassive",
    "TCPSlowStartRetrans", "SyncookiesSent", "SyncookiesRecv", "SyncookiesFailed", "TCPOFOQueue",
    "TCPFastOpenActiveFail", "TCPFastOpenPassiveFail", "TCPSynRetrans", "TCPDeferAcceptDrop"
  }

  method ParseTCPExtFields(r: Row, info: map<string, int>, known: set<string>) returns (info': map<string, int>)
    requires info.Keys == known
    ensures info'.Keys == known
    ensures forall name :: name in known ==> info'[name] == ValueIn(r, Paired(r), name, info[name], false)
  {
    info' := info;
    var count := if |r.values| < |r.header| then |r.values| else |r.header|;
    for i := 0 to count
      invariant info'.Keys == known
      invariant forall name :: name in known ==> info'[name] == ValueIn(r, i, name, info[name], false)
    {
      var val := ParseUint(r.values[i]);
      if !val.ok { continue; }
      if r.header[i] in known {
        info' := info'[r.header[i] := val.value];
      }
    }
  }

  ghost predicate Reads(info: map<string, int>, known: set<string>, rows: seq<Row>) {
    && info.Keys == known
    && forall name :: name in known ==> info[name] == Metric(rows, "TcpExt:", name, false)
  }

  method ReadNetStat(lines: seq<string>, known: set<string>) returns (info: map<string, int>)
    ensures info.Keys == known
    ensures forall name :: name in known ==> info[name] == Metric(Rows(lines), "TcpExt:", name, false)
  {
    info := map name | name in known :: 0;
    var pending, header := "", [];
    for i := 0 to |lines|
      invariant State(pending, header) == After(IDLE, Tokens(lines[..i]))
      invariant Reads(info, known, Rows(lines[..i]))
    {
      NextLine(lines, i);
      var row;
      pending, header, row := PairLine(pending, header, Fields(lines[i]));
      if row != [] {
        ghost var before := info;
        if row[0].prefix == "TcpExt:" {
          info := ParseTCPExtFields(row[0], info, known);
        }
      } else {
        assert Rows(lines[..i + 1]) == Rows(lines[..i]);
      }
    }
    assert lines[..|lines|] == lines;
  }

  method ParseNetStat(lines: seq<string>) returns (info: map<string, int>)
    ensures info.Keys == TCP_EXT
    ensures forall name :: name in TCP_EXT ==> info[name] == Metric(Rows(lines), "TcpExt:", name, false)
  {
    info := ReadNetStat(lines, TCP_EXT);
  }

  datatype SNMP = SNMP(retransSegs: int, outSegs: int, udpRcv: int, udpSnd: int, udpIn: int)
  datatype IPSNMP = IPSNMP(reqds: int, fails: int, timeout: int, oks: int)

  method ReadTcp(r: Row, m: SNMP) returns (m': SNMP)
    ensures m' == m.(retransSegs := ValueIn(r, Paired(r), "RetransSegs", m.retransSegs, true),
                     outSegs := ValueIn(r, Paired(r), "OutSegs", m.outSegs, true))
  {
    m' := m;
    var count := if |r.values| < |r.header| then |r.values| else |r.header|;
    for i := 0 to count
      invariant m' == m.(retransSegs := ValueIn(r, i, "RetransSegs", m.retransSegs, true),
                         outSegs := ValueIn(r, i, "OutSegs", m.outSegs, true))
    {
      if r.header[i] == "RetransSegs" {
        m' := m'.(retransSegs := ParseUint(r.values[i]).value);
      } else if r.header[i] == "OutSegs" {
        m' := m'.(outSegs := ParseUint(r.values[i]).value);
      }
    }
  }

  method ReadUdp(r: Row, m: SNMP) returns (m': SNMP)
    ensures m' == m.(udpRcv := ValueIn(r, Paired(r), "RcvbufErrors", m.udpRcv, true),
                     udpSnd := ValueIn(r, Paired(r), "SndbufErrors", m.udpSnd, true),
                     udpIn := ValueIn(r, Paired(r), "InErrors", m.udpIn, true))
  {
    m' := m;
    assert "RcvbufErrors"[0] != "SndbufErrors"[0];
    var count := if |r.values| < |r.header| then |r.values| else |r.header|;
    for i := 0 to count
      invariant m' == m.(udpRcv := ValueIn(r, i, "RcvbufErrors", m.udpRcv, true),
                         udpSnd := ValueIn(r, i, "SndbufErrors", m.udpSnd, true),
                         udpIn := ValueIn(r, i, "InErrors", m.udpIn, true))
    {
      match r.header[i] {
        case "RcvbufErrors" => m' := m'.(udpRcv := ParseUint(r.values[i]).value);
        case "SndbufErrors" => m' := m'.(udpSnd := ParseUint(r.values[i]).value);
        case "InErrors" => m' := m'.(udpIn := ParseUint(r.values[i]).value);
        case _ =>
      }
    }
  }

  method ReadIp(r: Row, m: IPSNMP) returns (m': IPSNMP)
    ensures m' == IPSNMP(ValueIn(r, Paired(r), "ReasmReqds", m.reqds, true),
                         ValueIn(r, Paired(r), "ReasmFails", m.fails, true),
                         ValueIn(r, Paired(r), "ReasmTimeout", m.timeout, true),
                         ValueIn(r, Paired(r), "ReasmOKs", m.oks, true))
  {
    m' := m;
    assert "ReasmReqds"[5] != "ReasmFails"[5];
    var count := if |r.values| < |r.header| then |r.values| else |r.header|;
    for i := 0 to count
      invariant m' == IPSNMP(ValueIn(r, i, "ReasmReqds", m.reqds, true),
                             ValueIn(r, i, "ReasmFails", m.fails, true),
                             ValueIn(r, i, "ReasmTimeout", m.timeout, true),
                             ValueIn(r, i, "ReasmOKs", m.oks, true))
    {
      match r.header[i] {
        case "ReasmReqds" => m' := m'.(reqds := ParseUint(r.values[i]).value);
        case "ReasmFails" => m' := m'.(fails := ParseUint(r.values[i]).value);
        case "ReasmTimeout" => m' := m'.(timeout := ParseUint(r.values[i]).value);
        case "ReasmOKs" => m' := m'.(oks := ParseUint(r.values[i]).value);
        case _ =>
      }
    }
  }

  /** What the two snmp readers should end up with. */
  function SNMPOf(rows: seq<Row>): SNMP {
    SNMP(Metric(rows, "Tcp:", "RetransSegs", true), Metric(rows, "Tcp:", "OutSegs", true),
         Metric(rows, "Udp:", "RcvbufErrors", true), Metric(rows, "Udp:", "SndbufErrors", true),
         Metric(rows, "Udp:", "InErrors", true))
  }

  function IPSNMPOf(rows: seq<Row>): IPSNMP {
    IPSNMP(Metric(rows, "Ip:", "ReasmReqds", true), Metric(rows, "Ip:", "ReasmFails", true),
           Metric(rows, "Ip:", "ReasmTimeout", true), Metric(rows, "Ip:", "ReasmOKs", true))
  }

  method ReadSNMPRow(r: Row, m: SNMP, ghost rows: seq<Row>) returns (m': SNMP)
    requires m == SNMPOf(rows)
    ensures m' == SNMPOf(rows + [r])
  {
    assert (rows + [r])[..|rows|] == rows;
    m' := m;
    if r.prefix == "Tcp:" {
      m' := ReadTcp(r, m);
    } else if r.prefix == "Udp:" {
      m' := ReadUdp(r, m);
    }
  }

  method ReadIPSNMPRow(r: Row, m: IPSNMP, ghost rows: seq<Row>) returns (m': IPSNMP)
    requires m == IPSNMPOf(rows)
    ensures m' == IPSNMPOf(rows + [r])
  {
    assert (rows + [r])[..|rows|] == rows;
    m' := m;
    if r.prefix == "Ip:" {
      m' := ReadIp(r, m);
    }
  }

  method ParseSNMP(lines: seq<string>) returns (m: SNMP)
    ensures m == SNMPOf(Rows(lines))
  {
    m := SNMP(0, 0, 0, 0, 0);
    var pending, header := "", [];
    ghost var rows: seq<Row> := [];
    for i := 0 to |lines|
      invariant State(pending, header) == After(IDLE, Tokens(lines[..i]))
      invariant rows == Rows(lines[..i]) && m == SNMPOf(rows)
    {
      NextLine(lines, i);
      var row;
      pending, header, row := PairLine(pending, header, Fields(lines[i]));
      if row != [] {
        assert row == [row[0]];
        m := ReadSNMPRow(row[0], m, rows);
      } else {
        assert rows + row == rows;
      }
      rows := rows + row;
    }
    assert lines[..|lines|] == lines;
  }

  method ParseIPSNMP(lines: seq<string>) returns (m: IPSNMP)
    ensures m == IPSNMPOf(Rows(lines))
  {
    m := IPSNMP(0, 0, 0, 0);
    var pending, header := "", [];
    ghost var rows: seq<Row> := [];
    for i := 0 to |lines|
      invariant State(pending, header) == After(IDLE, Tokens(lines[..i]))
      invariant rows == Rows(lines[..i]) && m == IPSNMPOf(rows)
    {
      NextLine(lines, i);
      var row;
      pending, header, row := PairLine(pending, header, Fields(lines[i]));
      if row != [] {
        assert row == [row[0]];
        m := ReadIPSNMPRow(row[0], m, rows);
      } else {
        assert rows + row == rows;
      }
      rows := rows + row;
    }
    assert lines[..|lines|] == lines;
  }

  // ---------------------------------------------------------------- What the pairing recovers

  function Dense(ls: seq<seq<string>>): seq<seq<string>> {
    if ls == [] then [] else (if Noise(ls[0]) then [] else [ls[0]]) + Dense(ls[1..])
  }

  /** Lines with fewer than two fields never matter, wherever they stand. */
  lemma {:induction false} NoiseIsIgnored(st: State, ls: seq<seq<string>>)
    ensures RowsFrom(st, ls) == RowsFrom(st, Dense(ls)) && After(st, ls) == After(st, Dense(ls))
    decreases |ls|
  {
    if ls != [] {
      NoiseIsIgnored(Step(st, ls[0]), ls[1..]);
      if !Noise(ls[0]) {
        assert Dense(ls)[0] == ls[0] && Dense(ls)[1..] == Dense(ls[1..]);
      } else {
        assert Dense(ls) == Dense(ls[1..]);
      }
    }
  }

  /** Pairing by looking ahead instead of remembering: two neighbours with one prefix, else drop the first. */
  function Neighbours(ls: seq<seq<string>>): seq<Row>
    requires forall i :: 0 <= i < |ls| ==> |ls[i]| >= 2
    decreases |ls|
  {
    if |ls| < 2 then []
    else if ls[0][0] == ls[1][0] then [Row(ls[0][0], ls[0][1..], ls[1][1..])] + Neighbours(ls[2..])
    else Neighbours(ls[1..])
  }

  predicate Named(ls: seq<seq<string>>) { forall i :: 0 <= i < |ls| ==> |ls[i]| >= 2 && ls[i][0] != "" }

  lemma {:induction false} WaitingIsNeighbours(first: seq<string>, ls: seq<seq<string>>)
    requires |first| >= 2 && Named([first] + ls) && Named(ls)
    ensures RowsFrom(State(first[0], first[1..]), ls) == Neighbours([first] + ls)
    decreases |ls|
  {
    var all := [first] + ls;
    if ls != [] {
      assert all[1..] == ls && all[2..] == ls[1..] && all[1] == ls[0];
      assert Named([ls[0]] + ls[1..]) && Named(ls[1..]);
      if ls[0][0] == first[0] {
        IdleIsNeighbours(ls[1..]);
      } else {
        WaitingIsNeighbours(ls[0], ls[1..]);
        assert [ls[0]] + ls[1..] == ls;
      }
    }
  }

  lemma {:induction false} IdleIsNeighbours(ls: seq<seq<string>>)
    requires Named(ls)
    ensures RowsFrom(IDLE, ls) == Neighbours(ls)
    decreases |ls|
  {
    if ls != [] {
      assert [ls[0]] + ls[1..] == ls;
      WaitingIsNeighbours(ls[0], ls[1..]);
    }
  }

  lemma {:induction false} DenseIsNamed(lines: seq<string>)
    ensures Named(Dense(Tokens(lines)))
  {
    if lines != [] {
      var n := |lines| - 1;
      DenseIsNamed(lines[..n]);
      var last := Fields(lines[n]);
      FieldsAreWords(lines[n]);
      DenseConcat(Tokens(lines[..n]), [last]);
      assert Dense([last]) == if Noise(last) then [] else [last] by { assert [last][1..] == []; }
    }
  }

  lemma {:induction false} DenseConcat(a: seq<seq<string>>, b: seq<seq<string>>)
    ensures Dense(a + b) == Dense(a) + Dense(b)
  {
    if a == [] {
      assert a + b == b;
    } else {
      assert (a + b)[1..] == a[1..] + b;
      DenseConcat(a[1..], b);
    }
  }

  /** On every file whatever, the machine finds exactly the neighbouring lines with one prefix. */
  lemma MachineIsLookahead(lines: seq<string>)
    ensures Named(Dense(Tokens(lines))) && Rows(lines) == Neighbours(Dense(Tokens(lines)))
  {
    NoiseIsIgnored(IDLE, Tokens(lines));
    DenseIsNamed(lines);
    IdleIsNeighbours(Dense(Tokens(lines)));
  }

  predicate IsPair(r: Row) { r.prefix != "" && r.header != [] && r.values != [] }

  predicate ArePairs(rows: seq<Row>) { forall i :: 0 <= i < |rows| ==> IsPair(rows[i]) }

  /** The two lines of every pair. */
  function Layout(rows: seq<Row>): seq<seq<string>> {
    if rows == [] then []
    else [[rows[0].prefix] + rows[0].header, [rows[0].prefix] + rows[0].values] + Layout(rows[1..])
  }

  lemma {:induction false} PairsAreRead(rows: seq<Row>)
    requires ArePairs(rows)
    ensures RowsFrom(IDLE, Layout(rows)) == rows && After(IDLE, Layout(rows)) == IDLE
  {
    if rows != [] {
      var r := rows[0];
      PairsAreRead(rows[1..]);
      var h, v := [r.prefix] + r.header, [r.prefix] + r.values;
      assert h[1..] == r.header && v[1..] == r.values;
      RunConcat(IDLE, [h, v], Layout(rows[1..]));
      RunTwo(IDLE, h, v);
    }
  }

  lemma RunTwo(st: State, x: seq<string>, y: seq<string>)
    ensures After(st, [x, y]) == Step(Step(st, x), y)
    ensures RowsFrom(st, [x, y]) == Completed(st, x) + Completed(Step(st, x), y)
  {
    assert [x] + [y] == [x, y];
    RunConcat(st, [x], [y]);
  }

  /** A file of pairs, with noise anywhere and any spacing, is read as exactly those pairs. */
  lemma FileOfPairs(lines: seq<string>, rows: seq<Row>)
    requires ArePairs(rows) && Dense(Tokens(lines)) == Layout(rows)
    ensures Rows(lines) == rows
  {
    NoiseIsIgnored(IDLE, Tokens(lines));
    PairsAreRead(rows);
  }

  predicate StartsWith(ls: seq<seq<string>>, prefix: string) { ls != [] && !Noise(ls[0]) && ls[0][0] == prefix }

  /** A header left waiting is dropped at the next line with another prefix, and reading starts afresh there. */
  lemma Resynchronises(before: seq<seq<string>>, rest: seq<seq<string>>)
    requires rest != [] && !Noise(rest[0])
    requires After(IDLE, before).pending == "" || !StartsWith(rest, After(IDLE, before).pending)
    ensures RowsFrom(IDLE, before + rest) == RowsFrom(IDLE, before) + RowsFrom(IDLE, rest)
    ensures After(IDLE, before + rest) == After(IDLE, rest)
  {
    RunConcat(IDLE, before, rest);
  }

  /**
    In front of a file of pairs an orphan header does no harm exactly when its prefix is not the
    first pair's; otherwise it takes the first pair's names for its values.
  */
  lemma OrphanHarmlessIff(prefix: string, header: seq<string>, rows: seq<Row>)
    requires prefix != "" && header != [] && ArePairs(rows)
    requires rows != [] ==> rows[0].header != rows[0].values
    ensures RowsFrom(IDLE, [[prefix] + header] + Layout(rows)) == rows <==> (rows == [] || rows[0].prefix != prefix)
  {
    var orphan := [prefix] + header;
    RunConcat(IDLE, [orphan], Layout(rows));
    assert orphan[1..] == header;
    if rows != [] {
      var h := [rows[0].prefix] + rows[0].header;
      assert h[1..] == rows[0].header && Layout(rows)[0] == h;
      if rows[0].prefix != prefix {
        Resynchronises([orphan], Layout(rows));
        PairsAreRead(rows);
      } else {
      }
    }
  }

  // ---------------------------------------------------------------- Values

  /** The only pair of this row that names name is the one at i. */
  predicate NamedOnlyAt(r: Row, name: string, i: nat) {
    i < Paired(r) && forall k :: 0 <= k < Paired(r) ==> (r.header[k] == name <==> k == i)
  }

  lemma {:induction false} MetricElsewhere(rows: seq<Row>, prefix: string, name: string, lenient: bool)
    requires forall k :: 0 <= k < |rows| ==> rows[k].prefix != prefix
    ensures Metric(rows, prefix, name, lenient) == 0
  {
    if rows != [] { MetricElsewhere(rows[..|rows| - 1], prefix, name, lenient); }
  }

  lemma {:induction false} RowPrefixes(st: State, ls: seq<seq<string>>, prefix: string)
    requires forall i :: 0 <= i < |ls| && !Noise(ls[i]) ==> ls[i][0] != prefix
    ensures forall k :: 0 <= k < |RowsFrom(st, ls)| ==> RowsFrom(st, ls)[k].prefix != prefix
    decreases |ls|
  {
    if ls != [] {
      assert forall i :: 0 <= i < |ls[1..]| ==> ls[1..][i] == ls[i + 1];
      RowPrefixes(Step(st, ls[0]), ls[1..], prefix);
    }
  }

  lemma {:induction false} TokensAre(lines: seq<string>)
    ensures |Tokens(lines)| == |lines| && forall i :: 0 <= i < |lines| ==> Tokens(lines)[i] == Fields(lines[i])
  {
    if lines != [] {
      TokensAre(lines[..|lines| - 1]);
    }
  }

  /** A counter whose prefix opens no line of the file reads as zero. */
  lemma AbsentPrefixReadsZero(lines: seq<string>, prefix: string, name: string, lenient: bool)
    requires forall i :: 0 <= i < |lines| ==> |Fields(lines[i])| < 2 || Fields(lines[i])[0] != prefix
    ensures Metric(Rows(lines), prefix, name, lenient) == 0
  {
    TokensAre(lines);
    RowPrefixes(IDLE, Tokens(lines), prefix);
    MetricElsewhere(Rows(lines), prefix, name, lenient);
  }

  /** A counter printed under its name in the only row of its prefix is read back exactly. */
  lemma {:induction false} MetricRecovered(rows: seq<Row>, k: nat, name: string, i: nat, v: nat, lenient: bool)
    requires k < |rows| && NamedOnlyAt(rows[k], name, i)
    requires forall j :: 0 <= j < |rows| && j != k ==> rows[j].prefix != rows[k].prefix
    requires rows[k].values[i] == Dec(v) && v <= MAX_UINT
    ensures Metric(rows, rows[k].prefix, name, lenient) == v
  {
    ParseUintRoundTrip(v);
    var n := |rows| - 1;
    if k == n {
      LastValueWins(rows[k], Paired(rows[k]), name, Metric(rows[..n], rows[k].prefix, name, lenient), lenient, i);
    } else {
      MetricRecovered(rows[..n], k, name, i, v, lenient);
    }
  }

  /**
    The readers differ on a value that does not parse: netstat keeps what it had, snmp takes
    the largest counter if the digits in front overflow, whatever follows them, and else zero.
  */
  lemma UnparsedValue(r: Row, name: string, i: nat, start: int)
    requires NamedOnlyAt(r, name, i) && !ParseUint(r.values[i]).ok
    ensures ValueIn(r, Paired(r), name, start, false) == start
    ensures ValueIn(r, Paired(r), name, start, true) == if Overflows(r.values[i]) then MAX_UINT else 0
  {
    ScanMeaning(r.values[i]);
    if r.values[i] == "" { ScanMeaning(""); }
    NoValueKeeps(r, Paired(r), name, start, false);
    LastValueWins(r, Paired(r), name, start, true, i);
  }

  // ---------------------------------------------------------------- Repeated names, and which name goes where

  /** Pair i is the last of the first n that names name with a value the reader accepts. */
  ghost predicate AcceptedLastAt(r: Row, n: nat, name: string, lenient: bool, i: nat) {
    && i < n <= Paired(r) && r.header[i] == name && (lenient || ParseUint(r.values[i]).ok)
    && forall k :: i < k < n && r.header[k] == name ==> !lenient && !ParseUint(r.values[k]).ok
  }

  /** The last acceptable value under a name wins. */
  lemma {:induction false} LastValueWins(r: Row, n: nat, name: string, start: int, lenient: bool, i: nat)
    requires AcceptedLastAt(r, n, name, lenient, i)
    ensures ValueIn(r, n, name, start, lenient) == ParseUint(r.values[i]).value
  {
    if i < n - 1 { LastValueWins(r, n - 1, name, start, lenient, i); }
  }

  /** Without one the value stays what it was. */
  lemma {:induction false} NoValueKeeps(r: Row, n: nat, name: string, start: int, lenient: bool)
    requires n <= Paired(r)
    requires forall k :: 0 <= k < n && r.header[k] == name ==> !lenient && !ParseUint(r.values[k]).ok
    ensures ValueIn(r, n, name, start, lenient) == start
  {
    if n > 0 { NoValueKeeps(r, n - 1, name, start, lenient); }
  }

  /** The only row of its prefix gives v under the name. */
  ghost predicate Reports(rows: seq<Row>, prefix: string, name: string, v: nat) {
    v <= MAX_UINT && exists k, i :: ReportsAt(rows, prefix, name, v, k, i)
  }

  ghost predicate ReportsAt(rows: seq<Row>, prefix: string, name: string, v: nat, k: nat, i: nat) {
    && k < |rows| && rows[k].prefix == prefix && (forall j :: 0 <= j < |rows| && j != k ==> rows[j].prefix != prefix)
    && NamedOnlyAt(rows[k], name, i) && rows[k].values[i] == Dec(v)
  }

  lemma ReportedIsRead(rows: seq<Row>, prefix: string, name: string, v: nat, lenient: bool)
    requires Reports(rows, prefix, name, v)
    ensures Metric(rows, prefix, name, lenient) == v
  {
    var k: nat, i: nat :| ReportsAt(rows, prefix, name, v, k, i);
    MetricRecovered(rows, k, name, i, v, lenient);
  }

  /** Each of the nine counters is the one the file gives under its own prefix and name. */
  lemma TcpRecovered(rows: seq<Row>, retrans: nat, out: nat)
    requires Reports(rows, "Tcp:", "RetransSegs", retrans) && Reports(rows, "Tcp:", "OutSegs", out)
    ensures SNMPOf(rows).retransSegs == retrans && SNMPOf(rows).outSegs == out
  {
    ReportedIsRead(rows, "Tcp:", "RetransSegs", retrans, true);
    ReportedIsRead(rows, "Tcp:", "OutSegs", out, true);
  }

  lemma UdpRecovered(rows: seq<Row>, rcv: nat, snd: nat, inErrors: nat)
    requires Reports(rows, "Udp:", "RcvbufErrors", rcv) && Reports(rows, "Udp:", "SndbufErrors", snd)
    requires Reports(rows, "Udp:", "InErrors", inErrors)
    ensures SNMPOf(rows).udpRcv == rcv && SNMPOf(rows).udpSnd == snd && SNMPOf(rows).udpIn == inErrors
  {
    ReportedIsRead(rows, "Udp:", "RcvbufErrors", rcv, true);
    ReportedIsRead(rows, "Udp:", "SndbufErrors", snd, true);
    ReportedIsRead(rows, "Udp:", "InErrors", inErrors, true);
  }

  lemma IpRecovered(rows: seq<Row>, reqds: nat, fails: nat, timeout: nat, oks: nat)
    requires Reports(rows, "Ip:", "ReasmReqds", reqds) && Reports(rows, "Ip:", "ReasmFails", fails)
    requires Reports(rows, "Ip:", "ReasmTimeout", timeout) && Reports(rows, "Ip:", "ReasmOKs", oks)
    ensures IPSNMPOf(rows) == IPSNMP(reqds, fails, timeout, oks)
  {
    ReportedIsRead(rows, "Ip:", "ReasmReqds", reqds, true);
    ReportedIsRead(rows, "Ip:", "ReasmFails", fails, true);
    ReportedIsRead(rows, "Ip:", "ReasmTimeout", timeout, true);
    ReportedIsRead(rows, "Ip:", "ReasmOKs", oks, true);
  }

  /** The names of the TcpExt counters kept. */
  lemma TcpExtNames()
    ensures "ListenOverflows" in TCP_EXT && "ListenDrops" in TCP_EXT && "TCPMemoryPressures" in TCP_EXT
    ensures "TCPRcvCollapsed" in TCP_EXT && "TCPAbortOnMemory" in TCP_EXT && "TCPReqQFullDoCookies" in TCP_EXT
    ensures "TCPWinProbe" in TCP_EXT && "TCPZeroWindowDrop" in TCP_EXT && "TCPAbortOnData" in TCP_EXT
    ensures "TCPAbortOnClose" in TCP_EXT && "TCPTimeouts" in TCP_EXT && "TCPSpuriousRtxHost" in TCP_EXT
    ensures "TCPTimeWaitOverflow" in TCP_EXT && "PAWSEstab" in TCP_EXT && "PAWSPassive" in TCP_EXT
    ensures "TCPSlowStartRetrans" in TCP_EXT && "SyncookiesSent" in TCP_EXT && "SyncookiesRecv" in TCP_EXT
    ensures "SyncookiesFailed" in TCP_EXT && "TCPOFOQueue" in TCP_EXT && "TCPFastOpenActiveFail" in TCP_EXT
    ensures "TCPFastOpenPassiveFail" in TCP_EXT && "TCPSynRetrans" in TCP_EXT && "TCPDeferAcceptDrop" in TCP_EXT
  {}
}
