/**
  /proc/[pid]/stat: the command name sits in parentheses and may itself contain spaces and
  parentheses, so the parser trusts only the first '(' and the last ')'.
*/
module ProcStat {
  import opened Wrappers
  import opened Text

  /** One more than the largest 64-bit value. */
  const U64 := MAX_UINT + 1

  datatype StatInfo = StatInfo(
    pid: int, comm: string, state: char, ppid: int, utime: int, stime: int,
    numThreads: int, rssBytes: int, policy: int)

  /** A line cut at its first '(' and its last ')'. */
  datatype Cut = Cut(before: string, comm: string, after: string)

  function CutAtParens(line: string): Option<Cut> {
    var first := IndexByte(line, '(');
    var last := LastIndexByte(line, ')');
    if first == -1 || last == -1 || last <= first then None
    else Some(Cut(line[..first], line[first + 1..last], line[last + 1..]))
  }

  function Interpret(cut: Cut, expectedPID: int, pageSize: nat): Option<StatInfo> {
    var pid := Atoi(TrimSpace(cut.before));
    if !pid.ok || (expectedPID > 0 && pid.value != expectedPID) then None
    else
      var fields := Fields(cut.after);
      if |fields| < 22 then None else Some(FromFields(pid.value, cut.comm, fields, pageSize))
  }

  function Parse(text: string, expectedPID: int, pageSize: nat): Option<StatInfo> {
    match CutAtParens(TrimSpace(text))
    case None => None
    case Some(cut) => Interpret(cut, expectedPID, pageSize)
  }

  /** Pages to bytes, in 64 bits. */
  function Bytes(pages: int, pageSize: nat): int {
    var n := pages * pageSize;
    if 0 <= n < U64 then n else n % U64
  }

  /** Numbers that do not parse are taken as zero, numbers out of range as the nearest bound. */
  function FromFields(pid: int, comm: string, fields: seq<string>, pageSize: nat): StatInfo
    requires |fields| >= 22
  {
    StatInfo(
      pid, comm, if fields[0] != "" then fields[0][0] else '?', Atoi(fields[1]).value,
      ParseUint(fields[11]).value, ParseUint(fields[12]).value, Atoi(fields[17]).value,
      Bytes(ParseUint(fields[21]).value, pageSize),
      if |fields| > 38 then Atoi(fields[38]).value else 0)
  }

  // ---------------------------------------------------------------- Printing a line

  /** The kernel's line: "pid (comm) f0 f1 ...\n". */
  function Print(pid: int, comm: string, fields: seq<string>): string {
    Line(pid, comm, fields) + "\n"
  }

  function Line(pid: int, comm: string, fields: seq<string>): string {
    DecInt(pid) + " " + ['('] + comm + [')'] + Tail(fields)
  }

  function Tail(fields: seq<string>): string {
    if fields == [] then "" else " " + fields[0] + Tail(fields[1..])
  }

  lemma FieldsOfLonger(field: string, tail: string)
    requires IsWord(field) && (tail == "" || IsSpace(tail[0]))
    ensures Fields(" " + field + tail) == [field] + Fields(tail)
  {
    FieldsStep(" ", field, tail);
  }

  lemma {:induction false} FieldsOfTail(fields: seq<string>)
    requires AllWords(fields)
    ensures Fields(Tail(fields)) == fields
  {
    if fields != [] {
      var rest := fields[1..];
      assert forall i :: 0 <= i < |rest| ==> rest[i] == fields[i + 1];
      FieldsOfTail(rest);
      FieldsOfLonger(fields[0], Tail(rest));
      assert [fields[0]] + rest == fields;
    } else {
      FieldsOfSpace("");
    }
  }

  lemma {:induction false} TailEnds(fields: seq<string>)
    requires AllWords(fields) && fields != []
    ensures Tail(fields) != "" && !IsSpace(Tail(fields)[|Tail(fields)| - 1])
  {
    if |fields| == 1 {
      assert Tail(fields) == " " + fields[0];
    } else {
      assert forall i :: 0 <= i < |fields[1..]| ==> fields[1..][i] == fields[i + 1];
      TailEnds(fields[1..]);
    }
  }

  /** No field contains ')'. */
  predicate NoParen(fields: seq<string>) { forall i :: 0 <= i < |fields| ==> Free(')', fields[i]) }

  lemma {:induction false} ParenInTail(fields: seq<string>)
    ensures Free(')', Tail(fields)) <==> NoParen(fields)
  {
    if fields != [] {
      ParenInTail(fields[1..]);
      FreeConcat(')', " " + fields[0], Tail(fields[1..]));
      FreeConcat(')', " ", fields[0]);
      if NoParen(fields[1..]) && Free(')', fields[0]) {
        forall i | 0 <= i < |fields| ensures Free(')', fields[i]) {
          if i > 0 { assert fields[i] == fields[1..][i - 1]; }
        }
      }
      if NoParen(fields) {
        forall i | 0 <= i < |fields[1..]| ensures Free(')', fields[1..][i]) { assert fields[1..][i] == fields[i + 1]; }
      }
    }
  }

  lemma FreeConcat(c: char, s: string, t: string)
    ensures Free(c, s + t) <==> Free(c, s) && Free(c, t)
  {
    if Free(c, s + t) {
      forall i | 0 <= i < |s| ensures s[i] != c { assert (s + t)[i] == s[i]; }
      forall i | 0 <= i < |t| ensures t[i] != c { assert (s + t)[|s| + i] == t[i]; }
    }
  }

  // ---------------------------------------------------------------- Finding the parentheses

  lemma OnlyBehind(a: string, c: char, b: string)
    requires Free(c, a)
    ensures var s := a + [c] + b; s[|a|] == c && forall k :: 0 <= k < |a| ==> s[k] != c
  {
    var s := a + [c] + b;
    forall k | 0 <= k < |a| ensures s[k] != c { assert s[k] == a[k]; }
  }

  lemma OnlyBefore(a: string, c: char, b: string)
    requires Free(c, b)
    ensures var s := a + [c] + b; s[|a|] == c && forall k :: |a| < k < |s| ==> s[k] != c
  {
    var s := a + [c] + b;
    forall k | |a| < k < |s| ensures s[k] != c { assert s[k] == b[k - |a| - 1]; }
  }

  lemma FirstIndex(a: string, c: char, b: string)
    requires Free(c, a)
    ensures IndexByte(a + [c] + b, c) == |a|
  {
    OnlyBehind(a, c, b);
  }

  lemma LastIndex(a: string, c: char, b: string)
    requires Free(c, b)
    ensures LastIndexByte(a + [c] + b, c) == |a|
  {
    OnlyBefore(a, c, b);
  }

  lemma LastIsLatest(s: string, c: char, k: nat)
    requires k < |s| && s[k] == c
    ensures k <= LastIndexByte(s, c)
  {}

  lemma FirstParen(a: string, comm: string, b: string)
    requires Free('(', a)
    ensures IndexByte(a + ['('] + comm + [')'] + b, '(') == |a|
  {
    Regroup(a, '(', comm, ')', b);
    FirstIndex(a, '(', comm + [')'] + b);
  }

  lemma LastParen(a: string, comm: string, b: string)
    requires Free(')', b)
    ensures LastIndexByte(a + ['('] + comm + [')'] + b, ')') == |a| + 1 + |comm|
  {
    LastIndex(a + ['('] + comm, ')', b);
  }

  lemma CutAt(line: string, first: nat, last: nat)
    requires IndexByte(line, '(') == first && LastIndexByte(line, ')') == last && first < last
    ensures CutAtParens(line) == Some(Cut(line[..first], line[first + 1..last], line[last + 1..]))
  {}

  /** Nothing behind the last ')' and nothing in front of the first '(' can disturb the cut. */
  lemma CutIsExact(a: string, comm: string, b: string)
    requires Free('(', a) && Free(')', b)
    ensures CutAtParens(a + ['('] + comm + [')'] + b) == Some(Cut(a, comm, b))
  {
    FirstParen(a, comm, b);
    LastParen(a, comm, b);
    CutAt(a + ['('] + comm + [')'] + b, |a|, |a| + 1 + |comm|);
    Pieces(a, '(', comm, ')', b);
  }

  lemma Regroup(a: string, x: char, m: string, y: char, b: string)
    ensures a + [x] + m + [y] + b == a + [x] + (m + [y] + b)
  {}

  lemma Pieces(a: string, x: char, m: string, y: char, b: string)
    ensures var s := a + [x] + m + [y] + b;
      s[..|a|] == a && s[|a| + 1..|a| + 1 + |m|] == m && s[|a| + 1 + |m| + 1..] == b
  {}

  /** A later ')' always makes the command name too long. */
  lemma CutIsTooLong(a: string, comm: string, b: string)
    requires Free('(', a) && !Free(')', b)
    ensures CutAtParens(a + ['('] + comm + [')'] + b).Some?
    ensures |CutAtParens(a + ['('] + comm + [')'] + b).value.comm| > |comm|
  {
    var line := a + ['('] + comm + [')'] + b;
    assert line == a + ['('] + (comm + [')'] + b);
    FirstIndex(a, '(', comm + [')'] + b);
    var k :| 0 <= k < |b| && b[k] == ')';
    assert line[|a| + |comm| + 2 + k] == ')';
    LastIsLatest(line, ')', |a| + |comm| + 2 + k);
  }

  /** A line that starts and ends with a visible character loses only its newline. */
  lemma TrimLine(s: string)
    requires s != "" && !IsSpace(s[0]) && !IsSpace(s[|s| - 1])
    ensures TrimSpace(s + "\n") == s
  {
    assert (s + "\n")[0] == s[0];
    TrimRightDrops(s, "\n");
  }

  lemma TrimPID(pid: int)
    ensures TrimSpace(DecInt(pid) + " ") == DecInt(pid)
  {
    DecIsWord(pid);
    var s := DecInt(pid);
    assert (s + " ")[0] == s[0];
    TrimRightDrops(s, " ");
  }

  lemma TrimPrinted(pid: int, comm: string, fields: seq<string>)
    requires |fields| > 0 && AllWords(fields)
    ensures TrimSpace(Print(pid, comm, fields)) == Line(pid, comm, fields)
  {
    var line := Line(pid, comm, fields);
    DecIsWord(pid);
    TailEnds(fields);
    assert line[0] == DecInt(pid)[0];
    assert line[|line| - 1] == Tail(fields)[|Tail(fields)| - 1];
    TrimLine(line);
  }

  /**
    Parsing undoes printing for every command name, hostile ones included, as long as the
    fields behind it contain no ')'.
  */
  lemma ParsePrinted(pid: int, comm: string, fields: seq<string>, expectedPID: int, pageSize: nat)
    requires -MAX_INT - 1 <= pid <= MAX_INT && AllWords(fields) && |fields| >= 22 && NoParen(fields)
    ensures Parse(Print(pid, comm, fields), expectedPID, pageSize)
      == if expectedPID > 0 && pid != expectedPID then None else Some(FromFields(pid, comm, fields, pageSize))
  {
    TrimPrinted(pid, comm, fields);
    ParenInTail(fields);
    CutIsExact(DecInt(pid) + " ", comm, Tail(fields));
    InterpretCut(pid, comm, fields, expectedPID, pageSize);
  }

  lemma InterpretCut(pid: int, comm: string, fields: seq<string>, expectedPID: int, pageSize: nat)
    requires -MAX_INT - 1 <= pid <= MAX_INT && AllWords(fields) && |fields| >= 22
    ensures Interpret(Cut(DecInt(pid) + " ", comm, Tail(fields)), expectedPID, pageSize)
      == if expectedPID > 0 && pid != expectedPID then None else Some(FromFields(pid, comm, fields, pageSize))
  {
    TrimPID(pid);
    AtoiRoundTrip(pid);
    FieldsOfTail(fields);
  }

  /** With a ')' further on, whatever is parsed has the wrong command name. */
  lemma ParenSpoilsComm(pid: int, comm: string, fields: seq<string>, expectedPID: int, pageSize: nat)
    requires AllWords(fields) && |fields| >= 22 && !NoParen(fields)
    ensures var r := Parse(Print(pid, comm, fields), expectedPID, pageSize); r.Some? ==> r.value.comm != comm
  {
    TrimPrinted(pid, comm, fields);
    ParenInTail(fields);
    CutIsTooLong(DecInt(pid) + " ", comm, Tail(fields));
    var cut := CutAtParens(Line(pid, comm, fields)).value;
    InterpretKeepsComm(cut, expectedPID, pageSize);
  }

  lemma InterpretKeepsComm(cut: Cut, expectedPID: int, pageSize: nat)
    ensures Interpret(cut, expectedPID, pageSize).Some? ==> Interpret(cut, expectedPID, pageSize).value.comm == cut.comm
  {}

  /** So the command name is recovered exactly when no later field contains ')'. */
  lemma CommRecoveredIff(pid: int, comm: string, fields: seq<string>, pageSize: nat)
    requires -MAX_INT - 1 <= pid <= MAX_INT && AllWords(fields) && |fields| >= 22
    ensures var r := Parse(Print(pid, comm, fields), pid, pageSize);
      (r.Some? && r.value.pid == pid && r.value.comm == comm) <==> NoParen(fields)
  {
    if NoParen(fields) {
      ParsePrinted(pid, comm, fields, pid, pageSize);
    } else {
      ParenSpoilsComm(pid, comm, fields, pid, pageSize);
    }
  }

  /** Every number the parser keeps is the number that was printed, over the field's whole range. */
  lemma NumbersRecovered(
    pid: int, comm: string, fields: seq<string>, pageSize: nat,
    state: char, ppid: int, utime: nat, stime: nat, threads: int, rss: nat, policy: int)
    requires -MAX_INT - 1 <= pid <= MAX_INT && AllWords(fields) && |fields| > 38 && NoParen(fields)
    requires fields[0] == [state] && fields[1] == DecInt(ppid) && fields[11] == Dec(utime) && fields[12] == Dec(stime)
    requires fields[17] == DecInt(threads) && fields[21] == Dec(rss) && fields[38] == DecInt(policy)
    requires -MAX_INT - 1 <= ppid <= MAX_INT && utime <= MAX_UINT && stime <= MAX_UINT && rss <= MAX_UINT
    requires -MAX_INT - 1 <= threads <= MAX_INT && -MAX_INT - 1 <= policy <= MAX_INT && rss * pageSize < U64
    ensures Parse(Print(pid, comm, fields), pid, pageSize)
         == Some(StatInfo(pid, comm, state, ppid, utime, stime, threads, rss * pageSize, policy))
  {
    ParsePrinted(pid, comm, fields, pid, pageSize);
    FieldValues(fields, pid, comm, pageSize, state, ppid, utime, stime, threads, rss, policy);
  }

  lemma FieldValues(
    fields: seq<string>, pid: int, comm: string, pageSize: nat,
    state: char, ppid: int, utime: nat, stime: nat, threads: int, rss: nat, policy: int)
    requires |fields| > 38
    requires fields[0] == [state] && fields[1] == DecInt(ppid) && fields[11] == Dec(utime) && fields[12] == Dec(stime)
    requires fields[17] == DecInt(threads) && fields[21] == Dec(rss) && fields[38] == DecInt(policy)
    requires -MAX_INT - 1 <= ppid <= MAX_INT && utime <= MAX_UINT && stime <= MAX_UINT && rss <= MAX_UINT
    requires -MAX_INT - 1 <= threads <= MAX_INT && -MAX_INT - 1 <= policy <= MAX_INT && rss * pageSize < U64
    ensures FromFields(pid, comm, fields, pageSize)
         == StatInfo(pid, comm, state, ppid, utime, stime, threads, rss * pageSize, policy)
  {
    AtoiRoundTrip(ppid);
    AtoiRoundTrip(threads);
    AtoiRoundTrip(policy);
    ParseUintRoundTrip(utime);
    ParseUintRoundTrip(stime);
    ParseUintRoundTrip(rss);
    BytesFit(rss, pageSize);
  }

  lemma BytesFit(pages: nat, pageSize: nat)
    requires pages * pageSize < U64
    ensures Bytes(pages, pageSize) == pages * pageSize
  {}

  // ---------------------------------------------------------------- What is refused

  /** A line without both parentheses, or with all ')' in front of the first '(', is refused. */
  lemma NoParensRefused(text: string, expectedPID: int, pageSize: nat)
    requires var line := TrimSpace(text);
      Free('(', line) || Free(')', line) || LastIndexByte(line, ')') <= IndexByte(line, '(')
    ensures Parse(text, expectedPID, pageSize) == None
  {}

  /** So is one with fewer than 22 fields behind the command name, and one whose PID is no number. */
  lemma ShortOrNamelessRefused(cut: Cut, expectedPID: int, pageSize: nat)
    requires |Fields(cut.after)| < 22 || !Atoi(TrimSpace(cut.before)).ok
    ensures Interpret(cut, expectedPID, pageSize) == None
  {}

  /** A line that ends before the policy field has policy zero. */
  lemma ShortLineHasNoPolicy(pid: int, comm: string, fields: seq<string>, pageSize: nat)
    requires 22 <= |fields| <= 38
    ensures FromFields(pid, comm, fields, pageSize).policy == 0
  {}

}
