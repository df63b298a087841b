/** /proc/locks: waiters are matched to holders through one map shared by two kinds of key. */
module Locks {
  import opened Wrappers
  import opened Sorting
  import opened Text

  datatype BlockedFileLock = BlockedFileLock(blockedPID: int, holderPID: int, lockType: string, deviceInode: string)
  datatype FileLocksInfo = FileLocksInfo(totalLocks: nat, blockedLocks: seq<BlockedFileLock>)

  /** What one line says. */
  datatype Entry =
    | Unreadable
    | Granted(lockID: string, deviceInode: string, pid: int)
    | Blocked(lockID: string, deviceInode: string, pid: int, lockType: string)

  function ParseFields(fields: seq<string>): Entry {
    if |fields| < 5 then Unreadable
    else
      var arrow := fields[1] == "->";
      var glued := !arrow && Contains(fields[0], "->");
      var lockID := if glued then TrimSuffix(DropPair(fields[0], '-', '>'), ":") else TrimSuffix(fields[0], ":");
      var offset := if arrow then 2 else 1;
      if |fields| <= offset + 4 then Unreadable
      else
        var pid := Atoi(fields[offset + 3]);
        if !pid.ok then Unreadable
        else if arrow || glued then Blocked(lockID, fields[offset + 4], pid.value, fields[offset])
        else Granted(lockID, fields[offset + 4], pid.value)
  }

  function ParseLine(line: string): Entry { ParseFields(Fields(line)) }

  /** A blank line says nothing. */
  function Noted(raw: string): seq<Entry> {
    var line := TrimSpace(raw);
    if line == "" then [] else [ParseLine(line)]
  }

  function Entries(lines: seq<string>): seq<Entry> {
    if lines == [] then [] else Entries(lines[..|lines| - 1]) + Noted(lines[|lines| - 1])
  }

  /** A granted line writes both of its keys, the inode last. */
  function Record(m: map<string, int>, e: Entry): map<string, int> {
    if e.Granted? then m[e.lockID := e.pid][e.deviceInode := e.pid] else m
  }

  /** The shared map after these entries. */
  function Holders(es: seq<Entry>): map<string, int> {
    if es == [] then map[] else Record(Holders(es[..|es| - 1]), es[|es| - 1])
  }

  /** A missing key reads as zero. */
  function Lookup(m: map<string, int>, key: string): int { if key in m then m[key] else 0 }

  function HolderOf(es: seq<Entry>, id: string, inode: string): int {
    var byID := Lookup(Holders(es), id);
    if byID == 0 then Lookup(Holders(es), inode) else byID
  }

  /** What an entry adds to the report, given the entries before it. */
  function Waiter(before: seq<Entry>, e: Entry): seq<BlockedFileLock> {
    if e.Blocked?
    then [BlockedFileLock(e.pid, HolderOf(before, e.lockID, e.deviceInode), e.lockType, e.deviceInode)]
    else []
  }

  function BlockedLocks(es: seq<Entry>): seq<BlockedFileLock> {
    if es == [] then []
    else BlockedLocks(es[..|es| - 1]) + Waiter(es[..|es| - 1], es[|es| - 1])
  }

  lemma EntriesStep(lines: seq<string>, i: nat)
    requires i < |lines|
    ensures Entries(lines[..i + 1]) == Entries(lines[..i]) + Noted(lines[i])
  {
    assert lines[..i + 1][..i] == lines[..i];
  }

  /** What one parsed line does to the map and to the report, which so far reflect es. */
  method ApplyEntry(e: Entry, holders: map<string, int>, info: FileLocksInfo, ghost es: seq<Entry>)
    returns (holders': map<string, int>, info': FileLocksInfo)
    requires holders == Holders(es) && info.blockedLocks == BlockedLocks(es)
    ensures holders' == Holders(es + [e])
    ensures info' == FileLocksInfo(info.totalLocks, BlockedLocks(es + [e]))
  {
    holders', info' := holders, info;
    match e {
      case Unreadable =>
      case Granted(id, inode, pid) =>
        holders' := holders'[id := pid];
        holders' := holders'[inode := pid];
      case Blocked(id, inode, pid, kind) =>
        var holder := if id in holders then holders[id] else 0;
        if holder == 0 {
          holder := if inode in holders then holders[inode] else 0;
        }
        info' := info.(blockedLocks := info.blockedLocks + [BlockedFileLock(pid, holder, kind, inode)]);
    }
  }

  ghost predicate Reflects(holders: map<string, int>, info: FileLocksInfo, es: seq<Entry>) {
    holders == Holders(es) && info == FileLocksInfo(|es|, BlockedLocks(es))
  }

  method ScanLine(raw: string, holders: map<string, int>, info: FileLocksInfo, ghost es: seq<Entry>)
    returns (holders': map<string, int>, info': FileLocksInfo)
    requires Reflects(holders, info, es)
    ensures Reflects(holders', info', es + Noted(raw))
  {
    holders', info' := holders, info;
    var line := TrimSpace(raw);
    if line == "" {
      assert es + [] == es;
      return;
    }
    info' := info'.(totalLocks := info'.totalLocks + 1);
    holders', info' := ApplyEntry(ParseLine(line), holders', info', es);
  }

  method ParseFileLocks(lines: seq<string>) returns (info: FileLocksInfo)
    ensures info == FileLocksInfo(|Entries(lines)|, BlockedLocks(Entries(lines)))
  {
    var holders: map<string, int> := map[];
    info := FileLocksInfo(0, []);
    ghost var es: seq<Entry> := [];
    for i := 0 to |lines|
      invariant es == Entries(lines[..i]) && Reflects(holders, info, es)
    {
      holders, info := ScanLine(lines[i], holders, info, es);
      es := es + Noted(lines[i]);
      EntriesStep(lines, i);
    }
    assert lines[..|lines|] == lines;
  }

  // ---------------------------------------------------------------- Who the holder is

  predicate GrantsID(e: Entry, id: string) { e.Granted? && e.lockID == id }
  predicate GrantsInode(e: Entry, inode: string) { e.Granted? && e.deviceInode == inode }

  /** The holder recorded by the latest entry that satisfies p; 0 if there is none. */
  ghost predicate IsLatest(es: seq<Entry>, p: Entry -> bool, pid: int) {
    if forall k :: 0 <= k < |es| ==> !p(es[k]) then pid == 0
    else exists i :: IsLatestAt(es, p, i) && es[i].Granted? && es[i].pid == pid
  }

  ghost predicate IsLatestAt(es: seq<Entry>, p: Entry -> bool, i: int) {
    0 <= i < |es| && p(es[i]) && forall k :: i < k < |es| ==> !p(es[k])
  }

  function LatestPID(es: seq<Entry>, p: Entry -> bool): int {
    if es == [] then 0
    else if p(es[|es| - 1]) && es[|es| - 1].Granted? then es[|es| - 1].pid
    else LatestPID(es[..|es| - 1], p)
  }

  lemma {:induction false} LatestPIDIsLatest(es: seq<Entry>, p: Entry -> bool)
    requires forall e :: p(e) ==> e.Granted?
    ensures IsLatest(es, p, LatestPID(es, p))
  {
    if es != [] {
      var n := |es| - 1;
      if p(es[n]) {
        assert IsLatestAt(es, p, n);
      } else {
        LatestPIDIsLatest(es[..n], p);
        if i :| IsLatestAt(es[..n], p, i) && es[..n][i].pid == LatestPID(es, p) {
          assert IsLatestAt(es, p, i);
        }
        assert forall k :: 0 <= k < n ==> es[k] == es[..n][k];
      }
    }
  }

  predicate Writes(e: Entry, key: string) { GrantsID(e, key) || GrantsInode(e, key) }

  /** In general a key holds the PID of the latest granted line that names it either way. */
  lemma {:induction false} SharedMap(es: seq<Entry>, key: string)
    ensures Lookup(Holders(es), key) == LatestPID(es, e => Writes(e, key))
  {
    if es != [] {
      SharedMap(es[..|es| - 1], key);
    }
  }

  ghost predicate IsInode(key: string) { !Free(':', key) }

  /** Lock IDs contain no colon, device:inode keys do. */
  ghost predicate KeysApart(es: seq<Entry>) {
    forall i :: 0 <= i < |es| && es[i].Granted? ==> !IsInode(es[i].lockID) && IsInode(es[i].deviceInode)
  }

  lemma {:induction false} SameLatest(es: seq<Entry>, p: Entry -> bool, q: Entry -> bool)
    requires forall i :: 0 <= i < |es| ==> (p(es[i]) <==> q(es[i]))
    ensures LatestPID(es, p) == LatestPID(es, q)
  {
    if es != [] { SameLatest(es[..|es| - 1], p, q); }
  }

  /** While the two kinds of key stay apart, sharing one map is as good as keeping two. */
  lemma SharingIsSound(es: seq<Entry>, id: string, inode: string)
    requires KeysApart(es) && !IsInode(id) && IsInode(inode)
    ensures Lookup(Holders(es), id) == LatestPID(es, e => GrantsID(e, id))
    ensures Lookup(Holders(es), inode) == LatestPID(es, e => GrantsInode(e, inode))
  {
    SharedMap(es, id);
    SharedMap(es, inode);
    SameLatest(es, e => Writes(e, id), e => GrantsID(e, id));
    SameLatest(es, e => Writes(e, inode), e => GrantsInode(e, inode));
  }

  /**
    A waiter's holder is that of the latest earlier grant of its lock ID, or if that is
    missing or zero, of the latest earlier grant on its device:inode.
  */
  lemma HolderIsLatestGrant(es: seq<Entry>, id: string, inode: string)
    requires KeysApart(es) && !IsInode(id) && IsInode(inode)
    ensures var byID, byInode := LatestPID(es, e => GrantsID(e, id)), LatestPID(es, e => GrantsInode(e, inode));
      && IsLatest(es, e => GrantsID(e, id), byID)
      && IsLatest(es, e => GrantsInode(e, inode), byInode)
      && HolderOf(es, id, inode) == (if byID == 0 then byInode else byID)
  {
    SharingIsSound(es, id, inode);
    LatestPIDIsLatest(es, e => GrantsID(e, id));
    LatestPIDIsLatest(es, e => GrantsInode(e, inode));
  }

  /** Were a lock ID ever spelled like an inode, a waiter could be blamed on the wrong process. */
  lemma SharingNeedsApartKeys()
    ensures var es := [Granted("8:1:5", "8:1:9", 10)];
      LatestPID(es, e => GrantsInode(e, "8:1:5")) == 0 && HolderOf(es, "7", "8:1:5") == 10
  {
    var es := [Granted("8:1:5", "8:1:9", 10)];
    assert es[..0] == [];
  }

  // ---------------------------------------------------------------- Files the kernel writes

  /** One lock: held, or waited for by pid. Locks with one id belong together. */
  datatype KernelLock = KernelLock(
    id: nat, waiting: bool, kind: string, mode: string, access: string, pid: int, inode: string, rest: seq<string>)

  ghost predicate IsKernelLock(l: KernelLock) {
    && IsWord(l.kind) && IsWord(l.mode) && IsWord(l.access) && IsWord(l.inode) && AllWords(l.rest)
    && -MAX_INT - 1 <= l.pid <= MAX_INT && l.kind != "->" && IsInode(l.inode)
  }

  function Words(l: KernelLock): seq<string> {
    if l.waiting then [Dec(l.id) + ":", "->", l.kind, l.mode, l.access, DecInt(l.pid), l.inode] + l.rest
    else [Dec(l.id) + ":", l.kind, l.mode, l.access, DecInt(l.pid), l.inode] + l.rest
  }

  function EntryOf(l: KernelLock): Entry {
    if l.waiting then Blocked(Dec(l.id), l.inode, l.pid, l.kind) else Granted(Dec(l.id), l.inode, l.pid)
  }

  /** The kernel's line for a granted lock, and the one for a waiter on it. */
  lemma GrantedLine(id: string, kind: string, mode: string, access: string, pid: int, inode: string, rest: seq<string>)
    requires -MAX_INT - 1 <= pid <= MAX_INT && kind != "->" && !Contains(id + ":", "->")
    ensures ParseFields([id + ":", kind, mode, access, DecInt(pid), inode] + rest) == Granted(id, inode, pid)
  {
    AtoiRoundTrip(pid);
    var fields := [id + ":", kind, mode, access, DecInt(pid), inode] + rest;
    assert fields[0] == id + ":" && fields[1] == kind && fields[4] == DecInt(pid) && fields[5] == inode;
  }

  lemma BlockedLine(id: string, kind: string, mode: string, access: string, pid: int, inode: string, rest: seq<string>)
    requires -MAX_INT - 1 <= pid <= MAX_INT
    ensures ParseFields([id + ":", "->", kind, mode, access, DecInt(pid), inode] + rest)
         == Blocked(id, inode, pid, kind)
  {
    AtoiRoundTrip(pid);
    var fields := [id + ":", "->", kind, mode, access, DecInt(pid), inode] + rest;
    assert fields[0] == id + ":" && fields[1] == "->" && fields[2] == kind;
    assert fields[5] == DecInt(pid) && fields[6] == inode;
  }

  lemma {:induction false} DropArrow(s: string)
    requires Free('-', s)
    ensures Contains(s + "->", "->") && DropPair(s + "->", '-', '>') == s
  {
    if s == "" {
      assert DropPair("->", '-', '>') == DropPair("->"[2..], '-', '>');
    } else {
      assert (s + "->")[1..] == s[1..] + "->";
      DropArrow(s[1..]);
    }
  }

  /** A waiter's arrow may also be glued to the lock ID. */
  lemma GluedLine(id: string, kind: string, mode: string, access: string, pid: int, inode: string, rest: seq<string>)
    requires -MAX_INT - 1 <= pid <= MAX_INT && kind != "->" && Free('-', id)
    ensures ParseFields([id + ":->", kind, mode, access, DecInt(pid), inode] + rest) == Blocked(id, inode, pid, kind)
  {
    AtoiRoundTrip(pid);
    DropArrow(id + ":");
    assert id + ":->" == id + ":" + "->";
    var fields := [id + ":->", kind, mode, access, DecInt(pid), inode] + rest;
    assert fields[0] == id + ":->" && fields[1] == kind && fields[4] == DecInt(pid) && fields[5] == inode;
  }

  /** A line with too few fields, or whose PID field is no number, is counted and otherwise ignored. */
  lemma MalformedLine(fields: seq<string>)
    requires
      || |fields| < 6
      || (fields[1] != "->" && !Atoi(fields[4]).ok)
      || (fields[1] == "->" && (|fields| < 7 || !Atoi(fields[5]).ok))
    ensures ParseFields(fields) == Unreadable
  {}

  lemma {:induction false} NoArrow(s: string)
    requires Free('>', s)
    ensures !Contains(s, "->")
  {
    assert |s| >= 2 ==> s[1] != "->"[1];
    if s != "" {
      NoArrow(s[1..]);
    }
  }

  lemma FieldsOfKernelLock(l: KernelLock)
    requires IsKernelLock(l)
    ensures ParseFields(Words(l)) == EntryOf(l)
  {
    if l.waiting {
      BlockedLine(Dec(l.id), l.kind, l.mode, l.access, l.pid, l.inode, l.rest);
    } else {
      NoArrow(Dec(l.id) + ":");
      GrantedLine(Dec(l.id), l.kind, l.mode, l.access, l.pid, l.inode, l.rest);
    }
  }

  /** A line that shows l, with any white space before, between and behind its words. */
  ghost predicate Shows(line: string, l: KernelLock) {
    exists gaps, tail :: SpreadOver(gaps, Words(l), tail, line)
  }

  ghost predicate SpreadOver(gaps: seq<string>, ws: seq<string>, tail: string, line: string) {
    |gaps| == |ws| > 0 && Separated(gaps) && AllSpace(tail) && line == Spread(gaps, ws) + tail
  }

  /** A line is blank or shows a lock. */
  ghost predicate LineShows(line: string, shown: Option<KernelLock>) {
    match shown
    case None => AllSpace(line)
    case Some(l) => IsKernelLock(l) && Shows(line, l)
  }

  ghost predicate ShowsAll(lines: seq<string>, shown: seq<Option<KernelLock>>) {
    |lines| == |shown| && forall i :: 0 <= i < |lines| ==> LineShows(lines[i], shown[i])
  }

  /** The locks of a file without its blank lines. */
  function Shown(shown: seq<Option<KernelLock>>): seq<KernelLock> {
    if shown == [] then []
    else
      var last := shown[|shown| - 1];
      Shown(shown[..|shown| - 1]) + (if last.Some? then [last.value] else [])
  }

  lemma {:induction false} SpreadEnds(gaps: seq<string>, ws: seq<string>)
    requires |gaps| == |ws| > 0 && AllWords(ws)
    ensures Spread(gaps, ws) != "" && !IsSpace(Spread(gaps, ws)[|Spread(gaps, ws)| - 1])
  {
    assert IsWord(ws[0]);
    if |ws| == 1 {
      assert Spread(gaps, ws) == gaps[0] + ws[0];
    } else {
      assert forall i :: 0 <= i < |ws[1..]| ==> ws[1..][i] == ws[i + 1];
      SpreadEnds(gaps[1..], ws[1..]);
    }
  }

  /** The first gap is all that stands in front of the first word. */
  lemma SpreadFront(gaps: seq<string>, ws: seq<string>) returns (rest: seq<string>)
    requires |gaps| == |ws| > 0 && Separated(gaps) && AllWords(ws)
    ensures |rest| == |ws| && Separated(rest) && Spread(gaps, ws) == gaps[0] + Spread(rest, ws)
    ensures Spread(rest, ws) != "" && !IsSpace(Spread(rest, ws)[0])
  {
    rest := [""] + gaps[1..];
    var core := ws[0] + Spread(gaps[1..], ws[1..]);
    assert rest[1..] == gaps[1..];
    assert Spread(rest, ws) == "" + ws[0] + Spread(gaps[1..], ws[1..]) == core;
    assert Spread(gaps, ws) == gaps[0] + core;
    assert IsWord(ws[0]) && core[0] == ws[0][0];
  }

  lemma FieldsOfTrimmed(gaps: seq<string>, ws: seq<string>, tail: string)
    requires |gaps| == |ws| > 0 && Separated(gaps) && AllSpace(tail) && AllWords(ws)
    ensures Fields(TrimSpace(Spread(gaps, ws) + tail)) == ws
    ensures !AllSpace(Spread(gaps, ws) + tail)
  {
    var rest := SpreadFront(gaps, ws);
    var core := Spread(rest, ws);
    SpreadEnds(rest, ws);
    TrimSpaceDrops(gaps[0], core, tail);
    FieldsOfSpread(rest, ws, "");
    assert core + "" == core;
    BlankIffTrimmedAway(Spread(gaps, ws) + tail);
  }

  lemma LineShowsEntry(line: string, l: KernelLock)
    requires IsKernelLock(l) && Shows(line, l)
    ensures Noted(line) == [EntryOf(l)]
  {
    var gaps, tail :| SpreadOver(gaps, Words(l), tail, line);
    FieldsOfTrimmed(gaps, Words(l), tail);
    FieldsOfKernelLock(l);
    BlankIffTrimmedAway(line);
  }

  function EntriesOf(ls: seq<KernelLock>): (es: seq<Entry>)
    ensures |es| == |ls|
  {
    if ls == [] then [] else EntriesOf(ls[..|ls| - 1]) + [EntryOf(ls[|ls| - 1])]
  }

  function Flat(notes: seq<seq<Entry>>): seq<Entry> {
    if notes == [] then [] else Flat(notes[..|notes| - 1]) + notes[|notes| - 1]
  }

  lemma {:induction false} EntriesOfNotes(lines: seq<string>, notes: seq<seq<Entry>>)
    requires |notes| == |lines| && forall i :: 0 <= i < |lines| ==> notes[i] == Noted(lines[i])
    ensures Entries(lines) == Flat(notes)
  {
    if lines != [] {
      EntriesOfNotes(lines[..|lines| - 1], notes[..|lines| - 1]);
    }
  }

  function NoteOf(shown: Option<KernelLock>): seq<Entry> {
    match shown case None => [] case Some(l) => [EntryOf(l)]
  }

  lemma {:induction false} NotesOfShown(notes: seq<seq<Entry>>, shown: seq<Option<KernelLock>>)
    requires |notes| == |shown| && forall i :: 0 <= i < |notes| ==> notes[i] == NoteOf(shown[i])
    ensures Flat(notes) == EntriesOf(Shown(shown))
  {
    if notes != [] {
      var n := |notes| - 1;
      NotesOfShown(notes[..n], shown[..n]);
      var front := Shown(shown[..n]);
      if shown[n].Some? {
        assert Shown(shown)[..|front|] == front;
      } else {
        assert front + [] == front && Flat(notes[..n]) + [] == Flat(notes[..n]);
      }
    }
  }

  lemma LineNote(line: string, shown: Option<KernelLock>)
    requires LineShows(line, shown)
    ensures Noted(line) == NoteOf(shown)
  {
    if shown.Some? { LineShowsEntry(line, shown.value); } else { BlankIffTrimmedAway(line); }
  }

  lemma FileShowsEntries(lines: seq<string>, shown: seq<Option<KernelLock>>)
    requires ShowsAll(lines, shown)
    ensures Entries(lines) == EntriesOf(Shown(shown))
  {
    var notes := seq(|lines|, i requires 0 <= i < |lines| => NoteOf(shown[i]));
    forall i | 0 <= i < |lines| ensures notes[i] == Noted(lines[i]) { LineNote(lines[i], shown[i]); }
    EntriesOfNotes(lines, notes);
    NotesOfShown(notes, shown);
  }

  lemma {:induction false} ShownAreKernelLocks(lines: seq<string>, shown: seq<Option<KernelLock>>)
    requires ShowsAll(lines, shown)
    ensures forall i :: 0 <= i < |Shown(shown)| ==> IsKernelLock(Shown(shown)[i])
  {
    if shown != [] {
      var n := |shown| - 1;
      assert LineShows(lines[n], shown[n]);
      ShownAreKernelLocks(lines[..n], shown[..n]);
    }
  }

  /** The PID on the latest lock that satisfies p, 0 if there is none. */
  function LatestHolder(ls: seq<KernelLock>, p: KernelLock -> bool): int {
    if ls == [] then 0
    else if p(ls[|ls| - 1]) then ls[|ls| - 1].pid
    else LatestHolder(ls[..|ls| - 1], p)
  }

  function Holder(before: seq<KernelLock>, waiter: KernelLock): int {
    var sameLock := LatestHolder(before, (l: KernelLock) => !l.waiting && l.id == waiter.id);
    if sameLock != 0 then sameLock
    else LatestHolder(before, (l: KernelLock) => !l.waiting && l.inode == waiter.inode)
  }

  /** Every waiter in file order, next to the process it waits for. */
  function Waiters(ls: seq<KernelLock>): seq<BlockedFileLock> {
    if ls == [] then []
    else
      var before, l := ls[..|ls| - 1], ls[|ls| - 1];
      Waiters(before) + if l.waiting then [BlockedFileLock(l.pid, Holder(before, l), l.kind, l.inode)] else []
  }

  /** The holder is whoever is on the last lock that qualifies, or nobody. */
  lemma {:induction false} LatestHolderIsLast(ls: seq<KernelLock>, p: KernelLock -> bool, i: nat)
    requires i < |ls| && p(ls[i]) && forall k :: i < k < |ls| ==> !p(ls[k])
    ensures LatestHolder(ls, p) == ls[i].pid
  {
    if i < |ls| - 1 { LatestHolderIsLast(ls[..|ls| - 1], p, i); }
  }

  lemma {:induction false} NoHolder(ls: seq<KernelLock>, p: KernelLock -> bool)
    requires forall i :: 0 <= i < |ls| ==> !p(ls[i])
    ensures LatestHolder(ls, p) == 0
  {
    if ls != [] { NoHolder(ls[..|ls| - 1], p); }
  }

  /** Every waiter has one line of the report, in file order, with its own PID, kind and file. */
  lemma {:induction false} WaiterAt(ls: seq<KernelLock>, i: nat)
    requires i < |ls| && ls[i].waiting
    ensures |Waiters(ls[..i])| < |Waiters(ls)|
    ensures var w := Waiters(ls)[|Waiters(ls[..i])|];
      && w.blockedPID == ls[i].pid && w.lockType == ls[i].kind && w.deviceInode == ls[i].inode
      && w.holderPID == Holder(ls[..i], ls[i])
  {
    var n := |ls| - 1;
    if i < n {
      WaiterAt(ls[..n], i);
      assert ls[..n][..i] == ls[..i];
    }
  }

  function Waiting(): KernelLock -> bool { (l: KernelLock) => l.waiting }

  lemma {:induction false} WaitersAreAll(ls: seq<KernelLock>)
    ensures |Waiters(ls)| == |Filter(Waiting(), ls)|
  {
    if ls != [] { WaitersAreAll(ls[..|ls| - 1]); }
  }

  lemma DecInjective(m: nat, n: nat)
    ensures Dec(m) == Dec(n) <==> m == n
  {
    DecRoundTrip(m);
    DecRoundTrip(n);
  }

  lemma {:induction false} LatestByID(ls: seq<KernelLock>, id: nat)
    ensures LatestPID(EntriesOf(ls), e => GrantsID(e, Dec(id)))
         == LatestHolder(ls, (l: KernelLock) => !l.waiting && l.id == id)
  {
    if ls != [] {
      var n := |ls| - 1;
      LatestByID(ls[..n], id);
      DecInjective(ls[n].id, id);
      assert EntriesOf(ls)[..n] == EntriesOf(ls[..n]);
    }
  }

  lemma {:induction false} LatestByInode(ls: seq<KernelLock>, inode: string)
    ensures LatestPID(EntriesOf(ls), e => GrantsInode(e, inode))
         == LatestHolder(ls, (l: KernelLock) => !l.waiting && l.inode == inode)
  {
    if ls != [] {
      var n := |ls| - 1;
      LatestByInode(ls[..n], inode);
      assert EntriesOf(ls)[..n] == EntriesOf(ls[..n]);
    }
  }

  lemma {:induction false} KernelKeysApart(ls: seq<KernelLock>)
    requires forall i :: 0 <= i < |ls| ==> IsKernelLock(ls[i])
    ensures KeysApart(EntriesOf(ls))
  {
    if ls != [] {
      var n := |ls| - 1;
      KernelKeysApart(ls[..n]);
      var es := EntriesOf(ls[..n]);
      forall i | 0 <= i < |EntriesOf(ls)| && EntriesOf(ls)[i].Granted?
        ensures !IsInode(EntriesOf(ls)[i].lockID) && IsInode(EntriesOf(ls)[i].deviceInode)
      {
        if i < n { assert EntriesOf(ls)[i] == es[i]; }
      }
    }
  }

  lemma HolderAgrees(before: seq<KernelLock>, l: KernelLock)
    requires IsKernelLock(l) && forall i :: 0 <= i < |before| ==> IsKernelLock(before[i])
    ensures HolderOf(EntriesOf(before), Dec(l.id), l.inode) == Holder(before, l)
  {
    KernelKeysApart(before);
    SharingIsSound(EntriesOf(before), Dec(l.id), l.inode);
    LatestByID(before, l.id);
    LatestByInode(before, l.inode);
  }

  lemma {:induction false} WaitersOfEntries(ls: seq<KernelLock>)
    requires forall i :: 0 <= i < |ls| ==> IsKernelLock(ls[i])
    ensures BlockedLocks(EntriesOf(ls)) == Waiters(ls)
  {
    if ls != [] {
      var n := |ls| - 1;
      WaitersOfEntries(ls[..n]);
      HolderAgrees(ls[..n], ls[n]);
    }
  }

  /**
    Whatever locks the kernel lists, among blank lines and with any white space, every waiter and
    no other lock is reported, in order, and its holder is the latest process seen holding that
    lock, else the same file.
  */
  lemma WaitersOfFile(lines: seq<string>, shown: seq<Option<KernelLock>>)
    requires ShowsAll(lines, shown)
    ensures |Entries(lines)| == |Shown(shown)| && BlockedLocks(Entries(lines)) == Waiters(Shown(shown))
  {
    FileShowsEntries(lines, shown);
    ShownAreKernelLocks(lines, shown);
    WaitersOfEntries(Shown(shown));
  }
}
