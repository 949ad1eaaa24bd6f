/** The hash-chained audit log: writer, recovery on reopening, checkpoint, verifier. */
module Audit {
  import opened Wrappers
  import opened Texts

  type Digest = string

  const GENESIS: Digest := "0000000000000000000000000000000000000000000000000000000000000000"

  /** The chained fields. A record may lack some of them. */
  datatype Field = Timestamp | Instance | FilePath | Operation | GrantId | Verdict | Why | Principal

  datatype Value = Text(text: string) | Number(n: nat) | Null

  type Fields = map<Field, Value>

  /** SHA-256 of the canonical chained payload, as an arbitrary function. */
  type Hash = Fields -> Digest

  /** One JSON object; keys other than the chained ones and the two hashes are extra. */
  datatype LogRecord = LogRecord(chained: Fields, prev: Option<Digest>, sha: Option<Digest>, extra: map<string, string>)

  datatype Line = Garbage | Entry(rec: LogRecord)

  datatype Head = Missing | Unreadable | At(sha: Digest, lines: nat)

  /** The log file (its non-blank lines) and the checkpoint beside it. */
  datatype Disk = Disk(file: Option<seq<Line>>, head: Head) {
    function Lines(): seq<Line> { file.GetOr([]) }
  }

  const BLANK_DISK := Disk(None, Missing)

  // --------------------------------------------------------------- verify_chain

  datatype Problem = NoFile | BadJson | PrevMismatch | HashMismatch | HeadUnreadable | HeadMismatch | CountMismatch

  datatype ChainResult = ChainResult(ok: bool, problem: Option<Problem>, lines: nat)

  function Broken(problem: Problem, lines: nat): ChainResult { ChainResult(false, Some(problem), lines) }

  /** What is wrong with one line, given the previous hash. */
  function LineProblem(h: Hash, line: Line, prev: Digest): Option<Problem> {
    if line.Garbage? then Some(BadJson)
    else if line.rec.prev != Some(prev) then Some(PrevMismatch)
    else if line.rec.sha != Some(h(line.rec.chained)) then Some(HashMismatch)
    else None
  }

  /** The walk from line i on: the last hash, or the first problem. */
  function Walk(h: Hash, lines: seq<Line>, i: nat, prev: Digest): Result<Digest, ChainResult>
    requires i <= |lines|
    decreases |lines| - i
  {
    if i == |lines| then Ok(prev)
    else
      var problem := LineProblem(h, lines[i], prev);
      if problem.Some? then Err(Broken(problem.value, i + 1))
      else Walk(h, lines, i + 1, lines[i].rec.sha.value)
  }

  function CheckHead(head: Head, last: Digest, n: nat): ChainResult {
    match head
    case Missing => ChainResult(true, None, n)
    case Unreadable => Broken(HeadUnreadable, 0)
    case At(sha, lines) =>
      if sha != last then Broken(HeadMismatch, 0)
      else if lines != n then Broken(CountMismatch, 0)
      else ChainResult(true, None, n)
  }

  function Verify(h: Hash, disk: Disk): ChainResult {
    if disk.file.None? then Broken(NoFile, 0)
    else
      match Walk(h, disk.file.value, 0, GENESIS)
      case Err(broken) => broken
      case Ok(last) => CheckHead(disk.head, last, |disk.file.value|)
  }

  /** verify_chain, walking the lines with the running hash. */
  method VerifyChain(h: Hash, disk: Disk) returns (r: ChainResult)
    ensures r == Verify(h, disk)
  {
    if disk.file.None? {
      return Broken(NoFile, 0);
    }
    var lines := disk.file.value;
    var prev := GENESIS;
    for i := 0 to |lines|
      invariant Walk(h, lines, i, prev) == Walk(h, lines, 0, GENESIS)
    {
      if lines[i].Garbage? {
        return Broken(BadJson, i + 1);
      }
      var rec := lines[i].rec;
      if rec.prev != Some(prev) {
        return Broken(PrevMismatch, i + 1);
      }
      var recomputed := h(rec.chained);
      if rec.sha != Some(recomputed) {
        return Broken(HashMismatch, i + 1);
      }
      prev := recomputed;
    }
    return CheckHead(disk.head, prev, |lines|);
  }

  // ------------------------------------------------ what the verifier accepts

  /** The hash stored in a line; a line without one ends the chain. */
  function StoredHash(line: Line): Digest {
    if line.Entry? then line.rec.sha.GetOr("") else ""
  }

  function PrevOf(lines: seq<Line>, i: nat): Digest
    requires i <= |lines|
  {
    if i == 0 then GENESIS else StoredHash(lines[i - 1])
  }

  function LastOf(lines: seq<Line>): Digest { PrevOf(lines, |lines|) }

  predicate LinkedAt(h: Hash, lines: seq<Line>, i: nat)
    requires i < |lines|
  {
    LineProblem(h, lines[i], PrevOf(lines, i)).None?
  }

  predicate Linked(h: Hash, lines: seq<Line>) { forall i | 0 <= i < |lines| :: LinkedAt(h, lines, i) }

  predicate HeadMatches(head: Head, lines: seq<Line>) { head == Missing || head == At(LastOf(lines), |lines|) }

  lemma {:induction false} WalkMeaning(h: Hash, lines: seq<Line>, i: nat)
    requires i <= |lines|
    ensures match Walk(h, lines, i, PrevOf(lines, i))
            case Ok(last) => last == LastOf(lines) && forall j | i <= j < |lines| :: LinkedAt(h, lines, j)
            case Err(broken) =>
              !broken.ok && i < broken.lines <= |lines| && !LinkedAt(h, lines, broken.lines - 1) &&
              forall j | i <= j < broken.lines - 1 :: LinkedAt(h, lines, j)
    decreases |lines| - i
  {
    if i < |lines| && LinkedAt(h, lines, i) {
      WalkMeaning(h, lines, i + 1);
    }
  }

  /** Accepted exactly when every line links to the one before it, every stored hash is
      the hash of its record, and the checkpoint, if there is one, names the last line;
      a broken line is reported at its first occurrence. */
  lemma VerifyMeaning(h: Hash, disk: Disk)
    ensures Verify(h, disk).ok <==>
            disk.file.Some? && Linked(h, disk.file.value) && HeadMatches(disk.head, disk.file.value)
    ensures Verify(h, disk).ok ==> Verify(h, disk).lines == |disk.Lines()|
    ensures disk.file.Some? && !Linked(h, disk.file.value) ==>
              var n := Verify(h, disk).lines;
              1 <= n <= |disk.file.value| && !LinkedAt(h, disk.file.value, n - 1) &&
              forall j | 0 <= j < n - 1 :: LinkedAt(h, disk.file.value, j)
  {
    if disk.file.Some? {
      WalkMeaning(h, disk.file.value, 0);
    }
  }

  // ------------------------------------------------- rearranged genuine lines

  predicate DistinctHashes(lines: seq<Line>) {
    forall i, j | 0 <= i < j < |lines| :: StoredHash(lines[i]) != StoredHash(lines[j])
  }

  /** Dropping, repeating or reordering genuine lines is noticed: beside the genuine
      checkpoint only the genuine log itself is accepted. */
  lemma SpliceRejected(h: Hash, genuine: seq<Line>, spliced: seq<Line>)
    requires DistinctHashes(genuine) && Linked(h, genuine)
    requires forall line | line in spliced :: line in genuine
    ensures Verify(h, Disk(Some(spliced), At(LastOf(genuine), |genuine|))).ok <==> spliced == genuine
  {
    var disk := Disk(Some(spliced), At(LastOf(genuine), |genuine|));
    VerifyMeaning(h, disk);
    if Verify(h, disk).ok {
      assert |spliced| == |genuine|;
      SuffixesAgree(h, genuine, spliced, 0);
      assert spliced[0..] == spliced && genuine[0..] == genuine;
    }
  }

  lemma {:induction false} SuffixesAgree(h: Hash, genuine: seq<Line>, spliced: seq<Line>, i: nat)
    requires DistinctHashes(genuine) && Linked(h, genuine) && Linked(h, spliced)
    requires forall line | line in spliced :: line in genuine
    requires |spliced| == |genuine| && LastOf(spliced) == LastOf(genuine)
    requires i <= |genuine|
    ensures spliced[i..] == genuine[i..]
    decreases |genuine| - i
  {
    if i < |genuine| {
      SuffixesAgree(h, genuine, spliced, i + 1);
      assert PrevOf(spliced, i + 1) == PrevOf(genuine, i + 1) by {
        if i + 1 < |genuine| {
          assert spliced[i + 1] == spliced[i + 1..][0] && genuine[i + 1] == genuine[i + 1..][0];
          assert LinkedAt(h, spliced, i + 1) && LinkedAt(h, genuine, i + 1);
        }
      }
      assert spliced[i] in spliced;
      var k :| 0 <= k < |genuine| && genuine[k] == spliced[i];
      assert k == i;
      assert spliced[i..] == [spliced[i]] + spliced[i + 1..];
      assert genuine[i..] == [genuine[i]] + genuine[i + 1..];
    }
  }

  // ----------------------------------------------------------- edited records

  ghost predicate Injective(h: Hash) { forall a, b :: h(a) == h(b) ==> a == b }

  /** The two lines agree on everything the chain can see. */
  predicate SameChained(a: Line, b: Line) {
    a.Entry? && b.Entry? && a.rec.chained == b.rec.chained && a.rec.prev == b.rec.prev && a.rec.sha == b.rec.sha
  }

  /** Only pairwise non-adjacent positions differ. */
  predicate NonAdjacentEdits(genuine: seq<Line>, edited: seq<Line>) {
    |edited| == |genuine| &&
    forall i | 0 <= i < |genuine| - 1 :: edited[i] == genuine[i] || edited[i + 1] == genuine[i + 1]
  }

  lemma EditSeenAt(h: Hash, genuine: seq<Line>, edited: seq<Line>, i: nat)
    requires Injective(h) && Linked(h, genuine) && Linked(h, edited) && NonAdjacentEdits(genuine, edited)
    requires LastOf(edited) == LastOf(genuine) && i < |genuine|
    ensures SameChained(edited[i], genuine[i])
  {
    assert LinkedAt(h, genuine, i) && LinkedAt(h, edited, i);
    if edited[i] != genuine[i] {
      var j := i - 1;
      assert i > 0 ==> edited[j] == genuine[j];
      if i + 1 < |genuine| {
        assert edited[i + 1] == genuine[i + 1];
        assert LinkedAt(h, genuine, i + 1) && LinkedAt(h, edited, i + 1);
      }
      assert StoredHash(edited[i]) == StoredHash(genuine[i]);
    }
  }

  /** Replacing any set of pairwise non-adjacent lines, with the other lines and the
      checkpoint untouched, is accepted exactly when every replacement agrees with the
      original on the chained fields and both hashes. */
  lemma EditRejected(h: Hash, genuine: seq<Line>, edited: seq<Line>)
    requires Injective(h) && Linked(h, genuine) && NonAdjacentEdits(genuine, edited)
    ensures Verify(h, Disk(Some(edited), At(LastOf(genuine), |genuine|))).ok <==>
            forall i | 0 <= i < |genuine| :: SameChained(edited[i], genuine[i])
  {
    var disk := Disk(Some(edited), At(LastOf(genuine), |genuine|));
    VerifyMeaning(h, disk);
    if Verify(h, disk).ok {
      forall i | 0 <= i < |genuine| ensures SameChained(edited[i], genuine[i]) {
        EditSeenAt(h, genuine, edited, i);
      }
    }
    if forall i | 0 <= i < |genuine| :: SameChained(edited[i], genuine[i]) {
      forall i | 0 <= i < |edited| ensures LinkedAt(h, edited, i) {
        assert LinkedAt(h, genuine, i) && SameChained(edited[i], genuine[i]);
        if i > 0 {
          assert SameChained(edited[i - 1], genuine[i - 1]);
        }
      }
      if genuine != [] {
        assert SameChained(edited[|genuine| - 1], genuine[|genuine| - 1]);
      }
    }
  }

  /** Why the positions must not be adjacent: prev is not part of a record's own hash,
      so a record and its successor's prev can change together. */
  lemma AdjacentPairCanPass(h: Hash, genuine: seq<Line>, i: nat, fields: Fields)
    requires Linked(h, genuine) && i + 1 < |genuine|
    requires genuine[i].Entry? && genuine[i + 1].Entry?
    ensures var first := Entry(genuine[i].rec.(chained := fields, sha := Some(h(fields))));
            var second := Entry(genuine[i + 1].rec.(prev := Some(h(fields))));
            Verify(h, Disk(Some(genuine[i := first][i + 1 := second]), At(LastOf(genuine), |genuine|))).ok
  {
    var first := Entry(genuine[i].rec.(chained := fields, sha := Some(h(fields))));
    var second := Entry(genuine[i + 1].rec.(prev := Some(h(fields))));
    var edited := genuine[i := first][i + 1 := second];
    forall j | 0 <= j < |edited| ensures LinkedAt(h, edited, j) {
      assert LinkedAt(h, genuine, j);
    }
    VerifyMeaning(h, Disk(Some(edited), At(LastOf(genuine), |genuine|)));
  }

  // ---------------------------------------------------------------- the writer

  /** How one write fares. A failed append writes nothing. A failed checkpoint leaves the
      old one, a torn one, or the complete new one (written but not confirmed). */
  datatype Io = AppendFails | HeadKept | HeadTorn | HeadUnconfirmed | Sound

  datatype RecordResult = SecretRefused | AppendFailed | CheckpointFailed | Recorded

  /** The disk with the writer's memory of the chain head. */
  datatype Writer = Writer(disk: Disk, prev: Digest, count: nat)

  /** What a caller asks to have recorded. */
  datatype Request = Request(
    instance: string, path: string, operation: string, grantId: Option<nat>, decision: string, reason: string,
    principal: Option<string>)

  predicate HoldsSecret(secrets: seq<string>, value: string) {
    exists s | s in secrets :: s != "" && Occurs(s, value)
  }

  predicate Tainted(secrets: seq<string>, q: Request) {
    HoldsSecret(secrets, q.instance) || HoldsSecret(secrets, q.path) || HoldsSecret(secrets, q.operation) ||
    HoldsSecret(secrets, q.decision) || HoldsSecret(secrets, q.reason)
  }

  function FieldsOf(q: Request, stamp: string): Fields {
    var base := map[Timestamp := Text(stamp), Instance := Text(q.instance), FilePath := Text(q.path),
                    Operation := Text(q.operation),
                    GrantId := if q.grantId.Some? then Number(q.grantId.value) else Null,
                    Verdict := Text(q.decision), Why := Text(q.reason)];
    if q.principal.Some? then base[Principal := Text(q.principal.value)] else base
  }

  function NewLine(h: Hash, w: Writer, fields: Fields): Line {
    Entry(LogRecord(fields, Some(w.prev), Some(h(fields)), map[]))
  }

  function NewHead(head: Head, sha: Digest, count: nat, io: Io): Head {
    match io
    case HeadKept => head
    case HeadTorn => Unreadable
    case _ => At(sha, count)
  }

  function Append(h: Hash, w: Writer, fields: Fields, io: Io): Writer {
    var sha := h(fields);
    Writer(Disk(Some(w.disk.Lines() + [NewLine(h, w, fields)]), NewHead(w.disk.head, sha, w.count + 1, io)),
           sha, w.count + 1)
  }

  function Record(h: Hash, secrets: seq<string>, w: Writer, q: Request, stamp: string, io: Io): (Writer, RecordResult) {
    if Tainted(secrets, q) then (w, SecretRefused)
    else if io.AppendFails? then (w, AppendFailed)
    else (Append(h, w, FieldsOf(q, stamp), io), if io.Sound? then Recorded else CheckpointFailed)
  }

  /** _load_last_hash: the chain head on reopening, or an unreadable tail. */
  function Recover(disk: Disk): Result<Writer, ()> {
    var lines := disk.Lines();
    if lines == [] then Ok(Writer(disk, GENESIS, 0))
    else
      var last := lines[|lines| - 1];
      if last.Garbage? || last.rec.sha.None? then Err(())
      else Ok(Writer(disk, last.rec.sha.value, |lines|))
  }

  // ---------------------------------------------------- runs of one log file

  datatype LogOp = Write(q: Request, stamp: string, io: Io) | Reopen

  function LogStep(h: Hash, secrets: seq<string>, w: Writer, op: LogOp): Writer {
    match op
    case Write(q, stamp, io) => Record(h, secrets, w, q, stamp, io).0
    case Reopen => match Recover(w.disk) case Ok(w') => w' case Err(_) => w
  }

  predicate Wrote(secrets: seq<string>, op: LogOp) { op.Write? && !Tainted(secrets, op.q) && !op.io.AppendFails? }

  function CountWrites(secrets: seq<string>, ops: seq<LogOp>): nat
    decreases |ops|
  {
    if ops == [] then 0
    else CountWrites(secrets, ops[..|ops| - 1]) + (if Wrote(secrets, ops[|ops| - 1]) then 1 else 0)
  }

  function LogAfter(h: Hash, secrets: seq<string>, ops: seq<LogOp>): Writer
    decreases |ops|
  {
    if ops == [] then Writer(BLANK_DISK, GENESIS, 0)
    else LogStep(h, secrets, LogAfter(h, secrets, ops[..|ops| - 1]), ops[|ops| - 1])
  }

  /** The checkpoint lags behind the file. */
  predicate Stale(w: Writer) {
    w.disk.head == Unreadable || (w.disk.head.At? && w.disk.head.lines < w.count)
  }

  /** The memory equals the file's last hash and line count, every line is linked, and a
      readable checkpoint is either current or older. */
  predicate WriterOk(h: Hash, w: Writer) {
    && Linked(h, w.disk.Lines())
    && w.prev == LastOf(w.disk.Lines()) && w.count == |w.disk.Lines()|
    && (w.count > 0 ==> w.disk.file.Some?)
    && (w.disk.head.At? ==>
          w.disk.head.lines <= w.count && (w.disk.head.lines == w.count ==> w.disk.head.sha == w.prev))
  }

  lemma AppendKeeps(h: Hash, w: Writer, fields: Fields, io: Io)
    requires WriterOk(h, w) && !io.AppendFails?
    ensures WriterOk(h, Append(h, w, fields, io))
    ensures w.disk.Lines() < Append(h, w, fields, io).disk.Lines()
    ensures !Stale(Append(h, w, fields, io)) <==>
            io.Sound? || io.HeadUnconfirmed? || (io.HeadKept? && w.disk.head == Missing)
  {
    var lines := w.disk.Lines();
    var lines' := Append(h, w, fields, io).disk.Lines();
    forall i | 0 <= i < |lines'| ensures LinkedAt(h, lines', i) {
      if i < |lines| {
        assert LinkedAt(h, lines, i);
        assert i > 0 ==> lines'[i - 1] == lines[i - 1];
      }
    }
  }

  /** What the verifier says of a log the writer produced: ok with the number of records,
      exactly unless the checkpoint lags. */
  lemma WriterVerdict(h: Hash, w: Writer)
    requires WriterOk(h, w) && w.disk.file.Some?
    ensures Verify(h, w.disk).ok <==> !Stale(w)
    ensures Verify(h, w.disk).ok ==> Verify(h, w.disk).lines == w.count
  {
    VerifyMeaning(h, w.disk);
  }

  lemma ReopenKeeps(h: Hash, w: Writer)
    requires WriterOk(h, w)
    ensures Recover(w.disk) == Ok(w)
  {
    if w.count > 0 {
      assert LinkedAt(h, w.disk.Lines(), w.count - 1);
    }
  }

  lemma LogStepKeeps(h: Hash, secrets: seq<string>, w: Writer, op: LogOp)
    requires WriterOk(h, w)
    ensures var w' := LogStep(h, secrets, w, op);
            && WriterOk(h, w') && w.disk.Lines() <= w'.disk.Lines()
            && w'.count == w.count + (if Wrote(secrets, op) then 1 else 0)
            && (!Wrote(secrets, op) ==> w' == w)
            && (Wrote(secrets, op) ==> w'.disk.file.Some? && (!Stale(w') <==>
                  op.io.Sound? || op.io.HeadUnconfirmed? || (op.io.HeadKept? && w.disk.head == Missing)))
  {
    match op
    case Write(q, stamp, io) =>
      if Wrote(secrets, op) {
        AppendKeeps(h, w, FieldsOf(q, stamp), io);
      }
    case Reopen => ReopenKeeps(h, w);
  }

  /** In every run of records (successful, refused, failed) and reopenings the memory
      equals the file, the file has one line per written record, and it verifies exactly
      unless the checkpoint lags. */
  lemma {:induction false} LogRuns(h: Hash, secrets: seq<string>, ops: seq<LogOp>)
    ensures var w := LogAfter(h, secrets, ops);
            && WriterOk(h, w) && w.count == CountWrites(secrets, ops)
            && (w.count > 0 ==> (Verify(h, w.disk).ok <==> !Stale(w)) &&
                                (Verify(h, w.disk).ok ==> Verify(h, w.disk).lines == CountWrites(secrets, ops)))
    decreases |ops|
  {
    if ops != [] {
      LogRuns(h, secrets, ops[..|ops| - 1]);
      LogStepKeeps(h, secrets, LogAfter(h, secrets, ops[..|ops| - 1]), ops[|ops| - 1]);
      var w := LogAfter(h, secrets, ops);
      if w.count > 0 {
        WriterVerdict(h, w);
      }
    }
  }

  /** No text field the writer checks holds a configured secret. */
  predicate SecretFree(secrets: seq<string>, line: Line) {
    line.Entry? ==>
      forall f, s | f in {Instance, FilePath, Operation, Verdict, Why} && s in secrets && s != "" ::
        f in line.rec.chained && line.rec.chained[f].Text? ==> !Occurs(s, line.rec.chained[f].text)
  }

  lemma NewLineSecretFree(h: Hash, secrets: seq<string>, w: Writer, q: Request, stamp: string)
    requires !Tainted(secrets, q)
    ensures SecretFree(secrets, NewLine(h, w, FieldsOf(q, stamp)))
  {
    var fields := FieldsOf(q, stamp);
    forall f, s | f in {Instance, FilePath, Operation, Verdict, Why} && s in secrets && s != ""
      ensures f in fields && fields[f].Text? ==> !Occurs(s, fields[f].text)
    {
      assert fields[Instance] == Text(q.instance) && fields[FilePath] == Text(q.path);
      assert fields[Operation] == Text(q.operation) && fields[Verdict] == Text(q.decision);
      assert fields[Why] == Text(q.reason);
      hide FieldsOf, Occurs;
    }
  }

  /** In no run does a configured secret get into the file by one of these fields. */
  lemma {:induction false} NoSecretLogged(h: Hash, secrets: seq<string>, ops: seq<LogOp>)
    ensures forall line | line in LogAfter(h, secrets, ops).disk.Lines() :: SecretFree(secrets, line)
    decreases |ops|
  {
    hide Tainted, SecretFree, FieldsOf;
    if ops != [] {
      var init, op := ops[..|ops| - 1], ops[|ops| - 1];
      NoSecretLogged(h, secrets, init);
      LogRuns(h, secrets, init);
      var w := LogAfter(h, secrets, init);
      match op
      case Write(q, stamp, io) =>
        if Wrote(secrets, op) {
          NewLineSecretFree(h, secrets, w, q, stamp);
        }
      case Reopen => ReopenKeeps(h, w);
    }
  }

  lemma LastOpGrows(h: Hash, secrets: seq<string>, ops: seq<LogOp>)
    requires ops != []
    ensures LogAfter(h, secrets, ops[..|ops| - 1]).disk.Lines() <= LogAfter(h, secrets, ops).disk.Lines()
  {
    LogRuns(h, secrets, ops[..|ops| - 1]);
    LogStepKeeps(h, secrets, LogAfter(h, secrets, ops[..|ops| - 1]), ops[|ops| - 1]);
  }

  /** The file only grows by appending. */
  lemma {:induction false} LogOnlyGrows(h: Hash, secrets: seq<string>, ops: seq<LogOp>, i: nat)
    requires i <= |ops|
    ensures LogAfter(h, secrets, ops[..i]).disk.Lines() <= LogAfter(h, secrets, ops).disk.Lines()
    decreases |ops|
  {
    if i == |ops| {
      assert ops[..i] == ops;
    } else {
      var init := ops[..|ops| - 1];
      assert init[..i] == ops[..i];
      LogOnlyGrows(h, secrets, init, i);
      LastOpGrows(h, secrets, ops);
    }
  }

  /** Once the checkpoint lags, the verifier reports a break until the next record whose
      checkpoint is written out, and from then on accepts again. */
  lemma {:induction false} BreakUntilNextRecord(h: Hash, secrets: seq<string>, ops: seq<LogOp>, i: nat)
    requires i <= |ops| && Stale(LogAfter(h, secrets, ops[..i]))
    requires LogAfter(h, secrets, ops[..i]).count > 0
    requires forall j | i <= j < |ops| :: !(Wrote(secrets, ops[j]) && (ops[j].io.Sound? || ops[j].io.HeadUnconfirmed?))
    ensures !Verify(h, LogAfter(h, secrets, ops).disk).ok
    ensures Stale(LogAfter(h, secrets, ops)) && LogAfter(h, secrets, ops).count > 0
    decreases |ops|
  {
    LogRuns(h, secrets, ops);
    if i == |ops| {
      assert ops[..i] == ops;
    } else {
      var n := |ops| - 1;
      assert ops[..n][..i] == ops[..i];
      assert forall j | i <= j < n :: ops[..n][j] == ops[j];
      BreakUntilNextRecord(h, secrets, ops[..n], i);
      LogRuns(h, secrets, ops[..n]);
      LogStepKeeps(h, secrets, LogAfter(h, secrets, ops[..n]), ops[n]);
    }
    WriterVerdict(h, LogAfter(h, secrets, ops));
  }

  lemma RecordRepairs(h: Hash, secrets: seq<string>, w: Writer, q: Request, stamp: string, io: Io)
    requires WriterOk(h, w) && Record(h, secrets, w, q, stamp, io).1.Recorded?
    ensures var w' := Record(h, secrets, w, q, stamp, io).0;
            Verify(h, w'.disk) == ChainResult(true, None, w.count + 1) &&
            w'.disk.Lines() == w.disk.Lines() + [NewLine(h, w, FieldsOf(q, stamp))]
  {
    AppendKeeps(h, w, FieldsOf(q, stamp), io);
    var w' := Record(h, secrets, w, q, stamp, io).0;
    WriterVerdict(h, w');
    WalkMeaning(h, w'.disk.Lines(), 0);
  }

  // ------------------------------------------------------------ the log object

  /** The two files on disk, and how each write to them will fare. */
  class LogFile {
    const faults: nat -> Io
    var writes: nat
    var disk: Disk

    constructor (disk: Disk, faults: nat -> Io)
      ensures this.disk == disk && this.faults == faults && writes == 0
    {
      this.disk := disk;
      this.faults := faults;
      writes := 0;
    }
  }

  class AuditLog {
    const file: LogFile
    const hash: Hash
    const secrets: seq<string>
    const stamps: nat -> string
    var prev: Digest
    var count: nat

    function Model(): Writer
      reads this, file
    {
      Writer(file.disk, prev, count)
    }

    constructor Recovered(file: LogFile, hash: Hash, secrets: seq<string>, stamps: nat -> string, w: Writer)
      requires w.disk == file.disk
      ensures this.file == file && this.hash == hash && this.secrets == secrets && this.stamps == stamps
      ensures Model() == w
    {
      this.file := file;
      this.hash := hash;
      this.secrets := secrets;
      this.stamps := stamps;
      prev := w.prev;
      count := w.count;
    }

    /** Opening refuses a file whose tail cannot be read. */
    static method OpenLog(file: LogFile, hash: Hash, secrets: seq<string>, stamps: nat -> string)
      returns (r: Result<AuditLog, ()>)
      ensures r.Ok? <==> Recover(file.disk).Ok?
      ensures r.Ok? ==> fresh(r.value) && r.value.file == file && r.value.hash == hash &&
                        r.value.secrets == secrets && r.value.Model() == Recover(file.disk).value
    {
      var w := Recover(file.disk);
      if w.Err? {
        return Err(());
      }
      var log := new AuditLog.Recovered(file, hash, secrets, stamps, w.value);
      return Ok(log);
    }

    /** record: append, remember, checkpoint. The caller runs its operation only on Recorded. */
    method Write(q: Request) returns (r: RecordResult)
      modifies this, file
      ensures var n := old(file.writes);
              && (Model(), r) == Record(hash, secrets, old(Model()), q, stamps(n), file.faults(n))
              && file.writes == n + (if r.SecretRefused? then 0 else 1)
    {
      if Tainted(secrets, q) {
        return SecretRefused;
      }
      var io := file.faults(file.writes);
      var fields := FieldsOf(q, stamps(file.writes));
      var line := Entry(LogRecord(fields, Some(prev), Some(hash(fields)), map[]));
      file.writes := file.writes + 1;
      if io.AppendFails? {
        return AppendFailed;
      }
      file.disk := file.disk.(file := Some(file.disk.Lines() + [line]));
      prev := hash(fields);
      count := count + 1;
      file.disk := file.disk.(head := NewHead(file.disk.head, prev, count, io));
      return if io.Sound? then Recorded else CheckpointFailed;
    }
  }
}
