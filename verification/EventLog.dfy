/** The HMAC-chained `EventLogger` of packages/orchestrator/src/event-log.ts: writer, recovery and
    verifier.  A log is the list of its lines; a line is its parsed JSON value, or text that does not
    parse to an entry.  The keyed hash is the parameter `hmac`.  A write may be torn, which can leave the last line
    without its newline; whatever is written next then lands on that same line. */
module EventLog {
  import opened Wrappers

  type Hash = string

  /** The `_prev` member of an entry: `null`, a hash, or anything else (including missing). */
  datatype Prev = Null | Hashed(hash: Hash) | Foreign(text: string)

  /** `Merged` is an unterminated line with what was written behind it; two texts run together do not parse. */
  datatype Line =
    | Entry(event: string, logged: string, prev: Prev, number: Option<int>)
    | Malformed(text: string)
    | Merged(unterminated: Line, behind: Line)

  type Hmac = Line -> Hash

  function AsPrev(h: Option<Hash>): Prev {
    match h
    case None => Null
    case Some(x) => Hashed(x)
  }

  // ---------------------------------------------------------------- the verifier

  /** The hash that the line after `lines` must carry. */
  function LastHash(hmac: Hmac, lines: seq<Line>): Option<Hash> {
    if lines == [] then None else Some(hmac(lines[|lines| - 1]))
  }

  /** Line `i` is an entry that names the hash of the line before it. */
  ghost predicate Linked(hmac: Hmac, lines: seq<Line>, i: nat)
    requires i < |lines|
  {
    lines[i].Entry? && lines[i].prev == AsPrev(LastHash(hmac, lines[..i]))
  }

  ghost predicate Chained(hmac: Hmac, lines: seq<Line>) {
    forall i :: 0 <= i < |lines| ==> Linked(hmac, lines, i)
  }

  /** Valid exactly on chained logs, otherwise `brokenAt` is the first line that breaks the chain. */
  method VerifyLog(hmac: Hmac, lines: seq<Line>) returns (valid: bool, brokenAt: Option<nat>, entries: nat)
    ensures valid <==> Chained(hmac, lines)
    ensures valid <==> brokenAt.None?
    ensures brokenAt.Some? ==>
      && brokenAt.value < |lines| && Chained(hmac, lines[..brokenAt.value])
      && !Chained(hmac, lines[..brokenAt.value + 1])
    ensures entries == |lines|
  {
    var prevHash: Option<Hash> := None;
    for i := 0 to |lines|
      invariant prevHash == LastHash(hmac, lines[..i]) && Chained(hmac, lines[..i])
    {
      var line := lines[i];
      ChainedNext(hmac, lines, i);
      if !line.Entry? || line.prev != AsPrev(prevHash) {
        ChainedPrefix(hmac, lines, i + 1);
        return false, Some(i), |lines|;
      }
      prevHash := Some(hmac(line));
    }
    assert lines[..|lines|] == lines;
    return true, None, |lines|;
  }

  lemma {:induction false} LinkedInPrefix(hmac: Hmac, lines: seq<Line>, i: nat, k: nat)
    requires k < i <= |lines|
    ensures Linked(hmac, lines[..i], k) <==> Linked(hmac, lines, k)
  {
    assert lines[..i][..k] == lines[..k];
  }

  lemma {:induction false} ChainedNext(hmac: Hmac, lines: seq<Line>, i: nat)
    requires i < |lines| && Chained(hmac, lines[..i])
    ensures Chained(hmac, lines[..i + 1]) <==> lines[i].Entry? && lines[i].prev == AsPrev(LastHash(hmac, lines[..i]))
  {
    var next := lines[..i + 1];
    forall k | 0 <= k < i ensures Linked(hmac, next, k) {
      LinkedInPrefix(hmac, lines, i, k);
      LinkedInPrefix(hmac, lines, i + 1, k);
    }
    LinkedInPrefix(hmac, lines, i + 1, i);
    assert Linked(hmac, next, i) <==> Linked(hmac, lines, i);
  }

  /** Cutting off the end of a log is not noticed by replaying the chain. */
  lemma {:induction false} ChainedPrefix(hmac: Hmac, lines: seq<Line>, i: nat)
    requires i <= |lines|
    ensures Chained(hmac, lines) ==> Chained(hmac, lines[..i])
  {
    if Chained(hmac, lines) {
      forall k | 0 <= k < i ensures Linked(hmac, lines[..i], k) { LinkedInPrefix(hmac, lines, i, k); }
    }
  }

  // ---------------------------------------------------------------- tamper evidence

  ghost predicate CollisionFree(hmac: Hmac, a: seq<Line>, b: seq<Line>) {
    forall x, y :: x in a && y in b && hmac(x) == hmac(y) ==> x == y
  }

  /** A line shared by two chained logs is the first of both or has the same predecessor in both. */
  lemma {:induction false} SamePredecessor(hmac: Hmac, a: seq<Line>, b: seq<Line>, i: nat, j: nat)
    requires Chained(hmac, a) && Chained(hmac, b) && CollisionFree(hmac, a, b)
    requires i < |a| && j < |b| && a[i] == b[j]
    ensures i == 0 <==> j == 0
    ensures i > 0 && j > 0 ==> a[i - 1] == b[j - 1]
  {
    assert Linked(hmac, a, i) && Linked(hmac, b, j);
    if i > 0 && j > 0 {
      assert a[i - 1] in a && b[j - 1] in b;
    }
  }

  /** Two chained logs that share a line share its place and everything before it. */
  lemma {:induction false} SameHistory(hmac: Hmac, a: seq<Line>, b: seq<Line>, i: nat, j: nat)
    requires Chained(hmac, a) && Chained(hmac, b) && CollisionFree(hmac, a, b)
    requires i < |a| && j < |b| && a[i] == b[j]
    ensures i == j && forall k :: 0 <= k <= i ==> a[k] == b[k]
    decreases i
  {
    SamePredecessor(hmac, a, b, i, j);
    if i > 0 { SameHistory(hmac, a, b, i - 1, j - 1); }
  }

  /** Two chained logs that end in the same line are the same log. */
  lemma {:induction false} LastLineDeterminesLog(hmac: Hmac, a: seq<Line>, b: seq<Line>)
    requires Chained(hmac, a) && Chained(hmac, b) && CollisionFree(hmac, a, b)
    requires a != [] && b != [] && a[|a| - 1] == b[|b| - 1]
    ensures a == b
  {
    SameHistory(hmac, a, b, |a| - 1, |b| - 1);
  }

  /** Any rewriting that keeps the last line, however many lines it edits, inserts, drops or reorders. */
  lemma {:induction false} TamperingDetected(hmac: Hmac, log: seq<Line>, forged: seq<Line>)
    requires Chained(hmac, log) && CollisionFree(hmac, log, forged) && forged != log
    requires log != [] && forged != [] && log[|log| - 1] == forged[|forged| - 1]
    ensures !Chained(hmac, forged)
  {
    if Chained(hmac, forged) {
      LastLineDeterminesLog(hmac, log, forged);
    }
  }

  lemma {:induction false} CutKeepsLast<T>(log: seq<T>, i: nat, j: nat)
    requires i < j < |log|
    ensures var cut := log[..i] + log[j..];
      |cut| == |log| - (j - i) && cut[|cut| - 1] == log[|log| - 1] && forall x :: x in cut ==> x in log
  {
  }

  lemma {:induction false} FewerLinesCollideLess(hmac: Hmac, log: seq<Line>, part: seq<Line>)
    requires CollisionFree(hmac, log, log) && forall x :: x in part ==> x in log
    ensures CollisionFree(hmac, log, part)
  {
  }

  lemma {:induction false} MiddleCutDetected(hmac: Hmac, log: seq<Line>, i: nat, j: nat)
    requires Chained(hmac, log) && CollisionFree(hmac, log, log) && i < j < |log|
    ensures !Chained(hmac, log[..i] + log[j..])
  {
    var cut := log[..i] + log[j..];
    CutKeepsLast(log, i, j);
    FewerLinesCollideLess(hmac, log, cut);
    TamperingDetected(hmac, log, cut);
  }

  /** Dropping the lines from `i` up to `j` goes unnoticed exactly when none are dropped or they are the tail. */
  lemma {:induction false} CutUnnoticedIff(hmac: Hmac, log: seq<Line>, i: nat, j: nat)
    requires Chained(hmac, log) && CollisionFree(hmac, log, log) && i <= j <= |log|
    ensures Chained(hmac, log[..i] + log[j..]) <==> i == j || j == |log|
  {
    if i == j {
      assert log[..i] + log[j..] == log;
    } else if j == |log| {
      assert log[..i] + log[j..] == log[..i];
      ChainedPrefix(hmac, log, i);
    } else {
      MiddleCutDetected(hmac, log, i, j);
    }
  }

  // ---------------------------------------------------------------- the writer

  /** The file as its readers see it; `ended` says that its last line ends in a newline. */
  datatype File = File(lines: seq<Line>, ended: bool)

  datatype State = State(open: bool, prevHash: Option<Hash>, next: int, file: File)

  /** A part of a line's text, which as a part does not parse. */
  type Fragment = text: string | text != "" witness "torn"

  /** What becomes of a write: all of it arrives, none of it, all but the newline, or a part that does not parse. */
  datatype Write = Written | Refused | TornBeforeNewline | TornInside(text: Fragment)

  /** An append says whether opening the file (when needed) succeeds and how the write ends.  A restart is a new
      logger on the same file, which may be unreadable. */
  datatype Op =
    | Append(event: string, logged: string, opens: bool, write: Write)
    | Close
    | Restart(readable: bool)

  /** Chain state recovered from the last line of the file. */
  function Recover(hmac: Hmac, lines: seq<Line>, readable: bool): (r: (Option<Hash>, int)) {
    if lines == [] || !readable then (None, 0) else
    var last := lines[|lines| - 1];
    if !last.Entry? then (None, 0) else
    (Some(hmac(last)), if last.number.Some? then last.number.value + 1 else |lines|)
  }

  /** The lines after `piece` has been written behind them. */
  function Grown(file: File, piece: Line): seq<Line> {
    var lines := file.lines;
    if file.ended || lines == [] then lines + [piece]
    else lines[..|lines| - 1] + [Merged(lines[|lines| - 1], piece)]
  }

  function Apply(hmac: Hmac, s: State, op: Op): State {
    match op
    case Append(event, logged, opens, write) =>
      if !s.open && !opens then s else
      var line := Entry(event, logged, AsPrev(s.prevHash), Some(s.next));
      (match write
       case Written => State(true, Some(hmac(line)), s.next + 1, File(Grown(s.file, line), true))
       case Refused => s.(open := false)
       case TornBeforeNewline => s.(open := false, file := File(Grown(s.file, line), false))
       case TornInside(text) => s.(open := false, file := File(Grown(s.file, Malformed(text)), false)))
    case Close => s.(open := false)
    case Restart(readable) =>
      var (prevHash, next) := Recover(hmac, s.file.lines, readable);
      State(false, prevHash, next, s.file)
  }

  /** A run on an existing file, starting with the construction of a logger. */
  function Run(hmac: Hmac, initial: File, ops: seq<Op>): State {
    if ops == [] then Apply(hmac, State(false, None, 0, initial), Restart(true))
    else Apply(hmac, Run(hmac, initial, ops[..|ops| - 1]), ops[|ops| - 1])
  }

  // ---------------------------------------------------------------- when a run damages the log

  /** What can be seen of a run without any hash: `blind` after a restart that could not read a non-empty log. */
  datatype Sight = Sight(open: bool, empty: bool, ended: bool, blind: bool)

  function Observe(sight: Sight, op: Op): Sight {
    match op
    case Append(_, _, opens, write) =>
      if !sight.open && !opens then sight else
      (match write
       case Written => Sight(true, false, true, false)
       case Refused => sight.(open := false)
       case TornBeforeNewline => sight.(open := false, empty := false, ended := false)
       case TornInside(_) => sight.(open := false, empty := false, ended := false))
    case Close => sight.(open := false)
    case Restart(readable) => sight.(open := false, blind := !readable && !sight.empty)
  }

  function Sighted(initial: File, ops: seq<Op>): Sight {
    if ops == [] then Sight(false, initial.lines == [], initial.ended, false)
    else Observe(Sighted(initial, ops[..|ops| - 1]), ops[|ops| - 1])
  }

  /** An append that reaches the file does no harm when it is refused, or when it is not torn inside its text, no
      unterminated line precedes it and the writer is not blind. */
  predicate Harmless(sight: Sight, op: Op) {
    op.Append? && (sight.open || op.opens) && !op.write.Refused? ==>
      !op.write.TornInside? && (sight.ended || sight.empty) && !sight.blind
  }

  predicate Undamaged(initial: File, ops: seq<Op>) {
    ops == [] ||
    (Undamaged(initial, ops[..|ops| - 1]) && Harmless(Sighted(initial, ops[..|ops| - 1]), ops[|ops| - 1]))
  }

  /** Line `i` carries sequence number `i`. */
  ghost predicate Numbered(lines: seq<Line>) {
    forall i :: 0 <= i < |lines| ==> lines[i].Entry? && lines[i].number == Some(i)
  }

  /** A blind logger believes the file empty; one that may go on knows the last line's hash and number. */
  ghost predicate Tracks(hmac: Hmac, s: State, sight: Sight) {
    && sight.open == s.open && sight.empty == (s.file.lines == []) && sight.ended == s.file.ended
    && (sight.blind ==> s.prevHash == None && s.next == 0 && !sight.empty)
    && (!sight.blind && (sight.ended || sight.empty) ==>
          && (Chained(hmac, s.file.lines) ==> s.prevHash == LastHash(hmac, s.file.lines))
          && (Numbered(s.file.lines) ==> s.next == |s.file.lines|))
  }

  lemma {:induction false} AppendChained(hmac: Hmac, lines: seq<Line>, line: Line)
    ensures Chained(hmac, lines + [line]) <==>
            Chained(hmac, lines) && line.Entry? && line.prev == AsPrev(LastHash(hmac, lines))
    ensures Numbered(lines + [line]) <==> Numbered(lines) && line.Entry? && line.number == Some(|lines|)
  {
    var all := lines + [line];
    assert all[..|lines|] == lines;
    ChainedPrefix(hmac, all, |lines|);
    if Chained(hmac, lines) {
      ChainedNext(hmac, all, |lines|);
      assert all[..|lines| + 1] == all;
    }
    assert Numbered(all) ==> Numbered(lines) by {
      assert forall i :: 0 <= i < |lines| ==> all[i] == lines[i];
    }
    assert all[|lines|] == line;
  }

  /** A piece keeps the log accepted exactly when it goes on its own line as the next entry. */
  lemma {:induction false} GrownChained(hmac: Hmac, file: File, piece: Line)
    ensures var alone := file.ended || file.lines == [];
      && (Chained(hmac, Grown(file, piece)) <==>
            alone && Chained(hmac, file.lines) && piece.Entry? && piece.prev == AsPrev(LastHash(hmac, file.lines)))
      && (Numbered(Grown(file, piece)) <==>
            alone && Numbered(file.lines) && piece.Entry? && piece.number == Some(|file.lines|))
  {
    if file.ended || file.lines == [] {
      AppendChained(hmac, file.lines, piece);
    } else {
      var n := |file.lines| - 1;
      AppendChained(hmac, file.lines[..n], Merged(file.lines[n], piece));
    }
  }

  lemma {:induction false} RestartTracks(hmac: Hmac, s: State, sight: Sight, readable: bool)
    requires sight.empty == (s.file.lines == []) && sight.ended == s.file.ended
    ensures Tracks(hmac, Apply(hmac, s, Restart(readable)), Observe(sight, Restart(readable)))
  {
    var lines := s.file.lines;
    if lines != [] {
      assert Chained(hmac, lines) ==> Linked(hmac, lines, |lines| - 1);
      assert Numbered(lines) ==> lines[|lines| - 1].number == Some(|lines| - 1);
    }
  }

  lemma {:induction false} AppendTracks(hmac: Hmac, s: State, sight: Sight, op: Op)
    requires Tracks(hmac, s, sight) && op.Append? && (s.open || op.opens)
    ensures var lines, lines' := s.file.lines, Apply(hmac, s, op).file.lines;
      && Tracks(hmac, Apply(hmac, s, op), Observe(sight, op))
      && (Chained(hmac, lines') <==> Chained(hmac, lines) && Harmless(sight, op))
      && (Numbered(lines') <==> Numbered(lines) && Harmless(sight, op))
  {
    var line := Entry(op.event, op.logged, AsPrev(s.prevHash), Some(s.next));
    match op.write
    case Written => GrownChained(hmac, s.file, line);
    case TornBeforeNewline => GrownChained(hmac, s.file, line);
    case TornInside(text) => GrownChained(hmac, s.file, Malformed(text));
    case Refused =>
  }

  lemma {:induction false} StepTracks(hmac: Hmac, s: State, sight: Sight, op: Op)
    requires Tracks(hmac, s, sight)
    ensures var lines, lines' := s.file.lines, Apply(hmac, s, op).file.lines;
      && Tracks(hmac, Apply(hmac, s, op), Observe(sight, op))
      && (Chained(hmac, lines') <==> Chained(hmac, lines) && Harmless(sight, op))
      && (Numbered(lines') <==> Numbered(lines) && Harmless(sight, op))
  {
    match op
    case Append(_, _, opens, _) => if s.open || opens { AppendTracks(hmac, s, sight, op); }
    case Restart(readable) => RestartTracks(hmac, s, sight, readable);
    case Close =>
  }

  lemma {:induction false} RunTracks(hmac: Hmac, initial: File, ops: seq<Op>)
    ensures var s := Run(hmac, initial, ops);
      && Tracks(hmac, s, Sighted(initial, ops))
      && (Chained(hmac, s.file.lines) <==> Chained(hmac, initial.lines) && Undamaged(initial, ops))
      && (Numbered(s.file.lines) <==> Numbered(initial.lines) && Undamaged(initial, ops))
  {
    if ops == [] {
      RestartTracks(hmac, State(false, None, 0, initial), Sighted(initial, ops), true);
    } else {
      var front := ops[..|ops| - 1];
      RunTracks(hmac, initial, front);
      StepTracks(hmac, Run(hmac, initial, front), Sighted(initial, front), ops[|ops| - 1]);
    }
  }

  /** Over every mixture of appends (complete, refused or torn), closes and restarts (the file readable or not): the
      log is accepted, and numbered by position, exactly when the file it started from was and no append did harm. */
  lemma {:induction false} LogAcceptedIff(hmac: Hmac, initial: File, ops: seq<Op>)
    ensures Chained(hmac, Run(hmac, initial, ops).file.lines) <==>
            Chained(hmac, initial.lines) && Undamaged(initial, ops)
    ensures Numbered(Run(hmac, initial, ops).file.lines) <==> Numbered(initial.lines) && Undamaged(initial, ops)
  {
    RunTracks(hmac, initial, ops);
  }

  /** A log written from scratch is accepted, with line `i` carrying `_seq` `i`, exactly when no append did harm. */
  lemma {:induction false} FreshLogAcceptedIff(hmac: Hmac, ops: seq<Op>)
    ensures var lines := Run(hmac, File([], true), ops).file.lines;
      && (Chained(hmac, lines) <==> Undamaged(File([], true), ops))
      && (Numbered(lines) <==> Undamaged(File([], true), ops))
  {
    LogAcceptedIff(hmac, File([], true), ops);
  }

  /** No restart finds the file unreadable and no write is torn; appends may still fail to open or be refused. */
  ghost predicate Orderly(ops: seq<Op>) {
    forall i :: 0 <= i < |ops| ==>
      ops[i] != Restart(false) && (ops[i].Append? ==> ops[i].write.Written? || ops[i].write.Refused?)
  }

  lemma {:induction false} OrderlyIsUndamaged(initial: File, ops: seq<Op>)
    requires Orderly(ops) && (initial.ended || initial.lines == [])
    ensures Undamaged(initial, ops)
    ensures var sight := Sighted(initial, ops); !sight.blind && (sight.ended || sight.empty)
  {
    if ops != [] {
      OrderlyIsUndamaged(initial, ops[..|ops| - 1]);
    }
  }

  /** After a restart that could not read a non-empty log the next line written breaks the chain, unless another
      restart can read the log first. */
  lemma {:induction false} UnreadableRestartBreaks(hmac: Hmac, initial: File, ops: seq<Op>, next: Op)
    requires Run(hmac, initial, ops).file.lines != [] && next.Append? && next.opens && !next.write.Refused?
    ensures !Chained(hmac, Run(hmac, initial, ops + [Restart(false)] + [next]).file.lines)
    ensures Undamaged(initial, ops + [Restart(false)] + [Restart(true)]) <==> Undamaged(initial, ops)
    ensures Sighted(initial, ops + [Restart(false)] + [Restart(true)]) == Sighted(initial, ops + [Restart(true)])
  {
    var ops1, reread := ops + [Restart(false)], ops + [Restart(true)];
    assert ops1[..|ops|] == ops && reread[..|ops|] == ops;
    assert (ops1 + [next])[..|ops1|] == ops1 && (ops1 + [Restart(true)])[..|ops1|] == ops1;
    RunTracks(hmac, initial, ops);
    LogAcceptedIff(hmac, initial, ops1 + [next]);
  }

  /** Whatever is written behind a torn write breaks the chain, restart or not. */
  lemma {:induction false} TornWriteBreaks(hmac: Hmac, initial: File, ops: seq<Op>, torn: Op, restart: bool, next: Op)
    requires torn.Append? && torn.opens && (torn.write.TornBeforeNewline? || torn.write.TornInside?)
    requires next.Append? && next.opens && !next.write.Refused?
    ensures !Chained(hmac, Run(hmac, initial, ops + [torn] + [Restart(restart)] + [next]).file.lines)
    ensures !Chained(hmac, Run(hmac, initial, ops + [torn] + [next]).file.lines)
  {
    var ops1 := ops + [torn];
    var ops2 := ops1 + [Restart(restart)];
    assert ops1[..|ops|] == ops && ops2[..|ops1|] == ops1;
    assert (ops1 + [next])[..|ops1|] == ops1 && (ops2 + [next])[..|ops2|] == ops2;
    LogAcceptedIff(hmac, initial, ops1 + [next]);
    LogAcceptedIff(hmac, initial, ops2 + [next]);
  }

  /** A terminated file is only ever added to. */
  lemma {:induction false} OldLinesStay(hmac: Hmac, initial: File, ops: seq<Op>)
    requires initial.ended
    ensures var file := Run(hmac, initial, ops).file;
      initial.lines <= file.lines && (file.ended || |initial.lines| < |file.lines|)
  {
    if ops != [] {
      OldLinesStay(hmac, initial, ops[..|ops| - 1]);
    }
  }

  // ---------------------------------------------------------------- what the log holds

  /** The append puts all of its text into the file, on a line of its own. */
  predicate Legible(sight: Sight, op: Op) {
    op.Append? && (sight.open || op.opens) && !op.write.Refused? ==>
      !op.write.TornInside? && (sight.ended || sight.empty)
  }

  predicate AllLegible(initial: File, ops: seq<Op>) {
    ops == [] ||
    (AllLegible(initial, ops[..|ops| - 1]) && Legible(Sighted(initial, ops[..|ops| - 1]), ops[|ops| - 1]))
  }

  /** What was appended to the file: the event and its time for every append that found or opened the file and was
      written, with its newline or without. */
  function Appended(initial: File, ops: seq<Op>): seq<(string, string)> {
    if ops == [] then [] else
    var front, op := ops[..|ops| - 1], ops[|ops| - 1];
    Appended(initial, front) + AppendedBy(Sighted(initial, front), op)
  }

  function AppendedBy(sight: Sight, op: Op): seq<(string, string)> {
    if op.Append? && (sight.open || op.opens) && (op.write.Written? || op.write.TornBeforeNewline?)
    then [(op.event, op.logged)] else []
  }

  /** The lines hold these events with their times, in this order. */
  ghost predicate HoldsEvents(lines: seq<Line>, events: seq<(string, string)>) {
    |lines| == |events| && forall i :: 0 <= i < |lines| ==>
      lines[i].Entry? && lines[i].event == events[i].0 && lines[i].logged == events[i].1
  }

  lemma {:induction false} OneMoreEvent(lines: seq<Line>, events: seq<(string, string)>, line: Line)
    requires HoldsEvents(lines, events) && line.Entry?
    ensures HoldsEvents(lines + [line], events + [(line.event, line.logged)])
  {
  }

  /** The lines after a legible step. */
  lemma {:induction false} StepAppends(hmac: Hmac, s: State, sight: Sight, op: Op)
    requires Tracks(hmac, s, sight) && Legible(sight, op)
    ensures var lines, lines' := s.file.lines, Apply(hmac, s, op).file.lines;
      if AppendedBy(sight, op) == [] then lines' == lines else
      && |lines'| == |lines| + 1 && lines'[..|lines|] == lines
      && lines'[|lines|].Entry? && lines'[|lines|].event == op.event && lines'[|lines|].logged == op.logged
  {
  }

  lemma {:induction false} HoldsNext(lines: seq<Line>, lines': seq<Line>, n: nat, events: seq<(string, string)>)
    requires n <= |lines| && |lines'| == |lines| + 1 && lines'[..|lines|] == lines && lines'[|lines|].Entry?
    requires HoldsEvents(lines[n..], events)
    ensures HoldsEvents(lines'[n..], events + [(lines'[|lines|].event, lines'[|lines|].logged)])
  {
    assert lines'[n..] == lines[n..] + [lines'[|lines|]];
    OneMoreEvent(lines[n..], events, lines'[|lines|]);
  }

  /** The log holds what was logged: behind the lines it started with, the appended events with their times, in the
      order in which they were appended. */
  lemma {:induction false} LogHoldsEvents(hmac: Hmac, initial: File, ops: seq<Op>)
    requires AllLegible(initial, ops)
    ensures var lines := Run(hmac, initial, ops).file.lines;
      initial.lines <= lines && HoldsEvents(lines[|initial.lines|..], Appended(initial, ops))
  {
    if ops != [] {
      var front, op := ops[..|ops| - 1], ops[|ops| - 1];
      var n, lines, lines' := |initial.lines|, Run(hmac, initial, front).file.lines, Run(hmac, initial, ops).file.lines;
      LogHoldsEvents(hmac, initial, front);
      RunTracks(hmac, initial, front);
      StepAppends(hmac, Run(hmac, initial, front), Sighted(initial, front), op);
      if AppendedBy(Sighted(initial, front), op) != [] {
        HoldsNext(lines, lines', n, Appended(initial, front));
        assert lines'[..|lines|][..n] == lines'[..n];
      } else {
        assert Appended(initial, front) + [] == Appended(initial, front);
      }
    }
  }

  /** In particular an undamaged log, a torn newline included. */
  lemma {:induction false} UndamagedIsLegible(initial: File, ops: seq<Op>)
    requires Undamaged(initial, ops)
    ensures AllLegible(initial, ops)
  {
    if ops != [] { UndamagedIsLegible(initial, ops[..|ops| - 1]); }
  }

  /** And any run without torn writes on a terminated file, whatever the restarts could read. */
  lemma {:induction false} UntornIsLegible(initial: File, ops: seq<Op>)
    requires initial.ended || initial.lines == []
    requires forall i :: 0 <= i < |ops| && ops[i].Append? ==> ops[i].write.Written? || ops[i].write.Refused?
    ensures AllLegible(initial, ops)
    ensures var sight := Sighted(initial, ops); sight.ended || sight.empty
  {
    if ops != [] { UntornIsLegible(initial, ops[..|ops| - 1]); }
  }

  /** From operation `i` on, every operation is a completed append. */
  ghost predicate WrittenFrom(ops: seq<Op>, i: nat) {
    forall j :: i <= j < |ops| ==> ops[j].Append? && ops[j].write.Written?
  }

  /** The file is open exactly when some append opened it and everything since was written. */
  lemma {:induction false} OpenIff(initial: File, ops: seq<Op>)
    ensures Sighted(initial, ops).open <==> exists i :: 0 <= i < |ops| && WrittenFrom(ops, i) && ops[i].opens
  {
    if ops != [] {
      var m := |ops| - 1;
      OpenIff(initial, ops[..m]);
      if Sighted(initial, ops).open {
        if ops[m].opens {
          assert WrittenFrom(ops, m);
        } else {
          var i :| 0 <= i < m && WrittenFrom(ops[..m], i) && ops[..m][i].opens;
          assert WrittenFrom(ops, i);
        }
      }
      if i :| 0 <= i < |ops| && WrittenFrom(ops, i) && ops[i].opens {
        if i < m {
          assert WrittenFrom(ops[..m], i) && ops[..m][i].opens;
        }
      }
    }
  }

  class LogFile {
    var lines: seq<Line>
    var ended: bool

    ghost function Model(): File
      reads this
    {
      File(lines, ended)
    }

    /** Appends a text, with its newline or without. */
    method Write(piece: Line, newline: bool)
      modifies this
      ensures lines == Grown(old(Model()), piece) && ended == newline
    {
      if ended || lines == [] {
        lines := lines + [piece];
      } else {
        lines := lines[..|lines| - 1] + [Merged(lines[|lines| - 1], piece)];
      }
      ended := newline;
    }
  }

  class EventLogger {
    const file: LogFile
    const hmac: Hmac
    var open: bool
    var prevHash: Option<Hash>
    var next: int

    ghost function Model(): State
      reads this, file
    {
      State(open, prevHash, next, file.Model())
    }

    constructor (file: LogFile, hmac: Hmac, readable: bool)
      ensures this.file == file && this.hmac == hmac
      ensures Model() == Apply(hmac, State(false, None, 0, old(file.Model())), Restart(readable))
    {
      this.file, this.hmac, open := file, hmac, false;
      var lines := file.lines;
      prevHash, next := None, 0;
      if lines != [] && readable {
        var last := lines[|lines| - 1];
        if last.Entry? {
          next := if last.number.Some? then last.number.value + 1 else |lines|;
          prevHash := Some(hmac(last));
        }
      }
    }

    method Append(event: string, logged: string, opens: bool, write: Write)
      modifies this, file
      ensures Model() == Apply(hmac, old(Model()), Op.Append(event, logged, opens, write))
    {
      if !open {
        if !opens { return; }
        open := true;
      }
      var line := Entry(event, logged, AsPrev(prevHash), Some(next));
      match write {
        case Written =>
          file.Write(line, true);
          prevHash := Some(hmac(line));
          next := next + 1;
        case Refused =>
          open := false;
        case TornBeforeNewline =>
          file.Write(line, false);
          open := false;
        case TornInside(text) =>
          file.Write(Malformed(text), false);
          open := false;
      }
    }

    method Close()
      modifies this
      ensures Model() == Apply(hmac, old(Model()), Op.Close)
    {
      open := false;
    }
  }
}
