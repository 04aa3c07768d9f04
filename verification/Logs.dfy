/** Logs under snapshots and reverts. A snapshot keeps a slice, and appending writes into the
    array behind it, so its logs stay intact only while reverts are nested: the last snapshot
    taken is the first one to revert to. */
module Logs {
  import opened WorldState

  // ---------- Slices and arrays ----------

  predicate SliceOk(arrays: seq<LogArray>, sl: LogSlice) {
    sl.LogSlice? ==> sl.id < |arrays| && sl.len <= |arrays[sl.id].cells|
  }

  /** Every slice that is held lies within its array. */
  ghost predicate LogsOk(s: TxnState) {
    && SliceOk(s.arrays, s.current.logs)
    && (forall i :: 0 <= i < |s.snapshots| ==> SliceOk(s.arrays, s.snapshots[i].logs))
  }

  /** Appending to `sl` does not write into `keep`: it is of another array, or as long. */
  predicate Past(sl: LogSlice, keep: LogSlice) {
    sl.LogSlice? && keep.LogSlice? && sl.id == keep.id ==> keep.len <= sl.len
  }

  lemma AppendKeepsOk(arrays: seq<LogArray>, sl: LogSlice, l: Log, other: LogSlice)
    requires SliceOk(arrays, sl) && SliceOk(arrays, other)
    ensures var (arrays', sl') := Append(arrays, sl, l);
            SliceOk(arrays', sl') && SliceOk(arrays', other)
  {
  }

  lemma AppendAppends(arrays: seq<LogArray>, sl: LogSlice, l: Log)
    requires SliceOk(arrays, sl)
    ensures var (arrays', sl') := Append(arrays, sl, l); Contents(arrays', sl') == Contents(arrays, sl) + [l]
  {
  }

  /** Appending leaves a slice as it reads if and only if it is past it, or writes what the
      cell holds already. */
  lemma AppendKeepsIff(arrays: seq<LogArray>, sl: LogSlice, l: Log, keep: LogSlice)
    requires SliceOk(arrays, sl) && SliceOk(arrays, keep)
    requires sl.LogSlice? ==> |arrays[sl.id].cells| <= arrays[sl.id].capacity
    ensures Contents(Append(arrays, sl, l).0, keep) == Contents(arrays, keep) <==>
            Past(sl, keep) || Contents(arrays, keep)[sl.len] == l
  {
    var arrays' := Append(arrays, sl, l).0;
    var before, after := Contents(arrays, keep), Contents(arrays', keep);
    if !Past(sl, keep) {
      assert HasRoom(arrays, sl);
      assert after[sl.len] == l;
      assert forall i :: 0 <= i < |before| && i != sl.len ==> after[i] == before[i];
      assert |after| == |before|;
    } else {
      assert |after| == |before|;
      assert forall i :: 0 <= i < |before| ==> after[i] == before[i];
    }
  }

  // ---------- Protecting one snapshot ----------

  /** `keep` reads `content`, and no slice that the run may come back to ends inside it: not
      the current one, and no snapshot from `n` on. */
  ghost predicate Protects(s: TxnState, n: nat, keep: LogSlice, content: seq<Log>) {
    && LogsOk(s) && SliceOk(s.arrays, keep) && Contents(s.arrays, keep) == content
    && Past(s.current.logs, keep)
    && (forall i :: n <= i < |s.snapshots| ==> Past(s.snapshots[i].logs, keep))
  }

  lemma EmitProtects(s: TxnState, l: Log, n: nat, keep: LogSlice, content: seq<Log>)
    requires Protects(s, n, keep, content)
    ensures Protects(Step(s, EmitLog(l)), n, keep, content)
  {
    var t := Step(s, EmitLog(l));
    AppendKeepsOk(s.arrays, s.current.logs, l, keep);
    AppendPast(s.arrays, s.current.logs, l, keep);
    hide Append;
    forall i | 0 <= i < |s.snapshots| ensures SliceOk(t.arrays, s.snapshots[i].logs) {
      AppendKeepsOk(s.arrays, s.current.logs, l, s.snapshots[i].logs);
    }
  }

  lemma AppendPast(arrays: seq<LogArray>, sl: LogSlice, l: Log, keep: LogSlice)
    requires SliceOk(arrays, sl) && SliceOk(arrays, keep) && Past(sl, keep)
    ensures var (arrays', sl') := Append(arrays, sl, l);
            Past(sl', keep) && Contents(arrays', keep) == Contents(arrays, keep)
  {
    var arrays' := Append(arrays, sl, l).0;
    var before, after := Contents(arrays, keep), Contents(arrays', keep);
    assert |after| == |before|;
    assert forall i :: 0 <= i < |before| ==> after[i] == before[i];
  }

  /** No step that stays above `n` touches what is protected. */
  lemma StepProtects(s: TxnState, op: Op, n: nat, keep: LogSlice, content: seq<Log>)
    requires Protects(s, n, keep, content) && Allowed(s, op) && (op.Revert? ==> n <= op.id)
    ensures Protects(Step(s, op), n, keep, content)
  {
    if op.EmitLog? {
      EmitProtects(s, op.log, n, keep, content);
    }
  }

  /** Reverts in the run go to snapshots from `n` on. */
  predicate Above(n: nat, ops: seq<Op>) {
    forall i :: 0 <= i < |ops| && ops[i].Revert? ==> n <= ops[i].id
  }

  lemma {:induction false} RunProtects(s: TxnState, ops: seq<Op>, n: nat, keep: LogSlice, content: seq<Log>)
    requires Protects(s, n, keep, content) && RunAllowed(|s.snapshots|, ops) && Above(n, ops)
    ensures Protects(Run(s, ops), n, keep, content)
    decreases |ops|
  {
    hide Protects, Step;
    if ops != [] {
      StepCount(s, ops[0]);
      StepProtects(s, ops[0], n, keep, content);
      RunProtects(Step(s, ops[0]), ops[1..], n, keep, content);
    }
  }

  lemma StepCount(s: TxnState, op: Op)
    requires Allowed(s, op)
    ensures |Step(s, op).snapshots| == |s.snapshots| + if op.Snapshot? then 1 else 0
  {
  }

  lemma SnapshotProtects(s: TxnState)
    requires LogsOk(s)
    ensures Protects(Step(s, Snapshot), |s.snapshots|, s.current.logs, LogsOf(s))
  {
  }

  /** A revert restores the logs as they were at the snapshot, after any run that in between
      reverted to later snapshots only. */
  lemma RevertRestoresLogs(s: TxnState, ops: seq<Op>)
    requires LogsOk(s) && RunAllowed(|s.snapshots| + 1, ops) && Above(|s.snapshots|, ops)
    ensures var t := Run(Step(s, Snapshot), ops);
            Allowed(t, Revert(|s.snapshots|)) && LogsOf(Step(t, Revert(|s.snapshots|))) == LogsOf(s)
  {
    SnapshotProtects(s);
    RunProtects(Step(s, Snapshot), ops, |s.snapshots|, s.current.logs, LogsOf(s));
    RevertRestores(s, ops);
    hide Run;
  }

  lemma {:induction false} RunKeepsLogsOk(s: TxnState, ops: seq<Op>)
    requires LogsOk(s) && RunAllowed(|s.snapshots|, ops)
    ensures LogsOk(Run(s, ops))
    decreases |ops|
  {
    if ops != [] {
      StepKeepsLogsOk(s, ops[0]);
      StepCount(s, ops[0]);
      hide Step, LogsOk;
      RunKeepsLogsOk(Step(s, ops[0]), ops[1..]);
    }
  }

  lemma StepKeepsLogsOk(s: TxnState, op: Op)
    requires LogsOk(s) && Allowed(s, op)
    ensures LogsOk(Step(s, op))
  {
    assert Protects(s, |s.snapshots|, NoLogs, []);
    if op.EmitLog? {
      EmitProtects(s, op.log, |s.snapshots|, NoLogs, []);
    }
  }

  // ---------- Out of order ----------

  /** Two snapshots with a log each after them, taken back out of order. */
  function TwiceTaken(s: TxnState, a: Log, b: Log): (r: (TxnState, TxnState))
    ensures |s.snapshots| + 1 < |r.1.snapshots|
  {
    var t := Step(Step(Step(s, Snapshot), EmitLog(a)), Snapshot);
    (t, Step(Step(t, Revert(|s.snapshots|)), EmitLog(b)))
  }

  lemma RoomIsShared(s: TxnState, a: Log, b: Log)
    requires LogsOk(s) && HasRoom(s.arrays, s.current.logs)
    ensures var (t, u) := TwiceTaken(s, a, b);
            LogsOf(t) == LogsOf(s) + [a] && LogsOf(Step(u, Revert(|s.snapshots| + 1))) == LogsOf(s) + [b]
  {
    var sl := s.current.logs;
    var cells := s.arrays[sl.id].cells;
    var one := WriteCell(s.arrays[sl.id], sl.len, a);
    assert one.cells[..sl.len + 1] == cells[..sl.len] + [a];
    var two := WriteCell(one, sl.len, b);
    assert two.cells[..sl.len + 1] == cells[..sl.len] + [b];
  }

  lemma CopiesAreApart(s: TxnState, a: Log, b: Log)
    requires LogsOk(s) && !HasRoom(s.arrays, s.current.logs)
    ensures var (t, u) := TwiceTaken(s, a, b);
            LogsOf(t) == LogsOf(s) + [a] && LogsOf(Step(u, Revert(|s.snapshots| + 1))) == LogsOf(s) + [a]
  {
  }

  /** A snapshot, a log and a second snapshot; back to the first, another log, and on to the
      second: it reads its own log if and only if the array was full, or the logs are equal. */
  lemma OutOfOrderIff(s: TxnState, a: Log, b: Log)
    requires LogsOk(s)
    ensures var (t, u) := TwiceTaken(s, a, b);
            LogsOf(Step(u, Revert(|s.snapshots| + 1))) == LogsOf(t) <==> !HasRoom(s.arrays, s.current.logs) || a == b
  {
    hide TwiceTaken, LogsOf, LogsOk;
    if HasRoom(s.arrays, s.current.logs) {
      RoomIsShared(s, a, b);
      assert (LogsOf(s) + [a])[|LogsOf(s)|] == a && (LogsOf(s) + [b])[|LogsOf(s)|] == b;
    } else {
      CopiesAreApart(s, a, b);
    }
  }

  function Three(base: Base, x: Log): TxnState {
    Step(Step(Step(Begin(base), EmitLog(x)), EmitLog(x)), EmitLog(x))
  }

  lemma FullSlice(s: TxnState, x: Log)
    requires SliceOk(s.arrays, s.current.logs) && !HasRoom(s.arrays, s.current.logs)
    ensures var t := Step(s, EmitLog(x));
            var n := |LogsOf(s)|;
            && t.current.logs == LogSlice(|s.arrays|, n + 1) && |t.arrays| == |s.arrays| + 1
            && |t.arrays[|s.arrays|].cells| == n + 1 && t.arrays[|s.arrays|].capacity == Grown(n) && |LogsOf(t)| == n + 1
  {
  }

  /** Three logs leave room for a fourth in their array. */
  lemma ThreeHaveRoom(base: Base, x: Log)
    ensures HasRoom(Three(base, x).arrays, Three(base, x).current.logs)
  {
    hide Step;
    var s := Begin(base);
    FullSlice(s, x);
    s := Step(s, EmitLog(x));
    FullSlice(s, x);
    s := Step(s, EmitLog(x));
    FullSlice(s, x);
  }

  // ---------- Whole runs ----------

  /** The reference: a list of logs, with whole copies as snapshots. */
  datatype PlainLogs = PlainLogs(current: seq<Log>, snapshots: seq<seq<Log>>)

  function LogStep(t: PlainLogs, op: Op): PlainLogs
    requires op.Revert? ==> op.id < |t.snapshots|
  {
    match op
    case EmitLog(l) => t.(current := t.current + [l])
    case TakeLogs => t.(current := [])
    case Snapshot => t.(snapshots := t.snapshots + [t.current])
    case Revert(id) => t.(current := t.snapshots[id])
    case _ => t
  }

  function LogRun(t: PlainLogs, ops: seq<Op>): PlainLogs
    requires RunAllowed(|t.snapshots|, ops)
    decreases |ops|
  {
    if ops == [] then t else LogRun(LogStep(t, ops[0]), ops[1..])
  }

  /** The snapshots a nested run may still go back to, when `n` were taken. */
  function StillLive(live: set<nat>, n: nat, op: Op): set<nat> {
    if op.Snapshot? then live + {n} else if op.Revert? then set i | i in live && i <= op.id else live
  }

  predicate Nested(live: set<nat>, n: nat, ops: seq<Op>)
    decreases |ops|
  {
    ops == [] ||
    ((ops[0].Revert? ==> ops[0].id in live) &&
     Nested(StillLive(live, n, ops[0]), if ops[0].Snapshot? then n + 1 else n, ops[1..]))
  }

  /** A live snapshot reads as it should, and neither the current slice nor a later live one
      ends inside it. */
  ghost predicate LiveOk(s: TxnState, t: PlainLogs, live: set<nat>, i: nat) {
    && i < |s.snapshots| == |t.snapshots|
    && Contents(s.arrays, s.snapshots[i].logs) == t.snapshots[i]
    && Past(s.current.logs, s.snapshots[i].logs)
    && (forall j :: j in live && i < j < |s.snapshots| ==> Past(s.snapshots[j].logs, s.snapshots[i].logs))
  }

  ghost predicate Matches(s: TxnState, t: PlainLogs, live: set<nat>) {
    && LogsOk(s) && |s.snapshots| == |t.snapshots| && LogsOf(s) == t.current
    && (forall i {:trigger LiveOk(s, t, live, i)} :: i in live ==> LiveOk(s, t, live, i))
  }

  lemma EmitMatches(s: TxnState, t: PlainLogs, live: set<nat>, l: Log)
    requires Matches(s, t, live)
    ensures Matches(Step(s, EmitLog(l)), LogStep(t, EmitLog(l)), live)
  {
    var s', t' := Step(s, EmitLog(l)), LogStep(t, EmitLog(l));
    StepKeepsLogsOk(s, EmitLog(l));
    AppendAppends(s.arrays, s.current.logs, l);
    hide Append, Contents;
    forall i | i in live ensures LiveOk(s', t', live, i) {
      assert LiveOk(s, t, live, i);
      AppendPast(s.arrays, s.current.logs, l, s.snapshots[i].logs);
    }
  }

  lemma SnapshotMatches(s: TxnState, t: PlainLogs, live: set<nat>)
    requires Matches(s, t, live)
    ensures Matches(Step(s, Snapshot), LogStep(t, Snapshot), live + {|s.snapshots|})
  {
    var s', t', n := Step(s, Snapshot), LogStep(t, Snapshot), |s.snapshots|;
    forall i | i in live + {n} ensures LiveOk(s', t', live + {n}, i) {
      assert i in live ==> LiveOk(s, t, live, i);
    }
  }

  lemma RevertMatches(s: TxnState, t: PlainLogs, live: set<nat>, id: nat)
    requires Matches(s, t, live) && id in live
    ensures id < |s.snapshots| == |t.snapshots|
    ensures Matches(Step(s, Revert(id)), LogStep(t, Revert(id)), set i | i in live && i <= id)
  {
    assert LiveOk(s, t, live, id);
    var s', t', kept := Step(s, Revert(id)), LogStep(t, Revert(id)), set i | i in live && i <= id;
    forall i | i in kept ensures LiveOk(s', t', kept, i) {
      assert LiveOk(s, t, live, i);
    }
  }

  lemma OtherMatches(s: TxnState, t: PlainLogs, live: set<nat>, op: Op)
    requires Matches(s, t, live) && !op.EmitLog? && !op.Snapshot? && !op.Revert?
    ensures Matches(Step(s, op), LogStep(t, op), live)
  {
    StepKeepsLogsOk(s, op);
    forall i | i in live ensures LiveOk(Step(s, op), LogStep(t, op), live, i) {
      assert LiveOk(s, t, live, i);
    }
  }

  lemma StepMatches(s: TxnState, t: PlainLogs, live: set<nat>, op: Op)
    requires Matches(s, t, live) && (op.Revert? ==> op.id in live)
    ensures Allowed(s, op) && (op.Revert? ==> op.id < |t.snapshots|)
    ensures Matches(Step(s, op), LogStep(t, op), StillLive(live, |s.snapshots|, op))
  {
    if op.Revert? {
      RevertMatches(s, t, live, op.id);
    }
    hide Matches, Step;
    match op
    case EmitLog(l) => EmitMatches(s, t, live, l);
    case Snapshot => SnapshotMatches(s, t, live);
    case Revert(id) =>
    case _ => OtherMatches(s, t, live, op);
  }

  /** In every nested run the logs are those of a plain list with whole copies as snapshots. */
  lemma {:induction false} NestedRunRefines(s: TxnState, t: PlainLogs, live: set<nat>, ops: seq<Op>)
    requires Matches(s, t, live) && |s.snapshots| == |t.snapshots|
    requires RunAllowed(|s.snapshots|, ops) && Nested(live, |s.snapshots|, ops)
    ensures LogsOf(Run(s, ops)) == LogRun(t, ops).current
    decreases |ops|
  {
    hide Step, LogsOf;
    if ops != [] {
      StepMatches(s, t, live, ops[0]);
      StepCount(s, ops[0]);
      NestedRunRefines(Step(s, ops[0]), LogStep(t, ops[0]), StillLive(live, |s.snapshots|, ops[0]), ops[1..]);
    } else {
      CurrentMatches(s, t, live);
    }
  }

  lemma CurrentMatches(s: TxnState, t: PlainLogs, live: set<nat>)
    requires Matches(s, t, live)
    ensures LogsOf(s) == t.current
  {
  }

  lemma BeginMatches(base: Base)
    ensures Matches(Begin(base), PlainLogs([], []), {})
  {
  }
}
