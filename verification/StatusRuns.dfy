/** What the ClusterOperator status says after any run of calls, and what a run leaves alone. */
module StatusRuns {
  import opened Results
  import opened Conditions
  import opened Status
  import PascalCase

  /** The store after a run that starts with no ClusterOperator object. */
  function Run(calls: seq<Call>, related: seq<ObjectReference>): Option<View> {
    RunFrom(None, calls, related)
  }

  function RunFrom(start: Option<View>, calls: seq<Call>, related: seq<ObjectReference>): Option<View> {
    if calls == [] then start
    else Step(RunFrom(start, calls[..|calls| - 1], related), calls[|calls| - 1], related)
  }

  // ---------- Reading a run, without looking at any status ----------

  /** The i-th call gets to write. */
  ghost predicate Took(calls: seq<Call>, i: nat, related: seq<ObjectReference>)
    requires i < |calls|
  {
    Effective(Run(calls[..i], related), calls[i], related)
  }

  ghost predicate IsVerdict(calls: seq<Call>, i: nat, related: seq<ObjectReference>)
    requires i < |calls|
  {
    Took(calls, i, related) && !calls[i].kind.InProgress?
  }

  ghost predicate NoVerdictAfter(calls: seq<Call>, i: nat, related: seq<ObjectReference>) {
    forall j :: i < j < |calls| ==> !IsVerdict(calls, j, related)
  }

  /** The i-th call is the last SetDone or SetFailed that took effect. */
  ghost predicate LastVerdict(calls: seq<Call>, i: nat, related: seq<ObjectReference>) {
    i < |calls| && IsVerdict(calls, i, related) && NoVerdictAfter(calls, i, related)
  }

  /** The i-th call is the last SetDone that took effect. */
  ghost predicate LastDone(calls: seq<Call>, i: nat, related: seq<ObjectReference>) {
    i < |calls| && Took(calls, i, related) && calls[i].kind.Done? &&
    forall j :: i < j < |calls| ==> !(Took(calls, j, related) && calls[j].kind.Done?)
  }

  ghost predicate EndsDone(calls: seq<Call>, related: seq<ObjectReference>) {
    exists i: nat :: LastVerdict(calls, i, related) && calls[i].kind.Done?
  }

  ghost predicate EndsFailed(calls: seq<Call>, related: seq<ObjectReference>) {
    exists i: nat :: LastVerdict(calls, i, related) && calls[i].kind.Failed?
  }

  /** The version of the last SetDone that took effect. */
  ghost function Recorded(calls: seq<Call>, related: seq<ObjectReference>): string {
    if exists i: nat :: LastDone(calls, i, related) then
      var i: nat :| LastDone(calls, i, related); calls[i].version
    else ""
  }

  /**
    The j-th call is a SetInProgress that took effect after every verdict, and was not made while
    done at the very version it reconciles.
   */
  ghost predicate Reopens(calls: seq<Call>, j: nat, related: seq<ObjectReference>) {
    && j < |calls| && Took(calls, j, related) && calls[j].kind.InProgress?
    && NoVerdictAfter(calls, j, related)
    && !(EndsDone(calls, related) && calls[j].version == Recorded(calls, related))
  }

  ghost predicate EndsReopened(calls: seq<Call>, related: seq<ObjectReference>) {
    exists j: nat :: Reopens(calls, j, related)
  }

  ghost predicate Is(v: Option<View>, kind: Kind, status: ConditionStatus) {
    v.Some? && kind in v.value.table && v.value.table[kind].status == status
  }

  // ---------- One more call ----------

  lemma TookPrefix(calls: seq<Call>, i: nat, related: seq<ObjectReference>)
    requires i < |calls| - 1
    ensures Took(calls[..|calls| - 1], i, related) == Took(calls, i, related)
  {
    assert calls[..|calls| - 1][..i] == calls[..i];
  }

  lemma LastVerdictSnoc(calls: seq<Call>, related: seq<ObjectReference>)
    requires calls != []
    ensures var n := |calls| - 1;
            forall i: nat ::
              LastVerdict(calls, i, related) <==>
              if IsVerdict(calls, n, related) then i == n else LastVerdict(calls[..n], i, related)
  {
    var n := |calls| - 1;
    forall i: nat | i < n
      ensures IsVerdict(calls[..n], i, related) == IsVerdict(calls, i, related)
    {
      TookPrefix(calls, i, related);
    }
  }

  lemma LastDoneSnoc(calls: seq<Call>, related: seq<ObjectReference>)
    requires calls != []
    ensures var n := |calls| - 1;
            forall i: nat ::
              LastDone(calls, i, related) <==>
              if Took(calls, n, related) && calls[n].kind.Done? then i == n else LastDone(calls[..n], i, related)
  {
    var n := |calls| - 1;
    forall i: nat | i < n
      ensures Took(calls[..n], i, related) == Took(calls, i, related)
    {
      TookPrefix(calls, i, related);
    }
  }

  lemma LastDoneUnique(calls: seq<Call>, i: nat, related: seq<ObjectReference>)
    requires LastDone(calls, i, related)
    ensures Recorded(calls, related) == calls[i].version
  {
  }

  lemma RecordedSnoc(calls: seq<Call>, related: seq<ObjectReference>)
    requires calls != []
    ensures var n := |calls| - 1;
            Recorded(calls, related) ==
            if Took(calls, n, related) && calls[n].kind.Done? then calls[n].version else Recorded(calls[..n], related)
  {
    var n := |calls| - 1;
    LastDoneSnoc(calls, related);
    if Took(calls, n, related) && calls[n].kind.Done? {
      LastDoneUnique(calls, n, related);
    } else if i: nat :| LastDone(calls[..n], i, related) {
      LastDoneUnique(calls[..n], i, related);
      LastDoneUnique(calls, i, related);
    }
  }

  lemma VerdictSnoc(calls: seq<Call>, related: seq<ObjectReference>)
    requires calls != []
    ensures var n := |calls| - 1;
            && (EndsDone(calls, related) <==>
                if IsVerdict(calls, n, related) then calls[n].kind.Done? else EndsDone(calls[..n], related))
            && (EndsFailed(calls, related) <==>
                if IsVerdict(calls, n, related) then calls[n].kind.Failed? else EndsFailed(calls[..n], related))
  {
    var n := |calls| - 1;
    LastVerdictSnoc(calls, related);
    assert LastVerdict(calls, n, related) <==> IsVerdict(calls, n, related);
    if !IsVerdict(calls, n, related) {
      forall i: nat
        ensures LastVerdict(calls, i, related) <==> LastVerdict(calls[..n], i, related)
      {
      }
      if i: nat :| LastVerdict(calls[..n], i, related) && calls[i].kind.Done? {
        assert LastVerdict(calls, i, related);
      }
      if i: nat :| LastVerdict(calls[..n], i, related) && calls[i].kind.Failed? {
        assert LastVerdict(calls, i, related);
      }
    }
  }

  lemma ReopenedSnoc(calls: seq<Call>, related: seq<ObjectReference>)
    requires calls != []
    ensures var n := |calls| - 1;
            EndsReopened(calls, related) <==>
            !IsVerdict(calls, n, related) &&
            (EndsReopened(calls[..n], related) ||
             (Took(calls, n, related) &&
              !(EndsDone(calls[..n], related) && calls[n].version == Recorded(calls[..n], related))))
  {
    if IsVerdict(calls, |calls| - 1, related) {
      assert forall j: nat :: !Reopens(calls, j, related);
    } else {
      VerdictSnoc(calls, related);
      RecordedSnoc(calls, related);
      ReopenedWithoutVerdict(calls, related);
    }
  }

  lemma ReopenedWithoutVerdict(calls: seq<Call>, related: seq<ObjectReference>)
    requires calls != [] && !IsVerdict(calls, |calls| - 1, related)
    requires Recorded(calls, related) == Recorded(calls[..|calls| - 1], related)
    requires EndsDone(calls, related) == EndsDone(calls[..|calls| - 1], related)
    ensures var n := |calls| - 1;
            EndsReopened(calls, related) <==>
            EndsReopened(calls[..n], related) || Reopens(calls, n, related)
    ensures var n := |calls| - 1;
            Reopens(calls, n, related) <==>
            Took(calls, n, related) && !(EndsDone(calls[..n], related) && calls[n].version == Recorded(calls[..n], related))
  {
    var n := |calls| - 1;
    ReopensOlder(calls, related);
    if EndsReopened(calls[..n], related) {
      var j: nat :| Reopens(calls[..n], j, related);
      assert Reopens(calls, j, related);
    }
  }

  lemma VerdictsPrefix(calls: seq<Call>, j: nat, related: seq<ObjectReference>)
    requires j < |calls| - 1 && !IsVerdict(calls, |calls| - 1, related)
    ensures NoVerdictAfter(calls, j, related) <==> NoVerdictAfter(calls[..|calls| - 1], j, related)
  {
    var n := |calls| - 1;
    forall k: nat | k < n
      ensures IsVerdict(calls[..n], k, related) == IsVerdict(calls, k, related)
    {
      TookPrefix(calls, k, related);
    }
  }

  lemma ReopensOlder(calls: seq<Call>, related: seq<ObjectReference>)
    requires calls != [] && !IsVerdict(calls, |calls| - 1, related)
    requires Recorded(calls, related) == Recorded(calls[..|calls| - 1], related)
    requires EndsDone(calls, related) == EndsDone(calls[..|calls| - 1], related)
    ensures var n := |calls| - 1;
            forall j: nat | j < n :: Reopens(calls, j, related) <==> Reopens(calls[..n], j, related)
  {
    var n := |calls| - 1;
    forall j: nat | j < n
      ensures Reopens(calls, j, related) <==> Reopens(calls[..n], j, related)
    {
      TookPrefix(calls, j, related);
      VerdictsPrefix(calls, j, related);
    }
  }

  // ---------- The status after any run ----------

  /** What a status shows. */
  ghost predicate Shows(v: Option<View>, done: bool, failed: bool, version: string, reopened: bool) {
    && (Is(v, Available, ConditionTrue) <==> done)
    && (Is(v, Degraded, ConditionTrue) <==> failed)
    && (Is(v, Progressing, ConditionTrue) <==> reopened)
    && (v.Some? ==> v.value.versions == VersionsFor(version))
    && (done ==> v.Some?)
  }

  lemma CurrentOfRecorded(version: string)
    ensures CurrentVersion(VersionsFor(version)) == version
  {
  }

  lemma DoneShows(seen: View, call: Call, related: seq<ObjectReference>)
    requires call.kind.Done?
    ensures Shows(Some(Written(seen, call, related)), true, false, call.version, false)
  {
  }

  lemma FailedShows(seen: View, call: Call, related: seq<ObjectReference>, version: string)
    requires call.kind.Failed? && seen.versions == VersionsFor(version)
    ensures Shows(Some(Written(seen, call, related)), false, true, version, false)
  {
  }

  lemma InProgressShows(seen: View, call: Call, related: seq<ObjectReference>,
                        done: bool, failed: bool, version: string, reopened: bool)
    requires call.kind.InProgress?
    requires Shows(Some(seen), done, failed, version, reopened)
    ensures Shows(Some(Written(seen, call, related)), done, failed, version,
                  reopened || !(done && call.version == version))
  {
    CurrentOfRecorded(version);
    var t := Base(call.env.now) + seen.table;
    assert Available in t && Degraded in t && Progressing in t;
  }

  lemma StepShows(v: Option<View>, call: Call, related: seq<ObjectReference>,
                  done: bool, failed: bool, version: string, reopened: bool)
    requires Shows(v, done, failed, version, reopened)
    requires v.None? ==> version == "" && !reopened
    ensures var took := Effective(v, call, related);
            var verdict := took && !call.kind.InProgress?;
            Shows(Step(v, call, related),
                  if verdict then call.kind.Done? else done,
                  if verdict then call.kind.Failed? else failed,
                  if verdict && call.kind.Done? then call.version else version,
                  !verdict && (reopened || (took && !(done && call.version == version))))
    ensures Effective(v, call, related) ==> Step(v, call, related).Some?
  {
    var (after, seen) := Opened(v, call.env, related);
    assert after.Some? ==> Shows(after, done, failed, version, reopened);
    if Effective(v, call, related) {
      assert Shows(Some(seen.value), done, failed, version, reopened);
      match call.kind {
        case Done => DoneShows(seen.value, call, related);
        case Failed(_, _) => FailedShows(seen.value, call, related, version);
        case InProgress => InProgressShows(seen.value, call, related, done, failed, version, reopened);
      }
    }
  }

  lemma {:induction false} RunShows(calls: seq<Call>, related: seq<ObjectReference>)
    ensures Shows(Run(calls, related), EndsDone(calls, related), EndsFailed(calls, related),
                  Recorded(calls, related), EndsReopened(calls, related))
    ensures Run(calls, related).None? ==> Recorded(calls, related) == "" && !EndsReopened(calls, related)
  {
    if calls != [] {
      var n := |calls| - 1;
      var p := calls[..n];
      RunShows(p, related);
      StepShows(Run(p, related), calls[n], related, EndsDone(p, related), EndsFailed(p, related),
                Recorded(p, related), EndsReopened(p, related));
      VerdictSnoc(calls, related);
      RecordedSnoc(calls, related);
      ReopenedSnoc(calls, related);
    }
  }

  /**
    The status refines the trace of calls. After any run from no object, with any versions, clocks
    and API faults: Available is True exactly when the last SetDone or SetFailed to take effect was
    SetDone; Degraded is True exactly when it was SetFailed; the version list is what the last
    SetDone wrote; Progressing is True exactly when some later SetInProgress took effect that was not
    made while done at the recorded version.
   */
  lemma StatusRefinesTrace(calls: seq<Call>, related: seq<ObjectReference>)
    ensures var v := Run(calls, related);
            && (Is(v, Available, ConditionTrue) <==> EndsDone(calls, related))
            && (Is(v, Degraded, ConditionTrue) <==> EndsFailed(calls, related))
            && (Is(v, Progressing, ConditionTrue) <==> EndsReopened(calls, related))
            && (v.Some? ==>
                  v.value.versions ==
                  if Recorded(calls, related) == "" then [] else [OperandVersion("operator", Recorded(calls, related))])
    ensures forall i: nat :: LastDone(calls, i, related) ==> Recorded(calls, related) == calls[i].version
  {
    RunShows(calls, related);
    forall i: nat | LastDone(calls, i, related)
      ensures Recorded(calls, related) == calls[i].version
    {
      LastDoneUnique(calls, i, related);
    }
  }

  /** Progressing while Available means a rollout at another version than the recorded one was begun. */
  lemma ProgressingWhileAvailable(calls: seq<Call>, related: seq<ObjectReference>)
    requires Is(Run(calls, related), Available, ConditionTrue) && Is(Run(calls, related), Progressing, ConditionTrue)
    ensures exists j :: 0 <= j < |calls| && Took(calls, j, related) && calls[j].kind.InProgress? &&
              calls[j].version != CurrentVersion(Run(calls, related).value.versions)
  {
    StatusRefinesTrace(calls, related);
    var j: nat :| Reopens(calls, j, related);
    CurrentOfRecorded(Recorded(calls, related));
  }

  // ---------- What stays as it is ----------

  /** One entry across a table change: kept whole if its status and message are, or if it is foreign. */
  ghost predicate Carried(t: Table, u: Table, kind: Kind) {
    && kind in t && kind in u
    && (u[kind].status == t[kind].status && u[kind].message == t[kind].message ==> u[kind] == t[kind])
    && (kind.Foreign? ==> u[kind] == t[kind])
  }

  lemma DoneCarries(t: Table, now: int, kind: Kind)
    requires kind in t
    ensures Carried(t, DoneTable(t, now), kind)
  {
  }

  lemma InProgressCarries(t: Table, current: string, target: string, now: int, kind: Kind)
    requires kind in t
    ensures Carried(t, InProgressTable(t, current, target, now), kind)
  {
  }

  lemma FailedCarries(t: Table, error: string, reason: string, now: int, kind: Kind)
    requires kind in t
    ensures Carried(t, FailedTable(t, error, reason, now), kind)
  {
  }

  /** An entry whose status and message survive a call survives whole, transition time included. */
  lemma EntryKept(v: View, call: Call, related: seq<ObjectReference>, kind: Kind)
    requires kind in v.table
    ensures Step(Some(v), call, related).Some?
    ensures Carried(v.table, Step(Some(v), call, related).value.table, kind)
  {
    var t := Base(call.env.now) + v.table;
    assert t[kind] == v.table[kind];
    match call.kind {
      case Done => DoneCarries(t, call.env.now, kind);
      case InProgress => InProgressCarries(t, CurrentVersion(v.versions), call.version, call.env.now, kind);
      case Failed(error, reason) =>
        FailedCarries(t, error, PascalCase.Pascal(reason), call.env.now, kind);
    }
  }

  /** Over a run: conditions of other owners never change, and a time changes only with a status or message. */
  lemma {:induction false} EntryKeptOverRun(v: View, calls: seq<Call>, related: seq<ObjectReference>, kind: Kind)
    requires kind in v.table
    ensures RunFrom(Some(v), calls, related).Some? && kind in RunFrom(Some(v), calls, related).value.table
    ensures kind.Foreign? ==> RunFrom(Some(v), calls, related).value.table[kind] == v.table[kind]
    ensures (forall i :: 0 <= i <= |calls| ==> Same(RunFrom(Some(v), calls[..i], related), v.table[kind], kind)) ==>
            RunFrom(Some(v), calls, related).value.table[kind] == v.table[kind]
  {
    if calls != [] {
      var n := |calls| - 1;
      EntryKeptOverRun(v, calls[..n], related, kind);
      EntryKept(RunFrom(Some(v), calls[..n], related).value, calls[n], related, kind);
      if forall i :: 0 <= i <= |calls| ==> Same(RunFrom(Some(v), calls[..i], related), v.table[kind], kind) {
        forall i | 0 <= i <= n
          ensures Same(RunFrom(Some(v), calls[..n][..i], related), v.table[kind], kind)
        {
          assert calls[..n][..i] == calls[..i];
        }
        assert calls[..|calls|] == calls;
        assert Same(RunFrom(Some(v), calls[..|calls|], related), v.table[kind], kind);
      }
    }
  }

  ghost predicate Same(v: Option<View>, c: Condition, kind: Kind) {
    v.Some? && kind in v.value.table && v.value.table[kind].status == c.status && v.value.table[kind].message == c.message
  }

  // ---------- What a call writes ----------

  /** The entry a call asks for, kind by kind. */
  function Asked(call: CallKind, kind: Kind, now: int): Option<Condition> {
    match call
    case Done =>
      (match kind
       case Available =>
         Some(Condition(Available, ConditionTrue, now, "Successfully rolled out the stack.", "RollOutDone"))
       case Progressing => Some(Condition(Progressing, ConditionFalse, now, "", ""))
       case Degraded => Some(Condition(Degraded, ConditionFalse, now, "", ""))
       case Upgradeable => Some(Condition(Upgradeable, ConditionTrue, now, "", ""))
       case Foreign(_) => None)
    case InProgress =>
      (match kind
       case Progressing =>
         Some(Condition(Progressing, ConditionTrue, now, "Rolling out the stack.", "RollOutInProgress"))
       case Upgradeable =>
         Some(Condition(Upgradeable, ConditionTrue, now,
                        "Rollout of the monitoring stack is in progress. Please wait until it finishes.", "RollOutInProgress"))
       case _ => None)
    case Failed(error, reason) =>
      (match kind
       case Available => Some(Condition(Available, ConditionFalse, now, "", ""))
       case Progressing => Some(Condition(Progressing, ConditionFalse, now, "", ""))
       case Degraded =>
         Some(Condition(Degraded, ConditionTrue, now, "Failed to rollout the stack. Error: " + error, PascalCase.Pascal(reason)))
       case Upgradeable =>
         Some(Condition(Upgradeable, ConditionTrue, now,
                        "Rollout of the monitoring stack failed and is degraded. Please investigate the degraded status error.",
                        PascalCase.Pascal(reason)))
       case Foreign(_) => None)
  }

  /** An entry across one table change: it has the wanted status and message, and is the old one if that had them. */
  ghost predicate MovesTo(t: Table, u: Table, want: Condition) {
    && want.kind in t && want.kind in u
    && if t[want.kind].status == want.status && t[want.kind].message == want.message then u[want.kind] == t[want.kind]
       else u[want.kind] == want
  }

  /** The same for a call: without a wish for the kind, the entry stays. */
  ghost predicate Moves(t: Table, u: Table, kind: Kind, want: Option<Condition>) {
    && kind in t && kind in u
    && (want.None? ==> u[kind] == t[kind])
    && (want.Some? ==> want.value.kind == kind && MovesTo(t, u, want.value))
  }

  ghost predicate Owned(t: Table) {
    Available in t && Progressing in t && Degraded in t && Upgradeable in t
  }

  lemma EnteredMoves(t: Table, want: Condition)
    requires want.kind in t
    ensures var u := Entered(t, want.kind, want.status, want.message, want.reason, want.time);
            MovesTo(t, u, want) && forall k :: k != want.kind ==> (k in u <==> k in t) && (k in t ==> u[k] == t[k])
  {
  }

  lemma DoneMoves(t: Table, now: int, kind: Kind)
    requires Owned(t) && !kind.Foreign?
    ensures Moves(t, DoneTable(t, now), kind, Asked(Done, kind, now))
  {
    EnteredMoves(t, Asked(Done, Available, now).value);
    var t1 := Entered(t, Available, ConditionTrue, DONE_MESSAGE, "RollOutDone", now);
    EnteredMoves(t1, Asked(Done, Progressing, now).value);
    var t2 := Entered(t1, Progressing, ConditionFalse, "", "", now);
    EnteredMoves(t2, Asked(Done, Degraded, now).value);
    var t3 := Entered(t2, Degraded, ConditionFalse, "", "", now);
    EnteredMoves(t3, Asked(Done, Upgradeable, now).value);
  }

  lemma FailedMoves(t: Table, error: string, reason: string, now: int, kind: Kind)
    requires Owned(t) && !kind.Foreign?
    ensures Moves(t, FailedTable(t, error, PascalCase.Pascal(reason), now), kind, Asked(Failed(error, reason), kind, now))
  {
    var call, pascal := Failed(error, reason), PascalCase.Pascal(reason);
    EnteredMoves(t, Asked(call, Available, now).value);
    var t1 := Entered(t, Available, ConditionFalse, "", "", now);
    EnteredMoves(t1, Asked(call, Progressing, now).value);
    var t2 := Entered(t1, Progressing, ConditionFalse, "", "", now);
    EnteredMoves(t2, Asked(call, Degraded, now).value);
    var t3 := Entered(t2, Degraded, ConditionTrue, FAILED_MESSAGE + error, pascal, now);
    EnteredMoves(t3, Asked(call, Upgradeable, now).value);
  }

  /** What a call made at a version asks for: while available at that very version, no progress. */
  function AskedOf(seen: View, call: Call, kind: Kind): Option<Condition> {
    if call.kind.InProgress? && kind == Progressing &&
       Available in seen.table && seen.table[Available].status == ConditionTrue &&
       call.version == (if seen.versions == [] then "" else seen.versions[0].version)
    then None
    else Asked(call.kind, kind, call.env.now)
  }

  lemma InProgressMoves(seen: View, t: Table, call: Call, kind: Kind)
    requires Owned(t) && !kind.Foreign? && call.kind.InProgress?
    requires t == Base(call.env.now) + seen.table
    ensures Moves(t, InProgressTable(t, CurrentVersion(seen.versions), call.version, call.env.now), kind, AskedOf(seen, call, kind))
  {
    var now := call.env.now;
    var idle := Suppressed(t, CurrentVersion(seen.versions), call.version, Progressing, ConditionTrue);
    assert idle <==> AskedOf(seen, call, Progressing).None?;
    EnteredMoves(t, Asked(InProgress, Progressing, now).value);
    var t1 := if idle then t else Entered(t, Progressing, ConditionTrue, PROGRESS_MESSAGE, "RollOutInProgress", now);
    EnteredMoves(t1, Asked(InProgress, Upgradeable, now).value);
  }

  // ---------- When an entry last changed ----------

  /** Status and message of an owned kind; before there is an entry it is unknown. */
  function Showing(v: Option<View>, kind: Kind): (ConditionStatus, string) {
    if v.Some? && kind in v.value.table then (v.value.table[kind].status, v.value.table[kind].message)
    else (ConditionUnknown, "")
  }

  /** The entry is the one the call asks for, written at the call's own instant. */
  ghost predicate WrittenBy(v: Option<View>, kind: Kind, call: Call) {
    v.Some? && kind in v.value.table && Some(v.value.table[kind]) == Asked(call.kind, kind, call.env.now)
  }

  lemma StepMoves(v: Option<View>, call: Call, related: seq<ObjectReference>, kind: Kind)
    requires !kind.Foreign?
    ensures var u := Step(v, call, related);
            && (Showing(u, kind) != Showing(v, kind) ==> Effective(v, call, related) && WrittenBy(u, kind, call))
            && (Showing(u, kind) == Showing(v, kind) && v.Some? && kind in v.value.table ==>
                  u.Some? && kind in u.value.table && u.value.table[kind] == v.value.table[kind])
  {
    var (after, seen) := Opened(v, call.env, related);
    assert Showing(after, kind) == Showing(v, kind);
    if Effective(v, call, related) {
      assert Showing(seen, kind) == Showing(v, kind);
      WrittenMoves(seen.value, call, related, kind);
    }
  }

  lemma WrittenMoves(seen: View, call: Call, related: seq<ObjectReference>, kind: Kind)
    requires !kind.Foreign?
    ensures Moves(Base(call.env.now) + seen.table, Written(seen, call, related).table, kind, AskedOf(seen, call, kind))
    ensures Showing(Some(View(Base(call.env.now) + seen.table, [], [])), kind) == Showing(Some(seen), kind)
    ensures kind in seen.table ==> (Base(call.env.now) + seen.table)[kind] == seen.table[kind]
  {
    var t := Base(call.env.now) + seen.table;
    match call.kind {
      case Done => DoneMoves(t, call.env.now, kind);
      case InProgress => InProgressMoves(seen, t, call, kind);
      case Failed(error, reason) => FailedMoves(t, error, reason, call.env.now, kind);
    }
  }

  /** The i-th call of a run changes the status or message of a kind. */
  ghost predicate Changes(start: Option<View>, calls: seq<Call>, i: nat, related: seq<ObjectReference>, kind: Kind) {
    i < |calls| &&
    Showing(RunFrom(start, calls[..i], related), kind) != Showing(RunFrom(start, calls[..i + 1], related), kind)
  }

  /**
    Transition times over a run from any start: an owned entry is exactly what the last call that
    changed its status or message asked for, with that call's clock reading as its time. That call
    took effect.
   */
  lemma {:induction false} EntryIsOfLastChange(start: Option<View>, calls: seq<Call>, i: nat, related: seq<ObjectReference>,
                                               kind: Kind)
    requires !kind.Foreign? && Changes(start, calls, i, related, kind)
    requires forall j: nat :: i < j ==> !Changes(start, calls, j, related, kind)
    ensures Effective(RunFrom(start, calls[..i], related), calls[i], related)
    ensures WrittenBy(RunFrom(start, calls, related), kind, calls[i])
    decreases |calls|
  {
    var n := |calls| - 1;
    assert calls[..n + 1] == calls;
    if i == n {
      StepMoves(RunFrom(start, calls[..n], related), calls[n], related, kind);
    } else {
      ChangesInPrefix(start, calls, related, kind);
      EntryIsOfLastChange(start, calls[..n], i, related, kind);
      assert calls[..n][..i] == calls[..i];
      QuietCallKeeps(start, calls, related, kind, calls[i]);
    }
  }

  lemma QuietCallKeeps(start: Option<View>, calls: seq<Call>, related: seq<ObjectReference>, kind: Kind, writer: Call)
    requires calls != [] && !kind.Foreign? && !Changes(start, calls, |calls| - 1, related, kind)
    requires WrittenBy(RunFrom(start, calls[..|calls| - 1], related), kind, writer)
    ensures WrittenBy(RunFrom(start, calls, related), kind, writer)
  {
    var n := |calls| - 1;
    assert calls[..n + 1] == calls;
    StepMoves(RunFrom(start, calls[..n], related), calls[n], related, kind);
  }

  lemma ChangesInPrefix(start: Option<View>, calls: seq<Call>, related: seq<ObjectReference>, kind: Kind)
    requires calls != []
    ensures var n := |calls| - 1;
            forall j: nat :: Changes(start, calls[..n], j, related, kind) <==> j < n && Changes(start, calls, j, related, kind)
  {
    var n := |calls| - 1;
    forall j: nat | j < n
      ensures Changes(start, calls[..n], j, related, kind) == Changes(start, calls, j, related, kind)
    {
      assert calls[..n][..j] == calls[..j] && calls[..n][..j + 1] == calls[..j + 1];
    }
  }

  /** An entry that was there at the start and that no call changed is what it was. */
  lemma {:induction false} UnchangedEntryStays(start: View, calls: seq<Call>, related: seq<ObjectReference>, kind: Kind)
    requires !kind.Foreign? && kind in start.table
    requires forall j: nat :: !Changes(Some(start), calls, j, related, kind)
    ensures var v := RunFrom(Some(start), calls, related);
            v.Some? && kind in v.value.table && v.value.table[kind] == start.table[kind]
    decreases |calls|
  {
    if calls != [] {
      var n := |calls| - 1;
      assert calls[..n + 1] == calls;
      assert !Changes(Some(start), calls, n, related, kind);
      ChangesInPrefix(Some(start), calls, related, kind);
      UnchangedEntryStays(start, calls[..n], related, kind);
      StepMoves(RunFrom(Some(start), calls[..n], related), calls[n], related, kind);
    }
  }

  /**
    A call that takes effect leaves the statuses and messages it asks for: SetDone and SetFailed on all
    four conditions, SetInProgress on Upgradeable, and on Progressing unless the operator is available
    at the very version. It leaves the other conditions.
   */
  lemma EffectiveCallShows(v: Option<View>, call: Call, related: seq<ObjectReference>, kind: Kind)
    requires Effective(v, call, related) && !kind.Foreign?
    ensures var idle := call.kind.InProgress? && kind == Progressing && v.Some? && Showing(v, Available).0 == ConditionTrue &&
                        call.version == (if v.value.versions == [] then "" else v.value.versions[0].version);
            var want := Asked(call.kind, kind, call.env.now);
            Showing(Step(v, call, related), kind) ==
            if idle || want.None? then Showing(v, kind) else (want.value.status, want.value.message)
  {
    var seen := Opened(v, call.env, related).1.value;
    assert Showing(Some(seen), kind) == Showing(v, kind) && Showing(Some(seen), Available) == Showing(v, Available);
    WrittenMoves(seen, call, related, kind);
  }

  // ---------- Related objects ----------

  /** The i-th call stores the related objects: it reports progress, or creates the object with its status. */
  ghost predicate Relates(calls: seq<Call>, i: nat, related: seq<ObjectReference>) {
    i < |calls| &&
    ((Took(calls, i, related) && calls[i].kind.InProgress?) ||
     (Run(calls[..i], related).None? && !calls[i].env.getFails && calls[i].env.create.Created?))
  }

  /** Over a run from no object, the related objects are stored exactly once some call has stored them. */
  lemma {:induction false} RelatedOverRun(calls: seq<Call>, related: seq<ObjectReference>)
    ensures var v := Run(calls, related);
            v.Some? ==> v.value.related == if exists i: nat :: Relates(calls, i, related) then related else []
    ensures Run(calls, related).None? ==> !exists i: nat :: Relates(calls, i, related)
  {
    if calls != [] {
      var n := |calls| - 1;
      RelatedOverRun(calls[..n], related);
      forall i: nat | i < n
        ensures Relates(calls, i, related) == Relates(calls[..n], i, related)
      {
        TookPrefix(calls, i, related);
        assert calls[..n][..i] == calls[..i];
      }
      RelatesStep(Run(calls[..n], related), calls[n], related);
      assert Relates(calls, n, related) || !Relates(calls, n, related);
      if i: nat :| Relates(calls[..n], i, related) {
        assert Relates(calls, i, related);
      }
    }
  }

  lemma RelatesStep(v: Option<View>, call: Call, related: seq<ObjectReference>)
    ensures var u := Step(v, call, related);
            var relates := (Effective(v, call, related) && call.kind.InProgress?) ||
                           (v.None? && !call.env.getFails && call.env.create.Created?);
            && (u.Some? ==> u.value.related == if relates then related else if v.Some? then v.value.related else [])
            && (u.None? ==> v.None? && !relates)
  {
  }

  /** A status as a SetDone at this version leaves it. */
  ghost predicate SettledAt(v: View, version: string) {
    && CurrentVersion(v.versions) == version
    && Same(Some(v), Condition(Available, ConditionTrue, 0, DONE_MESSAGE, ""), Available)
    && Same(Some(v), Condition(Progressing, ConditionFalse, 0, "", ""), Progressing)
    && Same(Some(v), Condition(Degraded, ConditionFalse, 0, "", ""), Degraded)
  }

  lemma DoneSettles(stored: Option<View>, call: Call, related: seq<ObjectReference>)
    requires call.kind.Done? && Effective(stored, call, related)
    ensures Step(stored, call, related).Some? && SettledAt(Step(stored, call, related).value, call.version)
  {
  }

  lemma QuietStep(v: View, call: Call, related: seq<ObjectReference>)
    requires !call.kind.Failed? && SettledAt(v, call.version)
    ensures Step(Some(v), call, related).Some?
    ensures var w := Step(Some(v), call, related).value;
            && SettledAt(w, call.version)
            && w.table[Available] == v.table[Available]
            && w.table[Progressing] == v.table[Progressing]
            && w.table[Degraded] == v.table[Degraded]
  {
  }

  /**
    Steady state is quiet: once a SetDone has taken effect, any number of SetInProgress and SetDone
    calls at the same version, in any order and with any faults, leave the Available, Progressing and
    Degraded entries as they are, transition times included.
   */
  lemma {:induction false} SteadyStateIsQuiet(
      stored: Option<View>, done: Call, calls: seq<Call>, related: seq<ObjectReference>)
    requires done.kind.Done? && Effective(stored, done, related)
    requires forall i :: 0 <= i < |calls| ==> !calls[i].kind.Failed? && calls[i].version == done.version
    ensures var v := Step(stored, done, related);
            var w := RunFrom(v, calls, related);
            && v.Some? && w.Some? && SettledAt(v.value, done.version) && SettledAt(w.value, done.version)
            && w.value.table[Available] == v.value.table[Available]
            && w.value.table[Progressing] == v.value.table[Progressing]
            && w.value.table[Degraded] == v.value.table[Degraded]
  {
    DoneSettles(stored, done, related);
    if calls != [] {
      var n := |calls| - 1;
      SteadyStateIsQuiet(stored, done, calls[..n], related);
      QuietStep(RunFrom(Step(stored, done, related), calls[..n], related).value, calls[n], related);
    }
  }
}
