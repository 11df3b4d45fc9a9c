/**
The compare-and-set protocol of `update_account_atomic` (sow-data/src/db.rs):
read the stored text, apply one mutator, and replace the text if it is still the
one that was read, up to five times.
*/
module AccountStore {
  import opened Wrappers
  import opened Accounts

  type Json = string

  /** How accounts are stored. Reading back what was written gives the same account. */
  datatype Format = Format(write: Account -> Json, read: Json -> Option<Account>) {
    ghost predicate Valid() {
      forall a :: read(write(a)) == Some(a)
    }
  }

  const ATTEMPTS: nat := 5

  /** `Unanswered`: the connection to the store failed before the reply to a round trip came. */
  datatype Failure = NotFound | Unreadable | Conflict | Unanswered

  // ---- Any number of callers, in any order ----

  /** Between its read and its compare-and-set a caller holds what it read and what it wants to write. */
  datatype Phase =
    | Ready
    | Waiting(expected: Json, updated: Account, now: nat)
    | Done(account: Account)
    | Failed(failure: Failure)

  datatype Call = Call(op: Op, attempts: nat, phase: Phase)

  datatype Commit = Commit(call: nat, now: nat)

  /** The stored text, the callers, and the successful compare-and-sets so far. */
  datatype State = State(store: Option<Json>, calls: seq<Call>, log: seq<Commit>)

  /** A round trip of a caller, or one whose reply is lost; its script may or may not have been executed by then. */
  datatype Step = Get(call: nat, now: nat) | CompareAndSet(call: nat) | Disconnect(call: nat, executed: bool)

  function WithPhase(s: State, i: nat, phase: Phase): State
    requires i < |s.calls|
  {
    s.(calls := s.calls[i := s.calls[i].(phase := phase)])
  }

  function DoGet(f: Format, s: State, i: nat, now: nat): State
    requires i < |s.calls| && s.calls[i].phase.Ready?
  {
    match s.store
    case None => WithPhase(s, i, Failed(NotFound))
    case Some(json) =>
      match f.read(json)
      case None => WithPhase(s, i, Failed(Unreadable))
      case Some(account) => WithPhase(s, i, Waiting(json, Apply(Update(s.calls[i].op, now), account), now))
  }

  /** The script replaces the text; `phase` is what the caller makes of its reply. */
  function Committing(f: Format, s: State, i: nat, phase: Phase): State
    requires i < |s.calls| && s.calls[i].phase.Waiting?
  {
    var w := s.calls[i].phase;
    WithPhase(s, i, phase).(store := Some(f.write(w.updated)), log := s.log + [Commit(i, w.now)])
  }

  function DoDisconnect(f: Format, s: State, i: nat, executed: bool): State
    requires i < |s.calls| && (s.calls[i].phase.Ready? || s.calls[i].phase.Waiting?)
  {
    var w := s.calls[i].phase;
    if executed && w.Waiting? && s.store == Some(w.expected) then Committing(f, s, i, Failed(Unanswered))
    else WithPhase(s, i, Failed(Unanswered))
  }

  function DoCompareAndSet(f: Format, s: State, i: nat): State
    requires i < |s.calls| && s.calls[i].phase.Waiting?
  {
    var call := s.calls[i];
    if s.store == Some(call.phase.expected) then
      Committing(f, s, i, Done(call.phase.updated))
    else
      var attempts := call.attempts + 1;
      var phase := if attempts == ATTEMPTS then Failed(Conflict) else Ready;
      s.(calls := s.calls[i := Call(call.op, attempts, phase)])
  }

  /** One round trip of one caller; a step that is not its turn does nothing. */
  function Exec(f: Format, s: State, step: Step): State {
    match step
    case Get(i, now) => if i < |s.calls| && s.calls[i].phase.Ready? then DoGet(f, s, i, now) else s
    case CompareAndSet(i) => if i < |s.calls| && s.calls[i].phase.Waiting? then DoCompareAndSet(f, s, i) else s
    case Disconnect(i, executed) =>
      if i < |s.calls| && (s.calls[i].phase.Ready? || s.calls[i].phase.Waiting?) then DoDisconnect(f, s, i, executed)
      else s
  }

  function Run(f: Format, s: State, steps: seq<Step>): State {
    if steps == [] then s else Exec(f, Run(f, s, steps[..|steps| - 1]), steps[|steps| - 1])
  }

  function Start(json: Json, ops: seq<Op>): State {
    State(Some(json), seq(|ops|, i requires 0 <= i < |ops| => Call(ops[i], 0, Ready)), [])
  }

  /** The committed mutators, in commit order. */
  function Committed(ops: seq<Op>, log: seq<Commit>): (r: seq<Update>)
    requires forall k :: 0 <= k < |log| ==> log[k].call < |ops|
    ensures |r| == |log| && forall k :: 0 <= k < |r| ==> r[k] == Update(ops[log[k].call], log[k].now)
  {
    seq(|log|, k requires 0 <= k < |log| => Update(ops[log[k].call], log[k].now))
  }

  /** The caller's mutator may have been committed. */
  predicate Over(phase: Phase) {
    phase.Done? || phase == Failed(Unanswered)
  }

  /**
  The log names callers, each at most once: all that were told of success, none that were told of a failure or
  are still at it, and of those that were not answered some.
  */
  ghost predicate LogOk(ops: seq<Op>, s: State) {
    && |s.calls| == |ops| && (forall i :: 0 <= i < |ops| ==> s.calls[i].op == ops[i])
    && (forall k :: 0 <= k < |s.log| ==> s.log[k].call < |ops| && Over(s.calls[s.log[k].call].phase))
    && (forall k, l :: 0 <= k < l < |s.log| ==> s.log[k].call != s.log[l].call)
    && (forall i :: 0 <= i < |ops| && s.calls[i].phase.Done? ==> exists k :: 0 <= k < |s.log| && s.log[k].call == i)
  }

  ghost predicate StoreOk(f: Format, a: Account, ops: seq<Op>, s: State)
    requires forall k :: 0 <= k < |s.log| ==> s.log[k].call < |ops|
  {
    s.store.Some? && f.read(s.store.value) == Some(Fold(a, Committed(ops, s.log)))
  }

  // What a waiting caller wants to write is its mutator applied to what it read.
  ghost predicate WaitingOk(f: Format, s: State) {
    forall i :: 0 <= i < |s.calls| && s.calls[i].phase.Waiting? ==>
      var w := s.calls[i].phase;
      var was := f.read(w.expected);
      was.Some? && w.updated == Apply(Update(s.calls[i].op, w.now), was.value)
  }

  /** A successful caller was handed the account exactly as its own commit left it. */
  ghost predicate AnswersOk(a: Account, ops: seq<Op>, s: State)
    requires forall k :: 0 <= k < |s.log| ==> s.log[k].call < |ops|
  {
    forall k :: 0 <= k < |s.log| && s.log[k].call < |s.calls| && s.calls[s.log[k].call].phase.Done? ==>
      s.calls[s.log[k].call].phase.account == Fold(a, Committed(ops, s.log)[..k + 1])
  }

  ghost predicate AttemptsOk(s: State) {
    forall i :: 0 <= i < |s.calls| ==>
      && s.calls[i].attempts <= ATTEMPTS
      && (s.calls[i].attempts == ATTEMPTS <==> s.calls[i].phase == Failed(Conflict))
  }

  /** No update is lost: what every reachable state satisfies. */
  ghost predicate Inv(f: Format, a: Account, ops: seq<Op>, s: State) {
    LogOk(ops, s) && StoreOk(f, a, ops, s) && WaitingOk(f, s) && AnswersOk(a, ops, s) && AttemptsOk(s)
  }

  lemma StartInv(f: Format, a: Account, json: Json, ops: seq<Op>)
    requires f.read(json) == Some(a)
    ensures Inv(f, a, ops, Start(json, ops))
  {
    assert Committed(ops, []) == [];
  }

  // A step that only changes one caller's phase or attempts, and no answers.
  lemma QuietStep(f: Format, a: Account, ops: seq<Op>, s: State, i: nat, call: Call)
    requires Inv(f, a, ops, s) && i < |s.calls| && call.op == s.calls[i].op
    requires !call.phase.Done? && !Over(s.calls[i].phase)
    requires call.phase.Waiting? ==>
               f.read(call.phase.expected).Some? &&
               call.phase.updated == Apply(Update(call.op, call.phase.now), f.read(call.phase.expected).value)
    requires call.attempts <= ATTEMPTS && (call.attempts == ATTEMPTS <==> call.phase == Failed(Conflict))
    ensures Inv(f, a, ops, s.(calls := s.calls[i := call]))
  {
    hide Apply, Fold, Committed;
    var t := s.(calls := s.calls[i := call]);
    forall j | 0 <= j < |ops| && t.calls[j].phase.Done?
      ensures exists k :: 0 <= k < |t.log| && t.log[k].call == j
    {
      assert s.calls[j].phase.Done?;
    }
  }

  lemma GetInv(f: Format, a: Account, ops: seq<Op>, s: State, i: nat, now: nat)
    requires Inv(f, a, ops, s) && i < |s.calls| && s.calls[i].phase.Ready?
    ensures Inv(f, a, ops, DoGet(f, s, i, now))
  {
    hide Apply, Fold, Committed;
    var call := s.calls[i];
    var account := f.read(s.store.value).value;
    var phase := Waiting(s.store.value, Apply(Update(call.op, now), account), now);
    QuietStep(f, a, ops, s, i, call.(phase := phase));
  }

  lemma CommitFolds(a: Account, ops: seq<Op>, log: seq<Commit>, c: Commit)
    requires (forall k :: 0 <= k < |log| ==> log[k].call < |ops|) && c.call < |ops|
    ensures var more := log + [c];
            && (forall k :: 0 <= k < |more| ==> more[k].call < |ops|)
            && Committed(ops, more) == Committed(ops, log) + [Update(ops[c.call], c.now)]
            && Fold(a, Committed(ops, more)) == Apply(Update(ops[c.call], c.now), Fold(a, Committed(ops, log)))
            && Committed(ops, more)[..|log|] == Committed(ops, log)
  {
    hide Apply;
    var more := log + [c];
    var before, after := Committed(ops, log), Committed(ops, more);
    assert after == before + [Update(ops[c.call], c.now)];
    assert after[..|after| - 1] == before;
  }

  lemma CommitLog(ops: seq<Op>, s: State, t: State, i: nat, c: Commit, phase: Phase)
    requires LogOk(ops, s) && i < |s.calls| && s.calls[i].phase.Waiting? && c.call == i && t.log == s.log + [c]
    requires Over(phase) && t.calls == s.calls[i := s.calls[i].(phase := phase)]
    ensures LogOk(ops, t)
  {
    assert t.log[|s.log|].call == i;
    forall j | 0 <= j < |ops| && t.calls[j].phase.Done?
      ensures exists k :: 0 <= k < |t.log| && t.log[k].call == j
    {
      if j != i {
        assert s.calls[j].phase.Done?;
        var k :| 0 <= k < |s.log| && s.log[k].call == j;
        assert t.log[k].call == j;
      }
    }
  }

  lemma CommitInv(f: Format, a: Account, ops: seq<Op>, s: State, i: nat, phase: Phase)
    requires f.Valid() && Inv(f, a, ops, s) && i < |s.calls| && s.calls[i].phase.Waiting?
    requires s.store == Some(s.calls[i].phase.expected)
    requires phase == Done(s.calls[i].phase.updated) || phase == Failed(Unanswered)
    ensures Inv(f, a, ops, Committing(f, s, i, phase))
  {
    hide Apply, Fold, Committed, LogOk;
    var t := Committing(f, s, i, phase);
    var c := Commit(i, s.calls[i].phase.now);
    LogCalls(ops, s);
    CommitLog(ops, s, t, i, c, phase);
    LogCalls(ops, t);
    CommitFolds(a, ops, s.log, c);
    var all := Committed(ops, t.log);
    assert all[..|s.log| + 1] == all;
    forall k | 0 <= k < |t.log| && t.calls[t.log[k].call].phase.Done?
      ensures t.calls[t.log[k].call].phase.account == Fold(a, all[..k + 1])
    {
      if k < |s.log| {
        assert t.log[k] == s.log[k];
        assert all[..k + 1] == all[..|s.log|][..k + 1];
        assert t.calls[t.log[k].call] == s.calls[s.log[k].call];
      }
    }
  }

  lemma LogCalls(ops: seq<Op>, s: State)
    requires LogOk(ops, s)
    ensures |s.calls| == |ops| && (forall i :: 0 <= i < |ops| ==> s.calls[i].op == ops[i])
    ensures forall k :: 0 <= k < |s.log| ==> s.log[k].call < |ops| && Over(s.calls[s.log[k].call].phase)
  {
  }

  lemma StepInv(f: Format, a: Account, ops: seq<Op>, s: State, step: Step)
    requires f.Valid() && Inv(f, a, ops, s)
    ensures Inv(f, a, ops, Exec(f, s, step))
  {
    hide Apply, Fold, Committed, Inv;
    match step
    case Get(i, now) =>
      if i < |s.calls| && s.calls[i].phase.Ready? {
        GetInv(f, a, ops, s, i, now);
      }
    case CompareAndSet(i) =>
      if i < |s.calls| && s.calls[i].phase.Waiting? {
        if s.store == Some(s.calls[i].phase.expected) {
          CommitInv(f, a, ops, s, i, Done(s.calls[i].phase.updated));
        } else {
          ConflictInv(f, a, ops, s, i);
        }
      }
    case Disconnect(i, executed) =>
      if i < |s.calls| && (s.calls[i].phase.Ready? || s.calls[i].phase.Waiting?) {
        DisconnectInv(f, a, ops, s, i, executed);
      }
  }

  lemma ConflictInv(f: Format, a: Account, ops: seq<Op>, s: State, i: nat)
    requires Inv(f, a, ops, s) && i < |s.calls| && s.calls[i].phase.Waiting?
    requires s.store != Some(s.calls[i].phase.expected)
    ensures Inv(f, a, ops, DoCompareAndSet(f, s, i))
  {
    hide Apply, Fold, Committed, LogOk, StoreOk, WaitingOk, AnswersOk;
    QuietStep(f, a, ops, s, i, DoCompareAndSet(f, s, i).calls[i]);
  }

  lemma DisconnectInv(f: Format, a: Account, ops: seq<Op>, s: State, i: nat, executed: bool)
    requires f.Valid() && Inv(f, a, ops, s) && i < |s.calls| && (s.calls[i].phase.Ready? || s.calls[i].phase.Waiting?)
    ensures Inv(f, a, ops, DoDisconnect(f, s, i, executed))
  {
    hide Apply, Fold, Committed, LogOk, StoreOk, WaitingOk, AnswersOk;
    var w := s.calls[i].phase;
    if executed && w.Waiting? && s.store == Some(w.expected) {
      CommitInv(f, a, ops, s, i, Failed(Unanswered));
    } else {
      QuietStep(f, a, ops, s, i, s.calls[i].(phase := Failed(Unanswered)));
    }
  }

  /**
  No lost updates: in every interleaving of reads and compare-and-sets by any number of callers, with replies lost
  at any point, the stored account is the fold of the committed mutators in commit order. The mutator of a caller
  that was told of success is among them, once; that of a caller told of a failure is not; of a caller whose reply
  was lost it is there at most once.
  */
  lemma {:induction false} NoLostUpdates(f: Format, a: Account, json: Json, ops: seq<Op>, steps: seq<Step>)
    requires f.Valid() && f.read(json) == Some(a)
    ensures Inv(f, a, ops, Run(f, Start(json, ops), steps))
  {
    hide Inv, Exec;
    if steps == [] {
      StartInv(f, a, json, ops);
    } else {
      NoLostUpdates(f, a, json, ops, steps[..|steps| - 1]);
      StepInv(f, a, ops, Run(f, Start(json, ops), steps[..|steps| - 1]), steps[|steps| - 1]);
    }
  }

  /**
  So, however the callers interleave, each purchase event, item and tutorial counts at most once, as long as no
  profile that is written back drops a mark the stored account has by then.
  */
  lemma OncePerKeyInterleaved(f: Format, a: Account, json: Json, ops: seq<Op>, steps: seq<Step>, k: Once)
    requires f.Valid() && f.read(json) == Some(a)
    ensures var s := Run(f, Start(json, ops), steps);
            && LogOk(ops, s) && StoreOk(f, a, ops, s)
            && (KeptWhileMarked(a, Committed(ops, s.log), k) ==>
                  TimesSet(a, Committed(ops, s.log), k) <= (if Marked(a.profile, k) then 0 else 1))
  {
    hide Run, Fold, Marked, TimesSet, KeptWhileMarked;
    NoLostUpdates(f, a, json, ops, steps);
    var s := Run(f, Start(json, ops), steps);
    LogCalls(ops, s);
    if KeptWhileMarked(a, Committed(ops, s.log), k) {
      OncePerKey(a, Committed(ops, s.log), k);
    }
  }

  /** A missing account fails every caller and stays missing. */
  lemma {:induction false} MissingStaysMissing(f: Format, ops: seq<Op>, steps: seq<Step>)
    ensures var s := Run(f, Start("", ops).(store := None), steps);
            && s.store == None && s.log == [] && |s.calls| == |ops|
            && forall i :: 0 <= i < |ops| ==> s.calls[i].phase in {Ready, Failed(NotFound), Failed(Unanswered)}
  {
    if steps != [] {
      MissingStaysMissing(f, ops, steps[..|steps| - 1]);
    }
  }

  // ---- One caller's retry loop ----

  /** What happens to a round trip: answered, lost on the way there, or its reply lost on the way back. */
  datatype Trip = Answered | LostBefore | LostAfter

  /**
  The store as one caller sees it: the text, what other callers commit before each of the round trips to come,
  and what happens to those; and what was committed so far, with how much of it by this caller.
  */
  datatype Wire = Wire(value: Option<Json>, others: seq<seq<Update>>, trips: seq<Trip>, log: seq<Update>, mine: nat)

  ghost function NextTrip(trips: seq<Trip>): Trip {
    if trips == [] then Answered else trips[0]
  }

  ghost function NextOthers(others: seq<seq<Update>>): seq<Update> {
    if others == [] then [] else others[0]
  }

  /** Other callers commit these, one after the other. */
  ghost function Overtaken(f: Format, value: Option<Json>, updates: seq<Update>): Option<Json>
    decreases |updates|
  {
    if updates == [] then value else
      var before := Overtaken(f, value, updates[..|updates| - 1]);
      if before.Some? && f.read(before.value).Some? then
        Some(f.write(Apply(updates[|updates| - 1], f.read(before.value).value)))
      else before
  }

  /** A round trip sets out; by the time it arrives the others have committed. */
  ghost function Arriving(f: Format, w: Wire): Wire {
    w.(value := Overtaken(f, w.value, NextOthers(w.others)), log := w.log + NextOthers(w.others),
       others := if w.others == [] then [] else w.others[1..], trips := if w.trips == [] then [] else w.trips[1..])
  }

  /**
  From attempt `attempt` on: read, change, replace if nobody was faster, up to five times in all; a lost trip ends it.
  */
  ghost function Course(f: Format, w: Wire, op: Op, clock: nat -> nat, attempt: nat): (Wire, Result<Account, Failure>)
    decreases ATTEMPTS - attempt
  {
    if attempt >= ATTEMPTS then (w, Err(Conflict))
    else
      var r := Arriving(f, w);
      if NextTrip(w.trips) != Answered then (r, Err(Unanswered))
      else if r.value == None then (r, Err(NotFound))
      else if f.read(r.value.value) == None then (r, Err(Unreadable))
      else
        var u := Update(op, clock(attempt));
        var updated := Apply(u, f.read(r.value.value).value);
        var v := Arriving(f, r);
        if NextTrip(r.trips) == LostBefore then (v, Err(Unanswered))
        else if v.value == r.value then
          (v.(value := Some(f.write(updated)), log := v.log + [u], mine := v.mine + 1),
           if NextTrip(r.trips) == LostAfter then Err(Unanswered) else Ok(updated))
        else if NextTrip(r.trips) == LostAfter then (v, Err(Unanswered))
        else Course(f, v, op, clock, attempt + 1)
  }

  ghost predicate Readable(f: Format, value: Option<Json>) {
    value.Some? && f.read(value.value).Some?
  }

  lemma {:induction false} OvertakenReadable(f: Format, value: Option<Json>, updates: seq<Update>)
    requires f.Valid() && Readable(f, value)
    ensures Readable(f, Overtaken(f, value, updates))
    ensures updates == [] ==> Overtaken(f, value, updates) == value
    decreases |updates|
  {
    hide Apply;
    if updates != [] {
      OvertakenReadable(f, value, updates[..|updates| - 1]);
    }
  }

  lemma {:induction false} OvertakenGrows(f: Format, w: Wire)
    requires f.Valid() && Readable(f, w.value)
    ensures var v := Arriving(f, w);
            && Readable(f, v.value) && w.log <= v.log && v.mine == w.mine
            && (v.value != w.value ==> |v.log| > |w.log|)
            && forall k :: 0 <= k < |v.trips| ==> k + 1 < |w.trips| && v.trips[k] == w.trips[k + 1]
  {
    OvertakenReadable(f, w.value, NextOthers(w.others));
  }

  /** This caller's mutator was committed once and last, or never; all else in the log is from before or from others. */
  ghost predicate OnceOrNever(w: Wire, v: Wire, op: Op) {
    || (v.mine == w.mine && w.log <= v.log)
    || (v.mine == w.mine + 1 && v.log != [] && w.log <= v.log[..|v.log| - 1] && v.log[|v.log| - 1].op == op)
  }

  /**
  What the loop comes to. Success: this caller's mutator was committed, once, last. Conflict: never, and others
  committed during each of the attempts left. Unanswered: a trip was lost, and it was committed once, last, or never.
  */
  lemma {:induction false} CourseIs(f: Format, w: Wire, op: Op, clock: nat -> nat, attempt: nat)
    requires f.Valid() && Readable(f, w.value) && attempt <= ATTEMPTS
    ensures var (v, r) := Course(f, w, op, clock, attempt);
            && Readable(f, v.value) && OnceOrNever(w, v, op)
            && (r.Ok? ==> v.mine == w.mine + 1 && v.value == Some(f.write(r.value)))
            && (r.Err? ==> r.error == Conflict || r.error == Unanswered)
            && (r == Err(Conflict) ==> v.mine == w.mine && |v.log| >= |w.log| + (ATTEMPTS - attempt))
            && (r == Err(Unanswered) ==> exists k :: 0 <= k < |w.trips| && w.trips[k] != Answered)
    decreases ATTEMPTS - attempt
  {
    hide Apply, Arriving, Readable;
    if attempt < ATTEMPTS {
      var r := Arriving(f, w);
      OvertakenGrows(f, w);
      NextLost(w.trips);
      if NextTrip(w.trips) == Answered {
        var v := Arriving(f, r);
        OvertakenGrows(f, r);
        NextLost(r.trips);
        ReadableIs(f, r.value);
        if NextTrip(r.trips) == Answered && v.value != r.value {
          CourseIs(f, v, op, clock, attempt + 1);
        } else if v.value == r.value && NextTrip(r.trips) != LostBefore {
          var u := Update(op, clock(attempt));
          assert (v.log + [u])[..|v.log|] == v.log;
          ReadableIs(f, Some(f.write(Apply(u, f.read(r.value.value).value))));
        }
      }
    }
  }

  lemma FoldsOn(a: Account, log: seq<Update>, u: Update)
    ensures Fold(a, log + [u]) == Apply(u, Fold(a, log))
  {
    hide Apply;
    assert (log + [u])[..|log|] == log;
  }

  lemma NextLost(trips: seq<Trip>)
    ensures NextTrip(trips) != Answered ==> exists k :: 0 <= k < |trips| && trips[k] != Answered
  {
  }

  lemma ReadableIs(f: Format, value: Option<Json>)
    ensures Readable(f, value) <==> value.Some? && f.read(value.value).Some?
  {
  }

  // ---- The loop as one of many callers ----

  lemma {:induction false} RunJoin(f: Format, s: State, a: seq<Step>, b: seq<Step>)
    ensures Run(f, s, a + b) == Run(f, Run(f, s, a), b)
    decreases |b|
  {
    hide Exec;
    if b == [] {
      assert a + b == a;
    } else {
      RunJoin(f, s, a, b[..|b| - 1]);
      assert (a + b)[..|a + b| - 1] == a + b[..|b| - 1];
    }
  }

  lemma RunOne(f: Format, s: State, step: Step)
    ensures Run(f, s, [step]) == Exec(f, s, step)
  {
    hide Exec;
    assert [step][..0] == [];
  }

  // From call `next` on, callers with these mutators are ready.
  ghost predicate Standby(s: State, next: nat, updates: seq<Update>) {
    && 1 <= next && next + |updates| <= |s.calls|
    && forall k :: 0 <= k < |updates| ==> s.calls[next + k] == Call(updates[k].op, 0, Ready)
  }

  // One caller reads and replaces with nobody in between.
  lemma SwiftCommit(f: Format, s: State, i: nat, now: nat)
    requires f.Valid() && Readable(f, s.store) && i < |s.calls| && s.calls[i].phase.Ready?
    ensures var t := Exec(f, Exec(f, s, Get(i, now)), CompareAndSet(i));
            && t.store == Some(f.write(Apply(Update(s.calls[i].op, now), f.read(s.store.value).value)))
            && |t.calls| == |s.calls| && forall j :: 0 <= j < |s.calls| && j != i ==> t.calls[j] == s.calls[j]
  {
    hide Apply;
  }

  lemma {:induction false} OthersRun(f: Format, s: State, next: nat, updates: seq<Update>) returns (steps: seq<Step>)
    requires f.Valid() && Readable(f, s.store) && Standby(s, next, updates)
    ensures var t := Run(f, s, steps);
            && t.store == Overtaken(f, s.store, updates) && |t.calls| == |s.calls|
            && forall j :: 0 <= j < |s.calls| && !(next <= j < next + |updates|) ==> t.calls[j] == s.calls[j]
    decreases |updates|
  {
    hide Apply, Exec;
    steps := [];
    if updates != [] {
      var n := |updates| - 1;
      var init := OthersRun(f, s, next, updates[..n]);
      var t := Run(f, s, init);
      var i, now := next + n, updates[n].now;
      assert t.calls[i] == Call(updates[n].op, 0, Ready);
      OvertakenReadable(f, s.store, updates[..n]);
      SwiftCommit(f, t, i, now);
      steps := init + [Get(i, now)] + [CompareAndSet(i)];
      RunJoin(f, s, init, [Get(i, now)]);
      RunOne(f, t, Get(i, now));
      RunJoin(f, s, init + [Get(i, now)], [CompareAndSet(i)]);
      RunOne(f, Exec(f, t, Get(i, now)), CompareAndSet(i));
      assert Update(updates[n].op, now) == updates[n];
    }
  }

  /** All that the others commit, in order. */
  ghost function AllOthers(others: seq<seq<Update>>): seq<Update> {
    if others == [] then [] else others[0] + AllOthers(others[1..])
  }

  lemma OthersSplit(others: seq<seq<Update>>)
    ensures AllOthers(others) == NextOthers(others) + AllOthers(if others == [] then [] else others[1..])
  {
  }

  lemma ReadySplit(s: State, next: nat, a: seq<Update>, b: seq<Update>)
    requires Standby(s, next, a + b)
    ensures Standby(s, next, a)
    ensures forall t: State ::
              |t.calls| == |s.calls| && (forall j :: next + |a| <= j < |s.calls| ==> t.calls[j] == s.calls[j]) ==>
                Standby(t, next + |a|, b)
  {
    assert forall k :: 0 <= k < |b| ==> (a + b)[|a| + k] == b[k];
    assert forall k :: 0 <= k < |a| ==> (a + b)[k] == a[k];
  }

  // The others commit, then caller 0 takes its step.
  lemma TripRuns(f: Format, s: State, next: nat, others: seq<seq<Update>>, step: Step)
      returns (steps: seq<Step>, t: State)
    requires f.Valid() && Readable(f, s.store) && Standby(s, next, AllOthers(others))
    ensures Run(f, s, steps) == Exec(f, t, step)
    ensures 0 < |t.calls| == |s.calls| && t.calls[0] == s.calls[0]
    ensures t.store == Overtaken(f, s.store, NextOthers(others))
    ensures forall u: State ::
              |u.calls| == |t.calls| && (forall j :: 1 <= j < |t.calls| ==> u.calls[j] == t.calls[j]) ==>
                Standby(u, next + |NextOthers(others)|, AllOthers(if others == [] then [] else others[1..]))
  {
    hide Exec, Standby, AllOthers, Overtaken;
    OthersSplit(others);
    var rest := AllOthers(if others == [] then [] else others[1..]);
    ReadySplit(s, next, NextOthers(others), rest);
    var before := OthersRun(f, s, next, NextOthers(others));
    t := Run(f, s, before);
    steps := before + [step];
    RunJoin(f, s, before, [step]);
    RunOne(f, t, step);
  }

  /**
  The loop is a run of one caller among many: there are steps of all callers after which the store holds what the
  loop leaves, and caller 0 was told what the loop returns.
  */
  lemma {:induction false} CourseRuns(f: Format, w: Wire, op: Op, clock: nat -> nat, attempt: nat, s: State, next: nat)
      returns (steps: seq<Step>)
    requires f.Valid() && Readable(f, w.value) && attempt <= ATTEMPTS && s.store == w.value
    requires Standby(s, next, AllOthers(w.others))
    requires s.calls[0] == Call(op, attempt, if attempt == ATTEMPTS then Failed(Conflict) else Ready)
    ensures var (v, r) := Course(f, w, op, clock, attempt);
            var t := Run(f, s, steps);
            && t.store == v.value && |t.calls| == |s.calls|
            && t.calls[0].phase == (if r.Ok? then Done(r.value) else Failed(r.error))
    decreases ATTEMPTS - attempt
  {
    hide Apply, Overtaken, AllOthers, Standby;
    steps := [];
    if attempt < ATTEMPTS {
      var now := clock(attempt);
      OvertakenReadable(f, w.value, NextOthers(w.others));
      if NextTrip(w.trips) != Answered {
        var t;
        steps, t := TripRuns(f, s, next, w.others, Disconnect(0, false));
      } else {
        var first, t := TripRuns(f, s, next, w.others, Get(0, now));
        var m := Exec(f, t, Get(0, now));
        var second := AnswerRuns(f, w, op, clock, attempt, m, next + |NextOthers(w.others)|);
        steps := first + second;
        RunJoin(f, s, first, second);
      }
    }
  }

  // What becomes of caller 0's compare-and-set.
  ghost function Replacing(trip: Trip): Step {
    if trip == Answered then CompareAndSet(0) else Disconnect(0, trip == LostAfter)
  }

  lemma ReplacingIs(f: Format, t: State, trip: Trip)
    requires t.calls != [] && t.calls[0].phase.Waiting?
    ensures var u, call := Exec(f, t, Replacing(trip)), t.calls[0];
            var hit := t.store == Some(call.phase.expected);
            && |u.calls| == |t.calls| && (forall j :: 1 <= j < |t.calls| ==> u.calls[j] == t.calls[j])
            && u.store == (if hit && trip != LostBefore then Some(f.write(call.phase.updated)) else t.store)
            && (trip != Answered ==> u.calls[0].phase == Failed(Unanswered))
            && (trip == Answered && hit ==> u.calls[0].phase == Done(call.phase.updated))
            && (trip == Answered && !hit ==>
                  var attempts := call.attempts + 1;
                  u.calls[0] == Call(call.op, attempts, if attempts == ATTEMPTS then Failed(Conflict) else Ready))
  {
  }

  // From the answer to the read on.
  lemma {:induction false} AnswerRuns(f: Format, w: Wire, op: Op, clock: nat -> nat, attempt: nat, m: State, next: nat)
      returns (steps: seq<Step>)
    requires f.Valid() && Readable(f, w.value) && attempt < ATTEMPTS && NextTrip(w.trips) == Answered
    requires var r := Arriving(f, w);
             && Readable(f, r.value) && m.store == r.value && Standby(m, next, AllOthers(r.others))
             && m.calls[0] == Call(op, attempt, Waiting(r.value.value, Apply(Update(op, clock(attempt)),
                                                        f.read(r.value.value).value), clock(attempt)))
    ensures var (v, r) := Course(f, w, op, clock, attempt);
            var t := Run(f, m, steps);
            && t.store == v.value && |t.calls| == |m.calls|
            && t.calls[0].phase == (if r.Ok? then Done(r.value) else Failed(r.error))
    decreases ATTEMPTS - attempt, 0
  {
    hide Apply, Overtaken, AllOthers, Standby, Exec, Run, Replacing;
    var r := Arriving(f, w);
    var trip := NextTrip(r.trips);
    OvertakenReadable(f, r.value, NextOthers(r.others));
    var step := Replacing(trip);
    var first, t := TripRuns(f, m, next, r.others, step);
    ReplacingIs(f, t, trip);
    steps := first;
    var v := Arriving(f, r);
    if trip == Answered && v.value != r.value {
      var n := Exec(f, t, step);
      var rest := CourseRuns(f, v, op, clock, attempt + 1, n, next + |NextOthers(r.others)|);
      steps := first + rest;
      RunJoin(f, m, first, rest);
    }
  }

  /** From the start: one caller's loop and the others' commits are a run to which `NoLostUpdates` applies. */
  lemma LoopIsRun(f: Format, a: Account, json: Json, others: seq<seq<Update>>, trips: seq<Trip>, op: Op,
                  clock: nat -> nat) returns (ops: seq<Op>, steps: seq<Step>)
    requires f.Valid() && f.read(json) == Some(a)
    ensures var (v, r) := Course(f, Wire(Some(json), others, trips, [], 0), op, clock, 0);
            var t := Run(f, Start(json, ops), steps);
            && Inv(f, a, ops, t) && |ops| == 1 + |AllOthers(others)| && ops[0] == op
            && t.store == v.value && t.calls[0].phase == (if r.Ok? then Done(r.value) else Failed(r.error))
  {
    hide Course, Run, Exec, Inv;
    var updates := AllOthers(others);
    ops := [op] + seq(|updates|, k requires 0 <= k < |updates| => updates[k].op);
    steps := CourseRuns(f, Wire(Some(json), others, trips, [], 0), op, clock, 0, Start(json, ops), 1);
    NoLostUpdates(f, a, json, ops, steps);
  }

  /** The key-value store as one caller sees it: others commit their own updates between its round trips. */
  class Valkey {
    const format: Format
    var value: Option<Json>
    /** What the other callers commit before each of the next round trips. */
    var others: seq<seq<Update>>
    /** What happens to them. */
    var trips: seq<Trip>
    ghost const initial: Account
    ghost var log: seq<Update>
    /** How many compare-and-sets of this caller succeeded. */
    ghost var mine: nat

    ghost function Here(): Wire
      reads this
    {
      Wire(value, others, trips, log, mine)
    }

    ghost predicate Valid()
      reads this
    {
      && format.Valid()
      && value.Some? && format.read(value.value) == Some(Fold(initial, log))
    }

    constructor (format: Format, json: Json, ghost a: Account, others: seq<seq<Update>>, trips: seq<Trip>)
      requires format.Valid() && format.read(json) == Some(a)
      ensures Valid() && Here() == Wire(Some(json), others, trips, [], 0) && this.format == format && initial == a
    {
      this.format, value, this.others, this.trips := format, Some(json), others, trips;
      initial, log, mine := a, [], 0;
    }

    method Commit(u: Update)
      requires Valid()
      modifies this`value, this`log
      ensures Valid() && log == old(log) + [u]
      ensures value == Some(format.write(Apply(u, format.read(old(value).value).value)))
    {
      hide Apply;
      var account := new PlayerAccount(format.read(value.value).value);
      account.Mutate(u);
      assert (log + [u])[..|log|] == log;
      value, log := Some(format.write(account.View())), log + [u];
    }

    // A round trip sets out: the others commit first, and the trip may be lost.
    method Travel() returns (trip: Trip)
      requires Valid()
      modifies this`value, this`log, this`others, this`trips
      ensures Valid() && trip == NextTrip(old(trips)) && Here() == Arriving(format, old(Here()))
      ensures mine == old(mine)
    {
      hide Fold, Apply;
      trip := Answered;
      if trips != [] {
        trip, trips := trips[0], trips[1..];
      }
      var now: seq<Update> := [];
      if others != [] {
        now, others := others[0], others[1..];
      }
      Interference(now);
    }

    method Interference(now: seq<Update>)
      requires Valid()
      modifies this`value, this`log
      ensures Valid() && log == old(log) + now && value == Overtaken(format, old(value), now)
    {
      hide Fold, Apply;
      assert old(log) + now[..0] == old(log);
      for k := 0 to |now|
        invariant Valid() && log == old(log) + now[..k] && value == Overtaken(format, old(value), now[..k])
      {
        assert now[..k + 1][..k] == now[..k] && now[..k + 1] == now[..k] + [now[k]];
        Commit(now[k]);
      }
      assert now[..|now|] == now;
    }

    method Get() returns (reply: Result<Option<Json>, Failure>)
      requires Valid()
      modifies this`value, this`log, this`others, this`trips
      ensures Valid() && Here() == Arriving(format, old(Here())) && mine == old(mine)
      ensures reply == if NextTrip(old(trips)) == Answered then Ok(value) else Err(Unanswered)
    {
      hide Fold, Arriving;
      var trip := Travel();
      return if trip == Answered then Ok(value) else Err(Unanswered);
    }

    method CompareAndSet(expected: Json, updated: Json, ghost u: Update)
        returns (reply: Result<bool, Failure>)
      requires Valid() && format.read(expected).Some?
      requires updated == format.write(Apply(u, format.read(expected).value))
      modifies this`value, this`log, this`others, this`trips, this`mine
      ensures Valid()
      ensures var w, trip := Arriving(format, old(Here())), NextTrip(old(trips));
              && Here() == (if trip != LostBefore && w.value == Some(expected)
                            then w.(value := Some(updated), log := w.log + [u], mine := w.mine + 1) else w)
              && reply == (if trip == Answered then Ok(w.value == Some(expected)) else Err(Unanswered))
      ensures reply == Ok(false) ==> mine == old(mine)
    {
      hide Apply, Arriving, Fold;
      var trip := Travel();
      if trip == LostBefore {
        return Err(Unanswered);
      }
      var replaced := value == Some(expected);
      if replaced {
        FoldsOn(initial, log, u);
        value, log, mine := Some(updated), log + [u], mine + 1;
      }
      return if trip == LostAfter then Err(Unanswered) else Ok(replaced);
    }

    /**
    `update_account_atomic` takes its `Course`: on success this caller's mutator was the last commit, once, and the
    account returned is the stored one; after five conflicts, in each of which others committed, it was never
    committed. If a round trip is lost the caller cannot know: its mutator was the last commit, once, or was never
    committed. Without a loss and without other commits it succeeds.
    */
    method UpdateAccountAtomic(op: Op, clock: nat -> nat) returns (r: Result<Account, Failure>)
      requires Valid()
      modifies this`value, this`log, this`others, this`trips, this`mine
      ensures Valid() && (Here(), r) == Course(format, old(Here()), op, clock, 0)
      ensures mine == old(mine) || (mine == old(mine) + 1 && (r.Ok? || r == Err(Unanswered)))
      ensures r.Ok? ==> mine == old(mine) + 1 && r.value == Fold(initial, log)
      ensures mine == old(mine) + 1 ==> log != [] && old(log) <= log[..|log| - 1] && log[|log| - 1].op == op
      ensures mine == old(mine) ==> old(log) <= log
      ensures r.Err? ==> r.error == Conflict || r.error == Unanswered
      ensures r == Err(Conflict) ==> |log| >= |old(log)| + ATTEMPTS
      ensures r == Err(Unanswered) ==> exists k :: 0 <= k < |old(trips)| && old(trips)[k] != Answered
    {
      hide Fold, Apply, Arriving, Course;
      CourseIs(format, Here(), op, clock, 0);
      r := Attempts(op, clock);
    }

    // The loop itself.
    method Attempts(op: Op, clock: nat -> nat) returns (r: Result<Account, Failure>)
      requires Valid()
      modifies this`value, this`log, this`others, this`trips, this`mine
      ensures Valid() && (Here(), r) == Course(format, old(Here()), op, clock, 0)
    {
      hide Fold, Apply, Arriving;
      for attempt := 0 to ATTEMPTS
        invariant Valid()
        invariant Course(format, Here(), op, clock, attempt) == Course(format, old(Here()), op, clock, 0)
      {
        var json :- Get();
        if json == None {
          return Err(NotFound);
        }
        var stored := format.read(json.value);
        if stored == None {
          return Err(Unreadable);
        }
        var u := Update(op, clock(attempt));
        var account := new PlayerAccount(stored.value);
        account.Mutate(u);
        var updated := account.View();
        var replaced :- CompareAndSet(json.value, format.write(updated), u);
        if replaced {
          return Ok(updated);
        }
      }
      return Err(Conflict);
    }
  }
}
