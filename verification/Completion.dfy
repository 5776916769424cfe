/** The retry loop of `src/lance_etl/telemetry.py` and the completion marker of
    `src/lance_etl/etl/completion.py`, run by any number of concurrent finalizers. */
module Completion {
  import opened Orders
  import opened Wrappers

  // ---------- commit_with_retries ----------

  datatype ExceptionKind = OsError | RuntimeError | OtherError

  datatype Raised = Raised(kind: ExceptionKind, message: string)

  predicate Contains(text: string, part: string)
  {
    exists i :: 0 <= i <= |text| && part <= text[i..]
  }

  const COMMIT_CONFLICT_MARKERS: set<string> := {"Commit conflict", "Retryable commit conflict"}

  predicate IsCommitConflictError(exc: Raised)
  {
    exc.kind != OtherError && exists marker :: marker in COMMIT_CONFLICT_MARKERS && Contains(exc.message, marker)
  }

  datatype CallEnd<T> = Returns(value: T) | Raises(exc: Raised)

  predicate RetriedEnd<T>(end: CallEnd<T>)
  {
    end.Raises? && IsCommitConflictError(end.exc)
  }

  /** `ends[n]` is how the action would end on attempt `n`. The action is called until it does not
      conflict or the budget is spent; the caller sees the last end, `on_conflict` every conflict. */
  method CommitWithRetries<T>(ends: seq<CallEnd<T>>, retries: nat)
    returns (r: CallEnd<T>, calls: nat, conflicts: nat)
    requires |ends| == retries + 1
    ensures 1 <= calls <= retries + 1 && r == ends[calls - 1]
    ensures forall n :: 0 <= n < calls - 1 ==> RetriedEnd(ends[n])
    ensures RetriedEnd(r) ==> calls == retries + 1
    ensures conflicts == if RetriedEnd(r) then calls else calls - 1
  {
    conflicts := 0;
    var attempt := 0;
    while attempt < retries
      invariant 0 <= attempt <= retries && conflicts == attempt
      invariant forall n :: 0 <= n < attempt ==> RetriedEnd(ends[n])
    {
      if !RetriedEnd(ends[attempt]) {
        return ends[attempt], attempt + 1, conflicts;
      }
      conflicts := conflicts + 1;
      attempt := attempt + 1;
    }
    if RetriedEnd(ends[attempt]) {
      conflicts := conflicts + 1;
    }
    return ends[attempt], attempt + 1, conflicts;
  }

  // ---------- the marker ----------

  datatype Marker = Marker(window: int, digest: seq<byte>)

  /** A config value: missing, unreadable, or read as `T`. */
  datatype Field<+T> = Absent | Malformed | Parsed(value: T)

  datatype Config = Config(window: Field<int>, digest: Field<seq<byte>>)

  datatype Parse = NoMarker | Found(marker: Marker) | CompletionConflict

  function ParseCompletionMarker(c: Config): Parse
  {
    if c.window.Absent? && c.digest.Absent? then NoMarker
    else if c.window.Absent? || c.digest.Absent? then CompletionConflict
    else if c.window.Malformed? || c.digest.Malformed? then CompletionConflict
    else if c.window.value < 0 || |c.digest.value| != 32 then CompletionConflict
    else Found(Marker(c.window.value, c.digest.value))
  }

  predicate ValidRequest(m: Marker)
  {
    m.window >= 0 && |m.digest| == 32
  }

  /** `completion_payload`; an invalid request raises before anything is read. */
  function CompletionPayload(m: Marker): Option<Config>
  {
    if ValidRequest(m) then Some(Config(Parsed(m.window), Parsed(m.digest))) else None
  }

  datatype Answer = Yes | No | Raise

  /** `completion_is_desired` on what was parsed. */
  function CompletionIsDesired(p: Parse, want: Marker): Answer
  {
    match p
    case CompletionConflict => Raise
    case NoMarker => No
    case Found(m) =>
      if m.window == want.window && m.digest != want.digest then Raise
      else if m.window >= want.window then Yes else No
  }

  /** A written payload reads back as the marker it was built from. */
  lemma PayloadRoundTrip(m: Marker)
    ensures ValidRequest(m) <==> CompletionPayload(m).Some?
    ensures ValidRequest(m) ==> ParseCompletionMarker(CompletionPayload(m).value) == Found(m)
  {
  }

  // ---------- concurrent finalizers ----------

  /** Where one call of `finalize_completion_marker` stands. `Updating(seen)` has read the config
      when `seen` markers had been written; `Erred` is about to reconcile after an exception. */
  datatype Phase = Opening | Updating(seen: nat) | Updated | Erred | Done(marker: Marker) | Failed | Crashed

  datatype Finalizer = Finalizer(want: Marker, attempts: nat, phase: Phase)

  /** `history` lists the markers the config has held, oldest first. */
  datatype System = System(config: Config, history: seq<Marker>, finalizers: seq<Finalizer>)

  datatype Step =
    | Spawn(want: Marker)
    | Read(who: nat)
    | Write(who: nat)
    | WriteError(who: nat, landed: bool, retryable: bool)
    | Confirm(who: nat)
    | Crash(who: nat)

  /** Lance's contract: `update_config` lands only if its keys did not change since the read. */
  predicate MayLand(s: System, i: nat)
    requires i < |s.finalizers| && s.finalizers[i].phase.Updating?
  {
    s.finalizers[i].phase.seen == |s.history|
  }

  predicate Enabled(s: System, step: Step)
  {
    match step
    case Spawn(_) => true
    case Read(i) => i < |s.finalizers| && s.finalizers[i].phase == Opening
    case Write(i) => i < |s.finalizers| && s.finalizers[i].phase.Updating? && MayLand(s, i)
    case WriteError(i, landed, _) =>
      i < |s.finalizers| && s.finalizers[i].phase.Updating? && (landed ==> MayLand(s, i))
    case Confirm(i) => i < |s.finalizers| && (s.finalizers[i].phase == Updated || s.finalizers[i].phase == Erred)
    case Crash(i) => i < |s.finalizers| && !s.finalizers[i].phase.Done? && s.finalizers[i].phase != Failed
  }

  function Goto(s: System, i: nat, phase: Phase): System
    requires i < |s.finalizers|
  {
    s.(finalizers := s.finalizers[i := s.finalizers[i].(phase := phase)])
  }

  function Land(s: System, want: Marker): System
  {
    var payload := CompletionPayload(want);
    if payload.None? then s else s.(config := payload.value, history := s.history + [want])
  }

  function Next(s: System, step: Step, retries: nat): System
    requires Enabled(s, step)
  {
    match step
    case Spawn(want) =>
      s.(finalizers := s.finalizers + [Finalizer(want, 0, if CompletionPayload(want).Some? then Opening else Failed)])
    case Read(i) =>
      (match CompletionIsDesired(ParseCompletionMarker(s.config), s.finalizers[i].want)
       case Yes => Goto(s, i, Updated)
       case No => Goto(s, i, Updating(|s.history|))
       case Raise => Goto(s, i, Erred))
    case Write(i) => Goto(Land(s, s.finalizers[i].want), i, Updated)
    case WriteError(i, landed, retryable) =>
      var f := s.finalizers[i];
      var t := if landed then Land(s, f.want) else s;
      if retryable && f.attempts < retries
      then t.(finalizers := t.finalizers[i := Finalizer(f.want, f.attempts + 1, Opening)])
      else Goto(t, i, Erred)
    case Confirm(i) =>
      // the reopened dataset decides, after success and after an exception alike
      var parsed := ParseCompletionMarker(s.config);
      if CompletionIsDesired(parsed, s.finalizers[i].want) == Yes then Goto(s, i, Done(parsed.marker))
      else Goto(s, i, Failed)
    case Crash(i) => Goto(s, i, Crashed)
  }

  ghost predicate ValidRun(s: System, run: seq<Step>, retries: nat)
    decreases |run|
  {
    run == [] || (Enabled(s, run[0]) && ValidRun(Next(s, run[0], retries), run[1..], retries))
  }

  ghost function After(s: System, run: seq<Step>, retries: nat): System
    requires ValidRun(s, run, retries)
    decreases |run|
  {
    if run == [] then s else After(Next(s, run[0], retries), run[1..], retries)
  }

  // ---------- the invariant ----------

  ghost predicate Increasing(history: seq<Marker>)
  {
    forall m, n :: 0 <= m < n < |history| ==> history[m].window < history[n].window
  }

  ghost predicate StoreInv(s: System)
  {
    && Increasing(s.history)
    && ParseCompletionMarker(s.config) ==
       if s.history == [] then NoMarker else Found(s.history[|s.history| - 1])
  }

  /** The marker proves the request: a later window, or this window with this digest. */
  predicate Proves(m: Marker, want: Marker)
  {
    m.window >= want.window && (m.window == want.window ==> m.digest == want.digest)
  }

  /** Some marker the config has held proves the request. */
  ghost predicate Proven(history: seq<Marker>, want: Marker)
  {
    exists n :: 0 <= n < |history| && Proves(history[n], want)
  }

  ghost predicate FinalizerInv(history: seq<Marker>, f: Finalizer)
  {
    && (f.phase != Failed ==> f.phase != Crashed ==> ValidRequest(f.want))
    && (f.phase.Updating? ==>
          && f.phase.seen <= |history|
          && (f.phase.seen == |history| && history != [] ==> history[|history| - 1].window < f.want.window))
    && (f.phase == Updated ==> Proven(history, f.want))
    && (f.phase.Done? ==> f.phase.marker in history && Proves(f.phase.marker, f.want))
  }

  ghost predicate Inv(s: System)
  {
    && StoreInv(s)
    && forall i :: 0 <= i < |s.finalizers| ==> FinalizerInv(s.history, s.finalizers[i])
  }

  lemma LandKeepsStore(s: System, i: nat)
    requires Inv(s) && i < |s.finalizers| && s.finalizers[i].phase.Updating? && MayLand(s, i)
    ensures var t := Land(s, s.finalizers[i].want);
            StoreInv(t) && t.history == s.history + [s.finalizers[i].want] && t.finalizers == s.finalizers
  {
    var f := s.finalizers[i];
    assert FinalizerInv(s.history, f);
    PayloadRoundTrip(f.want);
  }

  lemma FinalizerInvMonotone(before: seq<Marker>, after: seq<Marker>, f: Finalizer)
    requires before <= after && FinalizerInv(before, f)
    ensures FinalizerInv(after, f)
  {
    if f.phase.Done? {
      var n :| 0 <= n < |before| && before[n] == f.phase.marker;
      assert after[n] == f.phase.marker;
    } else if f.phase == Updated {
      var n :| 0 <= n < |before| && Proves(before[n], f.want);
      assert after[n] == before[n];
    }
  }

  lemma InvUpdate(s: System, t: System, i: nat)
    requires Inv(s) && StoreInv(t) && s.history <= t.history && i < |s.finalizers|
    requires |t.finalizers| == |s.finalizers| && FinalizerInv(t.history, t.finalizers[i])
    requires forall j :: 0 <= j < |s.finalizers| && j != i ==> t.finalizers[j] == s.finalizers[j]
    ensures Inv(t)
  {
    forall j | 0 <= j < |t.finalizers| ensures FinalizerInv(t.history, t.finalizers[j]) {
      if j != i {
        FinalizerInvMonotone(s.history, t.history, s.finalizers[j]);
      }
    }
  }

  lemma StepKeepsInv(s: System, step: Step, retries: nat)
    requires Inv(s) && Enabled(s, step)
    ensures Inv(Next(s, step, retries)) && s.history <= Next(s, step, retries).history
  {
    hide ParseCompletionMarker, CompletionPayload, Increasing;
    var t := Next(s, step, retries);
    match step
    case Spawn(want) =>
      PayloadRoundTrip(want);
    case Read(i) =>
      ReadKeeps(s, i, retries);
    case Write(i) =>
      LandKeepsStore(s, i);
      assert t.history[|s.history|] == s.finalizers[i].want;
      LandedKeeps(s, t, i);
    case WriteError(i, landed, _) =>
      if landed {
        LandKeepsStore(s, i);
      }
      LandedKeeps(s, t, i);
    case Confirm(i) =>
      assert FinalizerInv(s.history, s.finalizers[i]);
      InvUpdate(s, t, i);
    case Crash(i) =>
      InvUpdate(s, t, i);
  }

  lemma ReadKeeps(s: System, i: nat, retries: nat)
    requires Inv(s) && Enabled(s, Read(i))
    ensures Inv(Next(s, Read(i), retries)) && s.history == Next(s, Read(i), retries).history
  {
    hide ParseCompletionMarker, CompletionPayload, Increasing;
    assert FinalizerInv(s.history, s.finalizers[i]);
    var last := |s.history| - 1;
    assert CompletionIsDesired(ParseCompletionMarker(s.config), s.finalizers[i].want) == Yes ==>
        last >= 0 && Proves(s.history[last], s.finalizers[i].want);
    InvUpdate(s, Next(s, Read(i), retries), i);
  }

  /** Moving the writer on after its commit landed, or failed to. */
  lemma LandedKeeps(s: System, t: System, i: nat)
    requires Inv(s) && StoreInv(t) && s.history <= t.history && i < |s.finalizers| && s.finalizers[i].phase.Updating?
    requires |t.finalizers| == |s.finalizers| && t.finalizers[i].want == s.finalizers[i].want
    requires t.finalizers[i].phase in {Updated, Erred, Opening}
    requires t.finalizers[i].phase == Updated ==> Proven(t.history, t.finalizers[i].want)
    requires forall j :: 0 <= j < |s.finalizers| && j != i ==> t.finalizers[j] == s.finalizers[j]
    ensures Inv(t)
  {
    hide StoreInv;
    assert FinalizerInv(s.history, s.finalizers[i]);
    InvUpdate(s, t, i);
  }

  lemma {:induction false} RunKeepsInv(s: System, run: seq<Step>, retries: nat)
    requires Inv(s) && ValidRun(s, run, retries)
    ensures Inv(After(s, run, retries)) && s.history <= After(s, run, retries).history
    decreases |run|
  {
    hide Inv, Next;
    if run != [] {
      StepKeepsInv(s, run[0], retries);
      RunKeepsInv(Next(s, run[0], retries), run[1..], retries);
    }
  }

  // ---------- what every run guarantees ----------

  /** The stored marker never moves back: its window never decreases, and a window that stays keeps
      its digest. */
  lemma MarkerNeverRegresses(s: System, run: seq<Step>, retries: nat)
    requires Inv(s) && ValidRun(s, run, retries)
    requires ParseCompletionMarker(s.config).Found?
    ensures var before, after := ParseCompletionMarker(s.config), ParseCompletionMarker(After(s, run, retries).config);
            && after.Found?
            && before.marker.window <= after.marker.window
            && (before.marker.window == after.marker.window ==> before == after)
  {
    RunKeepsInv(s, run, retries);
    var t := After(s, run, retries);
    var last := |s.history| - 1;
    assert t.history[last] == s.history[last];
    hide After, ValidRun;
    assert last == |t.history| - 1 || t.history[last].window < t.history[|t.history| - 1].window;
  }

  /** Every successful finalize returns a marker that proves its request, and that marker is still in
      force or superseded by a later window. */
  lemma SuccessIsDurable(s: System, run: seq<Step>, retries: nat, i: nat)
    requires Inv(s) && ValidRun(s, run, retries)
    requires var t := After(s, run, retries); i < |t.finalizers| && t.finalizers[i].phase.Done?
    ensures var t := After(s, run, retries);
            var m := t.finalizers[i].phase.marker;
            && Proves(m, t.finalizers[i].want)
            && ParseCompletionMarker(t.config).Found?
            && (ParseCompletionMarker(t.config).marker == m || ParseCompletionMarker(t.config).marker.window > m.window)
  {
    hide After, ValidRun, ParseCompletionMarker;
    RunKeepsInv(s, run, retries);
    var t := After(s, run, retries);
    assert FinalizerInv(t.history, t.finalizers[i]);
    var n :| 0 <= n < |t.history| && t.history[n] == t.finalizers[i].phase.marker;
    assert n == |t.history| - 1 || t.history[n].window < t.history[|t.history| - 1].window;
  }

  /** The latest marker proves whatever an earlier one proved. */
  lemma LatestProves(s: System, want: Marker)
    requires StoreInv(s) && Proven(s.history, want)
    ensures CompletionIsDesired(ParseCompletionMarker(s.config), want) == Yes
  {
    hide ParseCompletionMarker;
    var n :| 0 <= n < |s.history| && Proves(s.history[n], want);
    var last := |s.history| - 1;
    assert n == last || s.history[n].window < s.history[last].window;
  }

  /** A finalizer whose update went through, or was not needed, always confirms: the error for a
      marker that is not durable after a commit is never raised, whatever others write meanwhile. */
  lemma UpdateAlwaysConfirms(s: System, run: seq<Step>, retries: nat, i: nat)
    requires Inv(s) && ValidRun(s, run, retries)
    requires var t := After(s, run, retries); i < |t.finalizers| && t.finalizers[i].phase == Updated
    ensures var t := After(s, run, retries);
            && Enabled(t, Confirm(i))
            && var f := Next(t, Confirm(i), retries).finalizers[i];
               f.phase.Done? && Proves(f.phase.marker, f.want)
  {
    hide After, ValidRun, ParseCompletionMarker;
    RunKeepsInv(s, run, retries);
    var t := After(s, run, retries);
    assert FinalizerInv(t.history, t.finalizers[i]);
    LatestProves(t, t.finalizers[i].want);
  }

  /** Two finalizers that both succeed on one window asked for one digest, unless a later window
      answered one of them. */
  lemma SuccessesAgree(s: System, run: seq<Step>, retries: nat, i: nat, j: nat)
    requires Inv(s) && ValidRun(s, run, retries)
    requires var t := After(s, run, retries);
             && i < |t.finalizers| && j < |t.finalizers| && t.finalizers[i].phase.Done? && t.finalizers[j].phase.Done?
             && t.finalizers[i].phase.marker.window == t.finalizers[j].phase.marker.window
    ensures var t := After(s, run, retries);
            t.finalizers[i].phase.marker == t.finalizers[j].phase.marker
  {
    RunKeepsInv(s, run, retries);
    var t := After(s, run, retries);
    hide After, ValidRun;
    assert FinalizerInv(t.history, t.finalizers[i]) && FinalizerInv(t.history, t.finalizers[j]);
    var m :| 0 <= m < |t.history| && t.history[m] == t.finalizers[i].phase.marker;
    var n :| 0 <= n < |t.history| && t.history[n] == t.finalizers[j].phase.marker;
    assert m == n;
  }

  /** A partial or malformed marker blocks: nobody writes over it and nobody succeeds. */
  lemma {:induction false} MalformedMarkerBlocks(s: System, run: seq<Step>, retries: nat)
    requires ParseCompletionMarker(s.config) == CompletionConflict && ValidRun(s, run, retries)
    requires forall i :: 0 <= i < |s.finalizers| ==> !s.finalizers[i].phase.Updating? && !s.finalizers[i].phase.Done?
    ensures var t := After(s, run, retries);
            && t.config == s.config
            && forall i :: 0 <= i < |t.finalizers| ==> !t.finalizers[i].phase.Done?
    decreases |run|
  {
    if run != [] {
      MalformedMarkerBlocks(Next(s, run[0], retries), run[1..], retries);
    }
  }

  // ---------- progress ----------

  /** What a config reads as, by its two entries: nothing, a marker, or an error for a partial, unreadable
      or out-of-range one. */
  lemma ParsedExactly(c: Config)
    ensures ParseCompletionMarker(c) == NoMarker <==> c.window.Absent? && c.digest.Absent?
    ensures forall w, d :: ParseCompletionMarker(c) == Found(Marker(w, d)) <==>
              c.window == Parsed(w) && c.digest == Parsed(d) && w >= 0 && |d| == 32
    ensures c.window.Absent? && !c.digest.Absent? ==> ParseCompletionMarker(c) == CompletionConflict
    ensures !c.window.Absent? && c.digest.Absent? ==> ParseCompletionMarker(c) == CompletionConflict
    ensures c.window.Malformed? || c.digest.Malformed? ==> ParseCompletionMarker(c) == CompletionConflict
    ensures c.window.Parsed? && c.window.value < 0 ==> ParseCompletionMarker(c) == CompletionConflict
    ensures c.digest.Parsed? && |c.digest.value| != 32 ==> ParseCompletionMarker(c) == CompletionConflict
  {
  }

  /** The stored marker, if any, is of an earlier window. */
  predicate Behind(c: Config, window: int)
  {
    || (c.window.Absent? && c.digest.Absent?)
    || (c.window.Parsed? && c.digest.Parsed? && 0 <= c.window.value < window && |c.digest.value| == 32)
  }

  function Advancing(s: System, want: Marker): seq<Step>
  {
    var i := |s.finalizers|;
    [Spawn(want), Read(i), Write(i), Confirm(i)]
  }

  function With(s: System, config: Config, history: seq<Marker>, f: Finalizer): System
  {
    System(config, history, s.finalizers + [f])
  }

  lemma AdvancingSteps(s: System, want: Marker, retries: nat)
    requires want.window >= 0 && |want.digest| == 32 && Behind(s.config, want.window)
    ensures var i, stored := |s.finalizers|, Config(Parsed(want.window), Parsed(want.digest));
            var s1 := With(s, s.config, s.history, Finalizer(want, 0, Opening));
            var s2 := With(s, s.config, s.history, Finalizer(want, 0, Updating(|s.history|)));
            var s3 := With(s, stored, s.history + [want], Finalizer(want, 0, Updated));
            var s4 := With(s, stored, s.history + [want], Finalizer(want, 0, Done(want)));
            && Enabled(s, Spawn(want)) && Next(s, Spawn(want), retries) == s1
            && Enabled(s1, Read(i)) && Next(s1, Read(i), retries) == s2
            && Enabled(s2, Write(i)) && Next(s2, Write(i), retries) == s3
            && Enabled(s3, Confirm(i)) && Next(s3, Confirm(i), retries) == s4
  {
    var i, stored := |s.finalizers|, Config(Parsed(want.window), Parsed(want.digest));
    var s1 := With(s, s.config, s.history, Finalizer(want, 0, Opening));
    assert s1.finalizers[i := Finalizer(want, 0, Updating(|s.history|))]
      == s.finalizers + [Finalizer(want, 0, Updating(|s.history|))];
    var s2 := With(s, s.config, s.history, Finalizer(want, 0, Updating(|s.history|)));
    assert s2.finalizers[i := Finalizer(want, 0, Updated)] == s.finalizers + [Finalizer(want, 0, Updated)];
    var s3 := With(s, stored, s.history + [want], Finalizer(want, 0, Updated));
    assert s3.finalizers[i := Finalizer(want, 0, Done(want))] == s.finalizers + [Finalizer(want, 0, Done(want))];
    assert ParseCompletionMarker(stored) == Found(want);
  }

  /** Progress: over an absent or earlier marker, a finalizer that nobody disturbs writes its own and
      returns it. */
  lemma UndisturbedFinalizerAdvances(s: System, want: Marker, retries: nat)
    requires want.window >= 0 && |want.digest| == 32 && Behind(s.config, want.window)
    ensures ValidRun(s, Advancing(s, want), retries)
    ensures var t := After(s, Advancing(s, want), retries);
            && t.config == Config(Parsed(want.window), Parsed(want.digest))
            && t.finalizers == s.finalizers + [Finalizer(want, 0, Done(want))]
  {
    AdvancingSteps(s, want, retries);
    hide Next, Enabled, Behind;
    var run, i := Advancing(s, want), |s.finalizers|;
    var r1, r2, r3 := run[1..], run[2..], run[3..];
    assert r1[1..] == r2 && r2[1..] == r3 && r3[1..] == [];
    var s1 := Next(s, run[0], retries);
    var s2 := Next(s1, r1[0], retries);
    var s3 := Next(s2, r2[0], retries);
    var s4 := Next(s3, r3[0], retries);
    assert ValidRun(s4, [], retries) && After(s4, [], retries) == s4;
    assert ValidRun(s3, r3, retries) && After(s3, r3, retries) == s4;
    assert ValidRun(s2, r2, retries) && After(s2, r2, retries) == s4;
    assert ValidRun(s1, r1, retries) && After(s1, r1, retries) == s4;
  }

  /** Over a later marker, or the same one, the first read settles it without a write; over another
      digest at the same window it raises. */
  lemma ReadDecides(s: System, i: nat, retries: nat)
    requires Enabled(s, Read(i)) && s.config.window.Parsed? && s.config.digest.Parsed?
    requires s.config.window.value >= 0 && |s.config.digest.value| == 32
    ensures var want, t := s.finalizers[i].want, Next(s, Read(i), retries);
            var stored, phase := s.config.window.value, t.finalizers[i].phase;
            var sameDigest := s.config.digest.value == want.digest;
            && t.config == s.config
            && (phase == Updated <==> stored > want.window || (stored == want.window && sameDigest))
            && (phase == Erred <==> stored == want.window && !sameDigest)
            && (phase == Updating(|s.history|) <==> stored < want.window)
  {
  }

  /** Which exceptions are retried: operating-system and runtime errors whose text contains "Commit
      conflict" or "Retryable commit conflict". */
  lemma RetriedExactly(exc: Raised)
    ensures IsCommitConflictError(exc) <==>
              && (exc.kind == OsError || exc.kind == RuntimeError)
              && exists before, after ::
                   || exc.message == before + "Commit conflict" + after
                   || exc.message == before + "Retryable commit conflict" + after
  {
    ContainsExactly(exc.message, "Commit conflict");
    ContainsExactly(exc.message, "Retryable commit conflict");
    hide Contains;
  }

  lemma ContainsExactly(text: string, part: string)
    ensures Contains(text, part) <==> exists before, after :: text == before + part + after
  {
    if Contains(text, part) {
      var i :| 0 <= i <= |text| && part <= text[i..];
      assert text == text[..i] + part + text[i + |part|..];
    }
    if before, after :| text == before + part + after {
      assert text[|before|..] == part + after;
    }
  }
}
