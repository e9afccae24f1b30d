/**
 * Concurrent mutating requests against one daemon, with failing writes, crashes between the
 * temporary write and the rename, restarts, a file that is at times unreadable or out of sight, and
 * any document, or none, on the disk to begin with.
 */
module DurableAck {
  import opened Sequences
  import opened DiskStorage

  /** A flush runs to its end without other requests getting a turn; `owner` waits for its result. */
  datatype Flushing = Flushing(owner: Option<nat>, snapshot: Document, written: bool)

  datatype Process =
    | Down
    | Guarded                                                     // the boot guard passed, the store not yet loaded
    | Up(mem: Document, applied: set<nat>, flushing: Option<Flushing>, landed: set<nat>)

  datatype State = State(
    disk: Option<Contents>, sight: Sight,
    temps: map<nat, Contents>, pid: nat,         // one temporary file per process number
    process: Process,
    used: set<nat>,                              // every change ever requested
    acked: set<nat>,                             // changes answered with 200
    past: set<Document>,                         // every document the daemon ever held in memory
    origin: Option<Contents>)                    // what was on the disk to begin with

  function Start(disk: Option<Contents>): State
  {
    State(disk, Readable, map[], 0, Down, if disk.Some? then set m | m in disk.value.changes else {}, {}, {}, disk)
  }

  datatype Event =
    | Boot(pid: nat)                 // start and read the document once
    | LoadStore                      // the store reads it again
    | Apply(change: nat, waits: bool)   // a request changes memory; `waits` unless the adapter threw afterwards
    | BeginFlush(owner: Option<nat>) // a waiting request's flush, or a background or error-path one
    | WriteTemp | WriteFailure | Rename | RenameFailure
    | Acknowledge(change: nat)
    | Crash(torn: bool)
    | SetSight(sight: Sight)

  predicate Idle(s: State)
  {
    s.process.Up? && s.process.flushing.None?
  }

  predicate InFlush(s: State, written: bool)
  {
    s.process.Up? && s.process.flushing.Some? && s.process.flushing.value.written == written
  }

  predicate Enabled(s: State, e: Event)
  {
    match e
    case Boot(_) => s.process.Down?
    case LoadStore => s.process.Guarded?
    case Apply(change, _) => Idle(s) && change !in s.used
    case BeginFlush(owner) => Idle(s) && (owner.Some? ==> owner.value in s.process.applied)
    case WriteTemp => InFlush(s, false)
    case WriteFailure => InFlush(s, false)
    case Rename => InFlush(s, true) && s.pid in s.temps
    case RenameFailure => InFlush(s, true)
    case Acknowledge(change) => s.process.Up? && change in s.process.landed
    case Crash(_) => true
    case SetSight(_) => true
  }

  function Next(s: State, e: Event): State
    requires Enabled(s, e)
  {
    match e
    case Boot(pid) =>
      if MayBoot(s.disk, s.sight) then s.(process := Guarded, pid := pid) else s
    case LoadStore =>
      var mem := Loaded(s.disk, s.sight);
      s.(process := Up(mem, {}, None, {}), past := s.past + {mem})
    case Apply(change, waits) =>
      var p := s.process;
      s.(process := p.(mem := p.mem + [change], applied := if waits then p.applied + {change} else p.applied),
         used := s.used + {change}, past := s.past + {p.mem + [change]})
    case BeginFlush(owner) =>
      s.(process := s.process.(flushing := Some(Flushing(owner, s.process.mem, false))))
    case WriteTemp =>
      var f := s.process.flushing.value;
      s.(temps := s.temps[s.pid := Written(f.snapshot)], process := s.process.(flushing := Some(f.(written := true))))
    case WriteFailure =>
      EndFlush(s.(temps := s.temps[s.pid := Interrupted(Written(s.process.flushing.value.snapshot))]), false)
    case Rename => EndFlush(s.(disk := Some(s.temps[s.pid]), temps := s.temps - {s.pid}), true)
    case RenameFailure => EndFlush(s, false)
    case Acknowledge(change) =>
      s.(acked := s.acked + {change}, process := s.process.(landed := s.process.landed - {change}))
    case Crash(torn) =>
      var t := if torn && InFlush(s, false)
               then s.(temps := s.temps[s.pid := Interrupted(Written(s.process.flushing.value.snapshot))]) else s;
      t.(process := Down)
    case SetSight(sight) => s.(sight := sight)
  }

  /** The owner stops waiting; it may answer 200 only if its flush landed. */
  function EndFlush(s: State, landed: bool): State
    requires s.process.Up? && s.process.flushing.Some?
  {
    var p, owner := s.process, s.process.flushing.value.owner;
    if owner.None? then s.(process := p.(flushing := None))
    else s.(process := p.(flushing := None, applied := p.applied - {owner.value},
                          landed := if landed then p.landed + {owner.value} else p.landed))
  }

  predicate IsRun(s: State, events: seq<Event>)
    decreases |events|
  {
    events == [] || (Enabled(s, events[0]) && IsRun(Next(s, events[0]), events[1..]))
  }

  function After(s: State, events: seq<Event>): State
    requires IsRun(s, events)
    decreases |events|
  {
    if events == [] then s else After(Next(s, events[0]), events[1..])
  }

  // ----- the condition on loading

  /** The changes the document on disk embodies. */
  function Held(s: State): Document
  {
    if s.disk.Some? then s.disk.value.changes else []
  }

  /** Nothing is there, or it can be read and the store accepts it, or it embodies no change. */
  predicate KeepsDocument(s: State)
  {
    s.disk.None? || (s.sight.Readable? && Accepted(s.disk.value)) || s.disk.value.changes == []
  }

  predicate SafeRun(s: State, events: seq<Event>)
    requires IsRun(s, events)
    decreases |events|
  {
    events == [] || ((events[0].LoadStore? ==> KeepsDocument(s)) && SafeRun(Next(s, events[0]), events[1..]))
  }

  // ----- invariant

  predicate FlushFaithful(s: State)
  {
    s.process.Up? && s.process.flushing.Some? ==>
      var f := s.process.flushing.value;
      && f.snapshot == s.process.mem
      && (f.written ==> s.pid in s.temps && s.temps[s.pid] == Written(f.snapshot))
  }

  lemma {:induction false} FlushFaithfulAlways(s: State, events: seq<Event>)
    requires FlushFaithful(s) && IsRun(s, events)
    ensures FlushFaithful(After(s, events))
    decreases |events|
  {
    if events != [] {
      FlushFaithfulAlways(Next(s, events[0]), events[1..]);
    }
  }

  /** The document on disk is one the daemon wrote: the whole of a memory of some moment. */
  predicate OwnWriting(s: State)
  {
    s.disk == Some(Written(Held(s))) && Held(s) in s.past
  }

  predicate Durable(s: State)
  {
    && (s.disk == s.origin || OwnWriting(s))
    && (forall m :: m in s.acked ==> m in Held(s) && OwnWriting(s))
    && FlushFaithful(s)
    && (s.process.Up? ==>
          && Held(s) <= s.process.mem
          && s.process.mem in s.past
          && (forall m :: m in s.process.applied ==> m in s.process.mem)
          && (s.process.flushing.Some? && s.process.flushing.value.owner.Some? ==>
                s.process.flushing.value.owner.value in s.process.mem)
          && (forall m :: m in s.process.landed ==> m in Held(s) && OwnWriting(s)))
  }

  lemma PrefixMembers(a: Document, b: Document)
    requires a <= b
    ensures forall m :: m in a ==> m in b
  {
    forall m | m in a
      ensures m in b
    {
      var i :| 0 <= i < |a| && a[i] == m;
      assert b[i] == m;
    }
  }

  lemma LoadStays(s: State)
    requires Durable(s) && s.process.Guarded? && KeepsDocument(s)
    ensures Durable(Next(s, LoadStore))
  {
  }

  lemma ApplyStays(s: State, change: nat, waits: bool)
    requires Durable(s) && Enabled(s, Apply(change, waits))
    ensures Durable(Next(s, Apply(change, waits)))
  {
    hide Accepted;
    var mem := s.process.mem + [change];
    PrefixMembers(s.process.mem, mem);
    assert mem[|s.process.mem|] == change;
  }

  lemma RenameStays(s: State)
    requires Durable(s) && Enabled(s, Rename)
    ensures Durable(Next(s, Rename)) && Held(s) <= Held(Next(s, Rename)) == s.process.mem
  {
    hide Accepted;
    PrefixMembers(Held(s), s.process.mem);
  }

  lemma FlushStays(s: State, e: Event)
    requires Durable(s) && Enabled(s, e) && (e.BeginFlush? || e.WriteTemp? || e.WriteFailure? || e.RenameFailure?)
    ensures Durable(Next(s, e)) && Next(s, e).disk == s.disk
  {
    hide Accepted;
  }

  lemma CalmStays(s: State, e: Event)
    requires Durable(s) && Enabled(s, e) && (e.Boot? || e.Acknowledge? || e.Crash? || e.SetSight?)
    ensures Durable(Next(s, e)) && Next(s, e).disk == s.disk
  {
    hide Accepted;
  }

  /** Every step keeps the invariant, and the document on disk only ever grows. */
  lemma DurableNext(s: State, e: Event)
    requires Durable(s) && Enabled(s, e) && (e.LoadStore? ==> KeepsDocument(s))
    ensures Durable(Next(s, e)) && Held(s) <= Held(Next(s, e)) && Next(s, e).origin == s.origin
  {
    hide Accepted, Durable;
    match e
    case LoadStore => LoadStays(s);
    case Apply(change, waits) => ApplyStays(s, change, waits);
    case Rename => RenameStays(s);
    case _ =>
      if e.Boot? || e.Acknowledge? || e.Crash? || e.SetSight? {
        CalmStays(s, e);
      } else {
        FlushStays(s, e);
      }
  }

  lemma {:induction false} DurableAlways(s: State, events: seq<Event>)
    requires Durable(s) && IsRun(s, events) && SafeRun(s, events)
    ensures Durable(After(s, events)) && Held(s) <= Held(After(s, events)) && After(s, events).origin == s.origin
    decreases |events|
  {
    if events != [] {
      DurableNext(s, events[0]);
      DurableAlways(Next(s, events[0]), events[1..]);
    }
  }

  /**
   * Over every interleaving, each change answered with 200 is in the document on disk, and that document is
   * the one found at the start or the whole of what memory held at some moment.
   */
  lemma AcknowledgedIsOnDisk(disk: Option<Contents>, events: seq<Event>)
    requires IsRun(Start(disk), events) && SafeRun(Start(disk), events)
    ensures var s := After(Start(disk), events);
      && (forall m :: m in s.acked ==> s.disk.Some? && Accepted(s.disk.value) && m in s.disk.value.changes)
      && (s.disk == disk || (s.disk == Some(Written(Held(s))) && Held(s) in s.past))
  {
    DurableAlways(Start(disk), events);
  }

  lemma {:induction false} RunSplits(s: State, first: seq<Event>, second: seq<Event>)
    requires IsRun(s, first + second)
    ensures IsRun(s, first) && IsRun(After(s, first), second)
    ensures After(s, first + second) == After(After(s, first), second)
    ensures SafeRun(s, first + second) ==> SafeRun(s, first) && SafeRun(After(s, first), second)
    decreases |first|
  {
    if first == [] {
      assert first + second == second;
    } else {
      assert (first + second)[1..] == first[1..] + second;
      RunSplits(Next(s, first[0]), first[1..], second);
    }
  }

  /** No later boot, crash or flush replaces a document that was on disk: it only gains changes at its end. */
  lemma DocumentNeverReplaced(disk: Option<Contents>, before: seq<Event>, after: seq<Event>)
    requires IsRun(Start(disk), before + after) && SafeRun(Start(disk), before + after)
    ensures IsRun(Start(disk), before)
    ensures Held(Start(disk)) <= Held(After(Start(disk), before)) <= Held(After(Start(disk), before + after))
  {
    RunSplits(Start(disk), before, after);
    DurableAlways(Start(disk), before);
    DurableAlways(After(Start(disk), before), after);
  }

  /** A crash at any moment followed by a restart that can read brings back every acknowledged change. */
  lemma RestartRecovers(disk: Option<Contents>, events: seq<Event>, pid: nat, torn: bool)
    requires IsRun(Start(disk), events) && SafeRun(Start(disk), events) && After(Start(disk), events).sight.Readable?
    ensures var s := After(Start(disk), events);
      var crashed := Next(s, Crash(torn));
      Enabled(crashed, Boot(pid)) &&
      var guarded := Next(crashed, Boot(pid));
      Enabled(guarded, LoadStore) &&
      var up := Next(guarded, LoadStore);
      && (s.disk.None? || Accepted(s.disk.value) ==> up.process.mem == Held(s))
      && forall m :: m in s.acked ==> m in up.process.mem
  {
    DurableAlways(Start(disk), events);
  }

  // ----- a failed flush loses nothing

  predicate NoCrash(events: seq<Event>)
  {
    forall e :: e in events ==> !e.Crash?
  }

  lemma {:induction false} MemoryGrows(s: State, events: seq<Event>)
    requires s.process.Up? && IsRun(s, events) && NoCrash(events)
    ensures After(s, events).process.Up? && s.process.mem <= After(s, events).process.mem
    decreases |events|
  {
    if events != [] {
      assert events[0] in events;
      MemoryGrows(Next(s, events[0]), events[1..]);
    }
  }

  /**
   * Until the process ends a change once applied stays in memory, however many flushes fail, its own among
   * them; and whichever flush lands next puts it on disk.
   */
  lemma FailedFlushLosesNothing(disk: Option<Contents>, before: seq<Event>, change: nat, waits: bool, after: seq<Event>)
    requires IsRun(Start(disk), before + ([Apply(change, waits)] + after)) && NoCrash(after)
    ensures var s := After(Start(disk), before + ([Apply(change, waits)] + after));
      && s.process.Up? && change in s.process.mem
      && (Enabled(s, Rename) ==> change in Held(Next(s, Rename)))
  {
    var start, rest := Start(disk), [Apply(change, waits)] + after;
    RunSplits(start, before, rest);
    assert rest[1..] == after;
    var applied := Next(After(start, before), Apply(change, waits));
    MemoryGrows(applied, after);
    PrefixMembers(applied.process.mem, After(applied, after).process.mem);
    assert change == applied.process.mem[|applied.process.mem| - 1];
    FlushFaithfulAlways(start, before + rest);
  }

  // ----- what the guard buys, with no condition on loads

  /** While a document is there but unreadable the daemon does not come up, and nothing touches the document. */
  lemma {:induction false} UnreadableIsLeftAlone(s: State, events: seq<Event>)
    requires s.process.Down? && s.disk.Some? && s.sight == Unreadable
    requires IsRun(s, events) && forall e :: e in events ==> !e.SetSight?
    ensures After(s, events).process.Down? && After(s, events).disk == s.disk
    decreases |events|
  {
    if events != [] {
      assert events[0] in events;
      assert events[0].Boot? || events[0].Crash?;
      UnreadableIsLeftAlone(Next(s, events[0]), events[1..]);
    }
  }

  /** From any disk, whatever happened before, booting over an unreadable document leaves it and the process as is. */
  lemma BootOverUnreadable(disk: Option<Contents>, before: seq<Event>, pid: nat, after: seq<Event>)
    requires IsRun(Start(disk), before + ([Boot(pid)] + after)) && forall e :: e in after ==> !e.SetSight?
    ensures IsRun(Start(disk), before)
    ensures var s := After(Start(disk), before);
      s.disk.Some? && s.sight == Unreadable ==>
        var t := After(Start(disk), before + ([Boot(pid)] + after)); t.process.Down? && t.disk == s.disk
  {
    RunSplits(Start(disk), before, [Boot(pid)] + after);
    var s := After(Start(disk), before);
    if s.disk.Some? && s.sight == Unreadable {
      UnreadableIsLeftAlone(s, [Boot(pid)] + after);
    }
  }

  /** The file can be read and holds an accepted document, if any, of which memory has all. */
  predicate Growing(s: State)
  {
    && s.sight == Readable && (s.disk.Some? ==> Accepted(s.disk.value)) && FlushFaithful(s)
    && (s.process.Up? ==> Held(s) <= s.process.mem)
  }

  lemma {:induction false} ReadableOnlyGrows(s: State, events: seq<Event>)
    requires Growing(s) && IsRun(s, events) && forall e :: e in events ==> !e.SetSight?
    ensures Growing(After(s, events)) && Held(s) <= Held(After(s, events))
    decreases |events|
  {
    if events != [] {
      assert events[0] in events;
      GrowsOnce(s, events[0]);
      ReadableOnlyGrows(Next(s, events[0]), events[1..]);
    }
  }

  lemma GrowsOnce(s: State, e: Event)
    requires Growing(s) && Enabled(s, e) && !e.SetSight?
    ensures Growing(Next(s, e)) && Held(s) <= Held(Next(s, e))
  {
    hide Accepted;
    if e.LoadStore? {
      LoadsWhatItReads(s);
    }
  }

  lemma LoadsWhatItReads(s: State)
    requires s.sight == Readable && (s.disk.Some? ==> Accepted(s.disk.value))
    ensures Loaded(s.disk, s.sight) == Held(s)
  {
  }

  /**
   * From any disk, whatever happened before: a document that can be read at the guard and that the store accepts
   * is kept by the load and by all that follows, as long as it stays readable.
   */
  lemma ReadableIsKept(disk: Option<Contents>, before: seq<Event>, pid: nat, after: seq<Event>)
    requires IsRun(Start(disk), before + ([Boot(pid)] + after)) && forall e :: e in after ==> !e.SetSight?
    ensures IsRun(Start(disk), before)
    ensures var s := After(Start(disk), before);
      s.disk.Some? && s.sight == Readable && Accepted(s.disk.value) ==>
        var t := After(Start(disk), before + ([Boot(pid)] + after));
        Held(s) <= Held(t) && (t.process.Up? ==> Held(s) <= t.process.mem)
  {
    RunSplits(Start(disk), before, [Boot(pid)] + after);
    var s := After(Start(disk), before);
    if s.disk.Some? && s.sight == Readable && Accepted(s.disk.value) {
      ReadableOnlyGrows(s, [Boot(pid)] + after);
    }
  }

  // ----- the condition on loading is needed, and is exact

  /** A load keeps the changes on disk exactly when it could see, read and accept them, or there were none. */
  lemma LoadKeepsDocumentIff(s: State)
    requires s.process.Guarded?
    ensures Held(s) <= Next(s, LoadStore).process.mem <==> KeepsDocument(s)
  {
  }

  const LOAD_AND_FLUSH: seq<Event> := [LoadStore, BeginFlush(None), WriteTemp, Rename]

  /** And the first flush after it that lands keeps them on disk exactly then. */
  lemma FlushAfterLoadKeepsIff(s: State)
    requires s.process.Guarded?
    ensures IsRun(s, LOAD_AND_FLUSH)
    ensures After(s, LOAD_AND_FLUSH).disk == Some(Written(Loaded(s.disk, s.sight)))
    ensures Held(s) <= Held(After(s, LOAD_AND_FLUSH)) <==> KeepsDocument(s)
  {
    hide IsRun, After;
    FourSteps(s, LoadStore, BeginFlush(None), WriteTemp, Rename);
  }

  lemma FourSteps(s: State, a: Event, b: Event, c: Event, d: Event)
    requires Enabled(s, a) && Enabled(Next(s, a), b) && Enabled(Next(Next(s, a), b), c)
    requires Enabled(Next(Next(Next(s, a), b), c), d)
    ensures IsRun(s, [a, b, c, d]) && After(s, [a, b, c, d]) == Next(Next(Next(Next(s, a), b), c), d)
  {
    hide IsRun, After, Enabled, Next;
    ThreeSteps(Next(s, a), b, c, d);
    StepThenRun(s, a, [b, c, d]);
    assert [a] + [b, c, d] == [a, b, c, d];
  }

  lemma StepThenRun(s: State, e: Event, events: seq<Event>)
    requires Enabled(s, e) && IsRun(Next(s, e), events)
    ensures IsRun(s, [e] + events) && After(s, [e] + events) == After(Next(s, e), events)
  {
    assert ([e] + events)[1..] == events;
  }

  /**
   * Every document the store refuses, a future version's say, passes the guard and is replaced by seed
   * state at the first flush.
   */
  lemma RefusedDocumentIsReplaced(c: Contents)
    requires !Accepted(c)
    ensures IsRun(Start(Some(c)), [Boot(1)] + LOAD_AND_FLUSH)
    ensures After(Start(Some(c)), [Boot(1)] + LOAD_AND_FLUSH).disk == Some(Written([]))
  {
    var guarded := Next(Start(Some(c)), Boot(1));
    FlushAfterLoadKeepsIff(guarded);
    StepThenRun(Start(Some(c)), Boot(1), LOAD_AND_FLUSH);
  }

  /** One such document: sound, holding a change, of the version after the one this build knows. */
  lemma NewerDocumentIsReplaced()
    ensures var c := Contents(true, Some(5.0), true, [7]);
      IsRun(Start(Some(c)), [Boot(1)] + LOAD_AND_FLUSH) &&
      After(Start(Some(c)), [Boot(1)] + LOAD_AND_FLUSH).disk == Some(Written([]))
  {
    RefusedDocumentIsReplaced(Contents(true, Some(5.0), true, [7]));
  }

  /** A document the file system does not show counts as absent, passes the guard too, and is replaced. */
  lemma HiddenDocumentIsReplaced(c: Contents)
    ensures var es := [SetSight(Hidden)] + ([Boot(1)] + LOAD_AND_FLUSH);
      IsRun(Start(Some(c)), es) && After(Start(Some(c)), es).disk == Some(Written([]))
  {
    var hidden := Next(Start(Some(c)), SetSight(Hidden));
    FlushAfterLoadKeepsIff(Next(hidden, Boot(1)));
    StepThenRun(hidden, Boot(1), LOAD_AND_FLUSH);
    StepThenRun(Start(Some(c)), SetSight(Hidden), [Boot(1)] + LOAD_AND_FLUSH);
  }

  /** An acknowledged change is lost when the document turns unreadable between the guard and the load. */
  lemma UnreadableBetweenGuardAndLoad()
    ensures var es := ACKNOWLEDGE + TURN_UNREADABLE + LOAD_AND_FLUSH;
      IsRun(Start(None), es) && !SafeRun(Start(None), es) &&
      var s := After(Start(None), es); 7 in s.acked && s.disk == Some(Written([]))
  {
    hide IsRun, After, SafeRun;
    AcknowledgedOnce();
    TurnsUnreadable(After(Start(None), ACKNOWLEDGE));
    RunsJoin(Start(None), ACKNOWLEDGE, TURN_UNREADABLE);
    var guarded := After(Start(None), ACKNOWLEDGE + TURN_UNREADABLE);
    FlushAfterLoadKeepsIff(guarded);
    AckedStay(guarded);
    RunsJoin(Start(None), ACKNOWLEDGE + TURN_UNREADABLE, LOAD_AND_FLUSH);
    if SafeRun(Start(None), ACKNOWLEDGE + TURN_UNREADABLE + LOAD_AND_FLUSH) {
      AcknowledgedIsOnDisk(None, ACKNOWLEDGE + TURN_UNREADABLE + LOAD_AND_FLUSH);
    }
  }

  const ACKNOWLEDGE: seq<Event> :=
    [Boot(1), LoadStore, Apply(7, true)] + [BeginFlush(Some(7)), WriteTemp, Rename, Acknowledge(7)]

  const TURN_UNREADABLE: seq<Event> := [Crash(false), Boot(2), SetSight(Unreadable)]

  lemma {:induction false} RunsJoin(s: State, first: seq<Event>, second: seq<Event>)
    requires IsRun(s, first) && IsRun(After(s, first), second)
    ensures IsRun(s, first + second) && After(s, first + second) == After(After(s, first), second)
    decreases |first|
  {
    if first == [] {
      assert first + second == second;
    } else {
      assert (first + second)[1..] == first[1..] + second;
      RunsJoin(Next(s, first[0]), first[1..], second);
    }
  }

  lemma ThreeSteps(s: State, a: Event, b: Event, c: Event)
    requires Enabled(s, a) && Enabled(Next(s, a), b) && Enabled(Next(Next(s, a), b), c)
    ensures IsRun(s, [a, b, c]) && After(s, [a, b, c]) == Next(Next(Next(s, a), b), c)
  {
    hide IsRun, After, Enabled, Next;
    OneStep(Next(Next(s, a), b), c);
    StepThenRun(Next(s, a), b, [c]);
    StepThenRun(s, a, [b] + [c]);
    assert [a] + ([b] + [c]) == [a, b, c];
  }

  lemma AcknowledgedOnce()
    ensures IsRun(Start(None), ACKNOWLEDGE)
    ensures var s := After(Start(None), ACKNOWLEDGE);
      s.acked == {7} && s.disk == Some(Written([7])) && s.sight.Readable? && s.process.Up?
  {
    hide IsRun, After;
    var s := Start(None);
    ThreeSteps(s, Boot(1), LoadStore, Apply(7, true));
    var applied := After(s, [Boot(1), LoadStore, Apply(7, true)]);
    assert [] + [7] == [7];
    assert applied.process == Up([7], {7}, None, {});
    FourSteps(applied, BeginFlush(Some(7)), WriteTemp, Rename, Acknowledge(7));
    RunsJoin(s, [Boot(1), LoadStore, Apply(7, true)], [BeginFlush(Some(7)), WriteTemp, Rename, Acknowledge(7)]);
  }

  lemma TurnsUnreadable(s: State)
    requires s.process.Up? && s.sight.Readable?
    ensures IsRun(s, TURN_UNREADABLE)
    ensures var t := After(s, TURN_UNREADABLE);
      t.process.Guarded? && t.sight.Unreadable? && t.disk == s.disk && t.acked == s.acked
  {
    hide IsRun, After;
    ThreeSteps(s, Crash(false), Boot(2), SetSight(Unreadable));
  }

  lemma AckedStay(s: State)
    requires s.process.Guarded?
    ensures IsRun(s, LOAD_AND_FLUSH) && After(s, LOAD_AND_FLUSH).acked == s.acked
  {
    hide IsRun, After;
    FourSteps(s, LoadStore, BeginFlush(None), WriteTemp, Rename);
  }

  // ----- one request served without interruption is the router's own method

  function FlushEvents(owner: Option<nat>, fault: Fault): seq<Event>
  {
    match fault
    case NoFault => [BeginFlush(owner), WriteTemp, Rename]
    case WriteFails => [BeginFlush(owner), WriteFailure]
    case RenameFails => [BeginFlush(owner), WriteTemp, RenameFailure]
  }

  /** The steps of a flush put on disk what the storage's write puts there. */
  lemma FlushRefines(s: State, owner: Option<nat>, fault: Fault)
    requires Idle(s) && (owner.Some? ==> owner.value in s.process.applied)
    ensures IsRun(s, FlushEvents(owner, fault))
    ensures var t := After(s, FlushEvents(owner, fault));
      && Idle(t) && t.process.mem == s.process.mem && t.disk == AfterFlush(s.disk, s.process.mem, fault)
      && t.acked == s.acked
      && (fault == NoFault && owner.Some? ==> owner.value in t.process.landed)
  {
    match fault
    case NoFault => ThreeSteps(s, BeginFlush(owner), WriteTemp, Rename);
    case WriteFails =>
      assert [BeginFlush(owner), WriteFailure][1..] == [WriteFailure] && [WriteFailure][1..] == [];
    case RenameFails => ThreeSteps(s, BeginFlush(owner), WriteTemp, RenameFailure);
  }

  function RequestEvents(change: nat, outcome: Outcome, fault: Fault, lateFault: Fault): seq<Event>
  {
    match outcome
    case ThrowsBeforeApplying => FlushEvents(None, lateFault)
    case ThrowsAfterApplying => [Apply(change, false)] + FlushEvents(None, lateFault)
    case Returns =>
      [Apply(change, true)] + (FlushEvents(Some(change), fault)
        + if fault == NoFault then [Acknowledge(change)] else FlushEvents(None, lateFault))
  }

  /**
   * Served alone, a request leaves the memory, the file and the answer that the router's method is proved
   * to leave.
   */
  lemma RequestRefines(s: State, change: nat, outcome: Outcome, fault: Fault, lateFault: Fault)
    requires Idle(s) && change !in s.used && change !in s.acked
    ensures IsRun(s, RequestEvents(change, outcome, fault, lateFault))
    ensures var t := After(s, RequestEvents(change, outcome, fault, lateFault));
      var h := Handling(s.process.mem, s.disk, change, outcome, fault, lateFault);
      && t.process.Up? && t.process.mem == h.mem && t.disk == h.doc && (change in t.acked <==> h.status == Ok200)
  {
    hide IsRun, After, FlushEvents;
    match outcome
    case ThrowsBeforeApplying => FlushRefines(s, None, lateFault);
    case ThrowsAfterApplying =>
      FlushRefines(Next(s, Apply(change, false)), None, lateFault);
      StepThenRun(s, Apply(change, false), FlushEvents(None, lateFault));
    case Returns =>
      var applied := Next(s, Apply(change, true));
      FlushRefines(applied, Some(change), fault);
      var flushed := After(applied, FlushEvents(Some(change), fault));
      if fault == NoFault {
        OneStep(flushed, Acknowledge(change));
        RunsJoin(applied, FlushEvents(Some(change), fault), [Acknowledge(change)]);
        StepThenRun(s, Apply(change, true), FlushEvents(Some(change), fault) + [Acknowledge(change)]);
      } else {
        FlushRefines(flushed, None, lateFault);
        RunsJoin(applied, FlushEvents(Some(change), fault), FlushEvents(None, lateFault));
        StepThenRun(s, Apply(change, true), FlushEvents(Some(change), fault) + FlushEvents(None, lateFault));
      }
  }

  lemma OneStep(s: State, e: Event)
    requires Enabled(s, e)
    ensures IsRun(s, [e]) && After(s, [e]) == Next(s, e)
  {
    assert [e][1..] == [];
  }
}
