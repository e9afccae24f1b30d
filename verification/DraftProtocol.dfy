/**
 * Every interleaving of edits, timers, flushes, discards, and the broker's late or failed answers,
 * for one review's draft.
 */
module DraftProtocol {
  import opened Sequences
  import opened DraftEntry

  // ----- state

  datatype Op = Save(draft: Draft, isRetry: bool) | Discard

  /** A request, numbered in the order of issue. */
  datatype Request = Request(number: nat, op: Op)

  datatype Answer = Answer(request: Request, ok: bool)

  /** What the reader did last: nothing yet, an edit, or giving the draft up. */
  datatype Last = Untouched | Edited(draft: Draft) | Consumed | Discarded(number: nat)

  datatype State = State(
    entry: Persist,
    queue: seq<Request>,       // issued, not yet handled by the broker, in order of issue
    answers: seq<Answer>,      // handled by the broker, answer still on its way
    broker: Option<Draft>,     // the durable copy
    done: seq<Request>,        // the requests the broker carried out, in the order it did
    confirmed: set<nat>,       // numbers of the requests whose success reached the client
    heard: seq<Answer>,        // the answers that reached the client, in order
    saves: seq<Draft>,         // every document ever sent, in order
    firstTries: nat, retries: nat,
    issued: nat, edits: nat, last: Last)

  const START := State(CLEAN, [], [], None, [], {}, [], [], 0, 0, 0, 0, Untouched)

  datatype Event =
    | Edit(body: string)
    | SaveTimer
    | RetryTimer
    | Flush
    | Submitted                              // a submit consumed the draft
    | DiscardDraft
    | Handle(k: nat, carriedOut: bool, ok: bool)   // the broker takes up a request and answers it
    | Deliver(k: nat)                        // an answer reaches the client

  predicate Enabled(s: State, e: Event)
  {
    match e
    case SaveTimer => s.entry.saveTimer
    case RetryTimer => s.entry.retryTimer
    case Handle(k, carriedOut, ok) => k < |s.queue| && (ok ==> carriedOut)
    case Deliver(k) => k < |s.answers|
    case _ => true
  }

  /** The broker carries requests out in the order they were issued. */
  predicate InOrder(e: Event)
  {
    e.Handle? ==> e.k == 0
  }

  function Issue(s: State, entry: Persist, isRetry: bool): State
  {
    if s.entry.pending.None? then s.(entry := entry)
    else
      var d := s.entry.pending.value;
      s.(entry := entry,
         queue := s.queue + [Request(s.issued, Save(d, isRetry))],
         saves := s.saves + [d],
         firstTries := if isRetry then s.firstTries else s.firstTries + 1,
         retries := if isRetry then s.retries + 1 else s.retries,
         issued := s.issued + 1)
  }

  function Remove<T>(xs: seq<T>, k: nat): seq<T>
    requires k < |xs|
  {
    xs[..k] + xs[k + 1..]
  }

  function Next(s: State, e: Event): State
    requires Enabled(s, e)
  {
    match e
    case Edit(body) =>
      var d := Draft(s.edits, body);
      s.(entry := s.entry.Schedule(d), edits := s.edits + 1, last := Edited(d))
    case SaveTimer => Issue(s, s.entry.SaveTimerFired(), false)
    case RetryTimer => Issue(s, s.entry.RetryTimerFired(), true)
    case Flush => Issue(s, s.entry.Flushed(), false)
    case Submitted => s.(entry := s.entry.Dropped(), last := Consumed)
    case DiscardDraft =>
      s.(entry := s.entry.Dropped(), queue := s.queue + [Request(s.issued, Discard)],
         issued := s.issued + 1, last := Discarded(s.issued))
    case Handle(k, carriedOut, ok) =>
      var r := s.queue[k];
      s.(queue := Remove(s.queue, k), answers := s.answers + [Answer(r, ok)],
         broker := if !carriedOut then s.broker else if r.op.Save? then Some(r.op.draft) else None,
         done := if carriedOut then s.done + [r] else s.done)
    case Deliver(k) =>
      var a := s.answers[k];
      var t := s.(answers := Remove(s.answers, k), heard := s.heard + [a],
                  confirmed := if a.ok then s.confirmed + {a.request.number} else s.confirmed);
      if a.request.op.Discard? then t
      else if a.ok then t.(entry := s.entry.Saved(a.request.op.draft))
      else t.(entry := s.entry.Failed(a.request.op.draft, a.request.op.isRetry))
  }

  // ----- runs

  predicate IsRun(s: State, events: seq<Event>)
    decreases |events|
  {
    events == [] || (Enabled(s, events[0]) && IsRun(Next(s, events[0]), events[1..]))
  }

  function After(s: State, events: seq<Event>): State
    requires IsRun(s, events)
    decreases |events|
  {
    if events == [] then s else After(Next(s, events[0]), events[1..])
  }

  // ----- nothing pending is forgotten (whatever order the broker works in)

  /** A save of exactly this document is still being sent, handled or answered. */
  ghost predicate InFlight(s: State, d: Draft)
  {
    || (exists r :: r in s.queue && r.op.Save? && r.op.draft == d)
    || (exists a :: a in s.answers && a.request.op.Save? && a.request.op.draft == d)
  }

  ghost predicate Kept(s: State)
  {
    && (s.entry.pending.Some? ==>
          && s.last == Edited(s.entry.pending.value)
          && (s.entry.saveTimer || s.entry.retryTimer || s.entry.dirty || InFlight(s, s.entry.pending.value)))
    && (s.entry.dirty ==> s.entry.pending.Some?)
    && (!s.last.Edited? ==> s.entry == CLEAN)
  }

  lemma RemoveKeepsOthers<T>(xs: seq<T>, k: nat, x: T)
    requires k < |xs| && x in xs && x != xs[k]
    ensures x in Remove(xs, k)
  {
    var i :| 0 <= i < |xs| && xs[i] == x;
    if i < k {
      assert Remove(xs, k)[i] == x;
    } else {
      assert Remove(xs, k)[i - 1] == x;
    }
  }

  lemma FlightContinues(s: State, e: Event, d: Draft)
    requires Enabled(s, e) && InFlight(s, d)
    requires e.Deliver? ==> !(s.answers[e.k].request.op.Save? && s.answers[e.k].request.op.draft == d)
    ensures InFlight(Next(s, e), d)
  {
    var t := Next(s, e);
    if exists r :: r in s.queue && r.op.Save? && r.op.draft == d {
      var r :| r in s.queue && r.op.Save? && r.op.draft == d;
      if e.Handle? {
        if r == s.queue[e.k] {
          assert t.answers[|s.answers|].request == r;
        } else {
          RemoveKeepsOthers(s.queue, e.k, r);
        }
      } else {
        assert r in t.queue;
      }
    } else {
      var a :| a in s.answers && a.request.op.Save? && a.request.op.draft == d;
      if e.Deliver? {
        RemoveKeepsOthers(s.answers, e.k, a);
      } else {
        assert a in t.answers;
      }
    }
  }

  lemma IssueIsInFlight(s: State, entry: Persist, isRetry: bool)
    requires s.entry.pending.Some?
    ensures InFlight(Issue(s, entry, isRetry), s.entry.pending.value)
  {
    var t := Issue(s, entry, isRetry);
    assert t.queue[|s.queue|].op == Save(s.entry.pending.value, isRetry);
  }

  /** A pending document always has a timer, a save in flight or the dirty flag; dirty means pending. */
  lemma KeptNext(s: State, e: Event)
    requires Kept(s) && Enabled(s, e)
    ensures Kept(Next(s, e))
  {
    if s.entry.pending.Some? {
      var d := s.entry.pending.value;
      match e
      case SaveTimer => IssueIsInFlight(s, s.entry.SaveTimerFired(), false);
      case RetryTimer => IssueIsInFlight(s, s.entry.RetryTimerFired(), true);
      case Flush => IssueIsInFlight(s, s.entry.Flushed(), false);
      case Handle(_, _, _) => if InFlight(s, d) { FlightContinues(s, e, d); }
      case Deliver(k) =>
        var op := s.answers[k].request.op;
        if InFlight(s, d) && !(op.Save? && op.draft == d) { FlightContinues(s, e, d); }
      case _ =>
    }
  }

  lemma {:induction false} KeptAlways(s: State, events: seq<Event>)
    requires Kept(s) && IsRun(s, events)
    ensures Kept(After(s, events))
    decreases |events|
  {
    if events != [] {
      KeptNext(s, events[0]);
      KeptAlways(Next(s, events[0]), events[1..]);
    }
  }

  /** Over every run from the start, in whatever order the broker works. */
  lemma NothingForgotten(events: seq<Event>)
    requires IsRun(START, events)
    ensures var s := After(START, events);
      && (s.entry.pending.Some? ==>
            s.entry.saveTimer || s.entry.retryTimer || s.entry.dirty || InFlight(s, s.entry.pending.value))
      && (s.entry.dirty ==> s.entry.pending.Some?)
  {
    KeptAlways(START, events);
  }

  /** Whatever is sent, by debounce, retry or flush, is the latest edit; otherwise nothing is sent. */
  lemma OnlyTheLatestIsSent(events: seq<Event>, e: Event)
    requires IsRun(START, events) && Enabled(After(START, events), e)
    ensures var s := After(START, events);
      var t := Next(s, e);
      || t.saves == s.saves
      || ((e.SaveTimer? || e.RetryTimer? || e.Flush?) && s.last.Edited? && t.saves == s.saves + [s.last.draft])
  {
    KeptAlways(START, events);
  }

  // ----- giving the draft up

  predicate NoEdit(events: seq<Event>)
  {
    forall e :: e in events ==> !e.Edit?
  }

  /** Once the draft was given up, no save is issued until the next edit. */
  lemma {:induction false} NoSaveAfterGivingUp(s: State, events: seq<Event>)
    requires Kept(s) && !s.last.Edited? && IsRun(s, events) && NoEdit(events)
    ensures After(s, events).saves == s.saves && !After(s, events).last.Edited?
    decreases |events|
  {
    if events != [] {
      assert events[0] in events;
      KeptNext(s, events[0]);
      NoSaveAfterGivingUp(Next(s, events[0]), events[1..]);
    }
  }

  // ----- what the broker holds, in whatever order it works

  predicate Carries(r: Request, d: Draft)
  {
    r.op.Save? && r.op.draft == d
  }

  /** What the broker holds once it carried these requests out. */
  function Left(done: seq<Request>): Option<Draft>
  {
    if done == [] || done[|done| - 1].op.Discard? then None else Some(done[|done| - 1].op.draft)
  }

  /** The requests still queued or carried out. */
  ghost function Known(s: State): set<Request>
  {
    (set r | r in s.queue) + (set r | r in s.done)
  }

  ghost predicate Issued(s: State)
  {
    && (forall r :: r in Known(s) ==> r.number < s.issued && (r.op.Save? ==> r.op.draft.id < s.edits))
    && (forall q, r :: q in Known(s) && r in Known(s) && q.number == r.number ==> q == r)
    && (s.last.Edited? ==> s.last.draft.id < s.edits)
    && (s.last.Discarded? ==> s.last.number < s.issued)
  }

  ghost predicate Answered(s: State)
  {
    && (forall a :: a in s.answers && a.ok ==> a.request in s.done)
    && (forall n :: n in s.confirmed ==> exists r :: r in s.done && r.number == n)
    && s.broker == Left(s.done)
  }

  /** Every request issued after a save of the last edit is one too, and only a carried-out one clears the entry. */
  ghost predicate EditLast(s: State)
  {
    s.last.Edited? ==>
      var d := s.last.draft;
      && (forall q, r :: q in Known(s) && r in Known(s) && Carries(q, d) && q.number < r.number ==> Carries(r, d))
      && (s.entry.pending.None? ==> exists r :: r in s.done && Carries(r, d))
  }

  /** Every save is older than the last discard. */
  ghost predicate DiscardLast(s: State)
  {
    s.last.Discarded? ==>
      && (forall r :: r in Known(s) && r.op.Save? ==> r.number < s.last.number)
      && (forall r :: r in Known(s) && r.number == s.last.number ==> r.op.Discard?)
  }

  ghost predicate History(s: State)
  {
    Kept(s) && Issued(s) && Answered(s) && EditLast(s) && DiscardLast(s)
  }

  lemma KnownSplits(s: State, r: Request)
    ensures r in Known(s) <==> r in s.queue || r in s.done
  {
  }

  /** The broker taking up a request moves it at most from the queue to those carried out. */
  lemma HandleKnown(s: State, k: nat, carriedOut: bool, ok: bool)
    requires k < |s.queue| && (ok ==> carriedOut)
    ensures Known(Next(s, Handle(k, carriedOut, ok))) <= Known(s)
    ensures forall r :: r in s.done ==> r in Next(s, Handle(k, carriedOut, ok)).done
    ensures carriedOut ==> s.queue[k] in Next(s, Handle(k, carriedOut, ok)).done
  {
    var t := Next(s, Handle(k, carriedOut, ok));
    if carriedOut {
      assert t.done[|s.done|] == s.queue[k];
    }
  }

  lemma HandleHistory(s: State, k: nat, carriedOut: bool, ok: bool)
    requires History(s) && k < |s.queue| && (ok ==> carriedOut)
    ensures History(Next(s, Handle(k, carriedOut, ok)))
  {
    hide Known, Kept, InFlight;
    KeptNext(s, Handle(k, carriedOut, ok));
    HandleKnown(s, k, carriedOut, ok);
  }

  /** An answer reaching the client leaves the broker's history alone and can only clear or mark the entry. */
  lemma DeliverKnown(s: State, k: nat)
    requires k < |s.answers|
    ensures var t := Next(s, Deliver(k));
      && Known(t) == Known(s) && t.done == s.done && t.last == s.last && t.broker == s.broker
      && t.issued == s.issued && t.edits == s.edits
      && (forall a :: a in t.answers ==> a in s.answers)
      && t.confirmed == (if s.answers[k].ok then s.confirmed + {s.answers[k].request.number} else s.confirmed)
      && (t.entry.pending.None? && s.entry.pending.Some? ==>
            s.answers[k].ok && Carries(s.answers[k].request, s.entry.pending.value))
  {
  }

  lemma DeliverHistory(s: State, k: nat)
    requires History(s) && k < |s.answers|
    ensures History(Next(s, Deliver(k)))
  {
    KeptNext(s, Deliver(k));
    PendingIsLast(s);
    DeliverKnown(s, k);
    hide InFlight, Known, Kept, Next;
    assert s.answers[k] in s.answers;
  }

  lemma PendingIsLast(s: State)
    requires Kept(s)
    ensures s.entry.pending.Some? ==> s.last == Edited(s.entry.pending.value)
  {
  }

  /** Any other step issues at most one request: a save of the last edit, or the discard. */
  lemma IssueKnown(s: State, e: Event)
    requires Kept(s) && Enabled(s, e) && !e.Handle? && !e.Deliver?
    ensures var t := Next(s, e);
      && t.answers == s.answers && t.broker == s.broker && t.done == s.done && t.confirmed == s.confirmed
      && t.issued >= s.issued && t.edits >= s.edits
    ensures forall r :: r in Known(Next(s, e)) ==> r in Known(s) || NewRequest(s, Next(s, e), r)
  {
    hide InFlight;
  }

  predicate NewRequest(s: State, t: State, r: Request)
  {
    && r.number == s.issued < t.issued && |t.queue| > |s.queue| && r == t.queue[|s.queue|]
    && if r.op.Save? then t.last == s.last == Edited(r.op.draft) else t.last == Discarded(r.number)
  }

  lemma IssueHistory(s: State, e: Event)
    requires History(s) && Enabled(s, e) && !e.Handle? && !e.Deliver?
    ensures History(Next(s, e))
  {
    hide InFlight, Known;
    KeptNext(s, e);
    IssueKnown(s, e);
  }

  lemma {:induction false} HistoryAlways(s: State, events: seq<Event>)
    requires History(s) && IsRun(s, events)
    ensures History(After(s, events))
    decreases |events|
  {
    hide History;
    if events != [] {
      match events[0] {
        case Handle(k, carriedOut, ok) => HandleHistory(s, k, carriedOut, ok);
        case Deliver(k) => DeliverHistory(s, k);
        case _ => IssueHistory(s, events[0]);
      }
      HistoryAlways(Next(s, events[0]), events[1..]);
    }
  }

  lemma StartHistory()
    ensures History(START) && Ordered(START)
  {
  }

  predicate Quiet(s: State)
  {
    !s.entry.saveTimer && !s.entry.retryTimer && !s.entry.dirty && s.queue == [] && s.answers == []
  }

  /** What the broker did last was issued before a save of d that it had carried out, and is not one itself. */
  ghost predicate Overtaken(done: seq<Request>, d: Draft)
  {
    && done != [] && !Carries(done[|done| - 1], d)
    && exists r :: r in done && Carries(r, d) && done[|done| - 1].number < r.number
  }

  /**
   * In whatever order the broker works: with no timer, nothing in flight and no warning shown, it has carried
   * out a save of the last edit, and it holds that edit exactly unless an older request overtook it.
   */
  lemma QuietMeansSavedIff(events: seq<Event>)
    requires IsRun(START, events)
    ensures var s := After(START, events);
      Quiet(s) && s.last.Edited? ==>
        && (exists r :: r in s.done && Carries(r, s.last.draft))
        && (s.broker == Some(s.last.draft) <==> !Overtaken(s.done, s.last.draft))
  {
    hide History, Kept, IsRun;
    StartHistory();
    HistoryAlways(START, events);
    var s := After(START, events);
    if Quiet(s) && s.last.Edited? {
      QuietState(s);
    }
  }

  lemma QuietState(s: State)
    requires History(s) && Quiet(s) && s.last.Edited?
    ensures exists r :: r in s.done && Carries(r, s.last.draft)
    ensures s.broker == Some(s.last.draft) <==> !Overtaken(s.done, s.last.draft)
  {
    var d, done := s.last.draft, s.done;
    assert s.entry.pending.None?;
    var r :| r in done && Carries(r, d);
    var last := done[|done| - 1];
    assert last in done && r in Known(s) && last in Known(s);
    assert s.broker == Some(d) <==> Carries(last, d);
  }

  /**
   * In whatever order the broker works: once the discard that followed the last edit is carried out, the broker
   * holds no draft exactly unless an older save was carried out last.
   */
  lemma DiscardedIsAbsentIff(events: seq<Event>)
    requires IsRun(START, events)
    ensures var s := After(START, events);
      s.last.Discarded? && (exists r :: r in s.done && r.number == s.last.number) ==>
        (s.broker == None <==> !(s.done[|s.done| - 1].op.Save? && s.done[|s.done| - 1].number < s.last.number))
  {
    hide History, Kept, IsRun;
    StartHistory();
    HistoryAlways(START, events);
    var s := After(START, events);
    if s.last.Discarded? && exists r :: r in s.done && r.number == s.last.number {
      DiscardedState(s);
    }
  }

  lemma DiscardedState(s: State)
    requires History(s) && s.last.Discarded? && s.done != []
    ensures s.broker == None <==> !(s.done[|s.done| - 1].op.Save? && s.done[|s.done| - 1].number < s.last.number)
  {
    assert s.done[|s.done| - 1] in s.done && s.done[|s.done| - 1] in Known(s);
  }

  // ----- a broker that works in the order of issue

  ghost predicate Rising(rs: seq<Request>, top: nat)
  {
    && (forall i, j :: 0 <= i < j < |rs| ==> rs[i].number < rs[j].number)
    && (forall i :: 0 <= i < |rs| ==> rs[i].number < top)
  }

  /** Those carried out, then those queued, in order of issue. */
  ghost predicate Ordered(s: State)
  {
    Rising(s.done + s.queue, s.issued)
  }

  lemma RisingWithout(before: seq<Request>, r: Request, after: seq<Request>, top: nat)
    requires Rising(before + [r] + after, top)
    ensures Rising(before + after, top)
  {
    var all, rest, n := before + [r] + after, before + after, |before|;
    forall i | 0 <= i < |rest|
      ensures rest[i] == all[if i < n then i else i + 1]
    {
    }
  }

  lemma HandledInOrder(s: State, carriedOut: bool, ok: bool)
    requires Ordered(s) && s.queue != [] && (ok ==> carriedOut)
    ensures Ordered(Next(s, Handle(0, carriedOut, ok)))
  {
    hide Rising;
    var r, rest := s.queue[0], s.queue[1..];
    assert Remove(s.queue, 0) == rest;
    assert s.done + s.queue == s.done + [r] + rest;
    RisingWithout(s.done, r, rest, s.issued);
  }

  lemma IssuedInOrder(s: State, r: Request, top: nat)
    requires Ordered(s) && r.number == s.issued < top
    ensures Rising(s.done + (s.queue + [r]), top)
  {
    assert s.done + (s.queue + [r]) == s.done + s.queue + [r];
  }

  lemma OrderedNext(s: State, e: Event)
    requires Ordered(s) && Enabled(s, e) && InOrder(e)
    ensures Ordered(Next(s, e))
  {
    hide Rising;
    var t := Next(s, e);
    if e.Handle? {
      HandledInOrder(s, e.carriedOut, e.ok);
    } else if t.queue != s.queue {
      IssuedInOrder(s, t.queue[|s.queue|], t.issued);
    }
  }

  predicate AllInOrder(events: seq<Event>)
  {
    forall e :: e in events ==> InOrder(e)
  }

  lemma {:induction false} OrderedAlways(s: State, events: seq<Event>)
    requires Ordered(s) && IsRun(s, events) && AllInOrder(events)
    ensures Ordered(After(s, events))
    decreases |events|
  {
    hide Ordered;
    if events != [] {
      assert events[0] in events;
      OrderedNext(s, events[0]);
      OrderedAlways(Next(s, events[0]), events[1..]);
    }
  }

  /** In particular, a broker that works in order holds the last edit. */
  lemma QuietMeansSaved(events: seq<Event>)
    requires IsRun(START, events) && AllInOrder(events)
    ensures var s := After(START, events);
      Quiet(s) && s.last.Edited? ==> s.broker == Some(s.last.draft)
  {
    hide IsRun, Quiet, Ordered;
    QuietMeansSavedIff(events);
    StartHistory();
    OrderedAlways(START, events);
    NothingOvertakes(After(START, events));
  }

  lemma NothingOvertakes(s: State)
    requires Ordered(s)
    ensures forall r :: r in s.done ==> r.number <= s.done[|s.done| - 1].number
  {
    assert forall i :: 0 <= i < |s.done| ==> s.done[i] == (s.done + s.queue)[i];
  }

  /**
   * And once the discard that followed the last edit is confirmed, or merely carried out, such a broker holds
   * no draft, and keeps holding none until the next edit.
   */
  lemma DiscardedStaysAbsent(events: seq<Event>)
    requires IsRun(START, events) && AllInOrder(events)
    ensures var s := After(START, events);
      && (forall n :: n in s.confirmed ==> exists r :: r in s.done && r.number == n)
      && (s.last.Discarded? && (exists r :: r in s.done && r.number == s.last.number) ==> s.broker == None)
  {
    hide IsRun, Kept, Issued, EditLast, DiscardLast, Ordered;
    DiscardedIsAbsentIff(events);
    StartHistory();
    HistoryAlways(START, events);
    OrderedAlways(START, events);
    NothingOvertakes(After(START, events));
  }

  // ----- why the order matters

  /** Two saves carried out in the other order: the client is quiet and shows no warning, the broker is behind. */
  const OVERTAKEN: seq<Event> := TWO_SAVES + [Handle(1, true, true), Handle(0, true, true), Deliver(0), Deliver(0)]

  const TWO_SAVES: seq<Event> := [Edit("a"), SaveTimer, Edit("b"), SaveTimer]

  lemma {:induction false} RunsJoin(s: State, first: seq<Event>, second: seq<Event>)
    requires IsRun(s, first) && IsRun(After(s, first), second)
    ensures IsRun(s, first + second) && After(s, first + second) == After(After(s, first), second)
    decreases |first|
  {
    if first == [] {
      assert first + second == second;
    } else {
      assert (first + second)[1..] == first[1..] + second;
      RunsJoin(Next(s, first[0]), first[1..], second);
    }
  }

  lemma FourSteps(s: State, a: Event, b: Event, c: Event, d: Event)
    requires Enabled(s, a) && Enabled(Next(s, a), b) && Enabled(Next(Next(s, a), b), c)
    requires Enabled(Next(Next(Next(s, a), b), c), d)
    ensures IsRun(s, [a, b, c, d]) && After(s, [a, b, c, d]) == Next(Next(Next(Next(s, a), b), c), d)
  {
    hide Enabled, Next, IsRun, After;
    OneStep(s, a);
    OneStep(Next(s, a), b);
    OneStep(Next(Next(s, a), b), c);
    OneStep(Next(Next(Next(s, a), b), c), d);
    RunsJoin(s, [a], [b]);
    RunsJoin(s, [a] + [b], [c]);
    RunsJoin(s, [a] + [b] + [c], [d]);
    assert [a] + [b] + [c] + [d] == [a, b, c, d];
  }

  lemma OneStep(s: State, e: Event)
    requires Enabled(s, e)
    ensures IsRun(s, [e]) && After(s, [e]) == Next(s, e)
  {
    assert [e][1..] == [];
  }

  lemma TwoSavesInFlight()
    ensures IsRun(START, TWO_SAVES)
    ensures After(START, TWO_SAVES) == State(
      Persist(false, false, Some(Draft(1, "b")), false),
      [Request(0, Save(Draft(0, "a"), false)), Request(1, Save(Draft(1, "b"), false))],
      [], None, [], {}, [], [Draft(0, "a"), Draft(1, "b")], 2, 0, 2, 2, Edited(Draft(1, "b")))
  {
    hide IsRun, After;
    FourSteps(START, Edit("a"), SaveTimer, Edit("b"), SaveTimer);
  }

  lemma LateSaveLands(s: State, first: Request, second: Request)
    requires s.queue == [first, second] && s.answers == [] && s.done == []
    requires first.op.Save? && second.op.Save? && s.entry.pending == Some(second.op.draft)
    requires first.op.draft != second.op.draft
    ensures var es := [Handle(1, true, true), Handle(0, true, true), Deliver(0), Deliver(0)];
      IsRun(s, es) &&
      var t := After(s, es);
      && t.queue == [] && t.answers == [] && t.broker == Some(first.op.draft) && t.done == [second, first]
      && t.last == s.last && t.entry == s.entry.Saved(second.op.draft)
  {
    hide IsRun, After;
    FourSteps(s, Handle(1, true, true), Handle(0, true, true), Deliver(0), Deliver(0));
  }

  lemma OvertakingLosesAnEdit()
    ensures IsRun(START, OVERTAKEN) && !AllInOrder(OVERTAKEN)
    ensures var s := After(START, OVERTAKEN);
      && Quiet(s) && s.last == Edited(Draft(1, "b")) && s.broker == Some(Draft(0, "a"))
      && Overtaken(s.done, Draft(1, "b"))
  {
    hide IsRun, After, Next;
    TwoSavesInFlight();
    var s := After(START, TWO_SAVES);
    LateSaveLands(s, s.queue[0], s.queue[1]);
    RunsJoin(START, TWO_SAVES, [Handle(1, true, true), Handle(0, true, true), Deliver(0), Deliver(0)]);
    assert OVERTAKEN[4] in OVERTAKEN;
    assert After(START, OVERTAKEN).done[0] == s.queue[1];
  }

  // ----- one retry per attempt

  function First(r: Request): nat
  {
    if r.op.Save? && !r.op.isRetry then 1 else 0
  }

  function FirstTriesIn(queue: seq<Request>): nat
  {
    if queue == [] then 0 else First(queue[0]) + FirstTriesIn(queue[1..])
  }

  function FirstTriesAnswered(answers: seq<Answer>): nat
  {
    if answers == [] then 0 else First(answers[0].request) + FirstTriesAnswered(answers[1..])
  }

  lemma {:induction false} QueueCounts(queue: seq<Request>, r: Request)
    ensures FirstTriesIn(queue + [r]) == FirstTriesIn(queue) + First(r)
    ensures forall k: nat :: k < |queue| ==> FirstTriesIn(queue) == FirstTriesIn(Remove(queue, k)) + First(queue[k])
  {
    if queue != [] {
      QueueCounts(queue[1..], r);
      assert (queue + [r])[1..] == queue[1..] + [r];
      forall k: nat | k < |queue|
        ensures FirstTriesIn(queue) == FirstTriesIn(Remove(queue, k)) + First(queue[k])
      {
        if k > 0 {
          assert Remove(queue, k)[1..] == Remove(queue[1..], k - 1);
        } else {
          assert Remove(queue, 0) == queue[1..];
        }
      }
    } else {
      assert (queue + [r])[1..] == [];
    }
  }

  lemma {:induction false} AnswerCounts(answers: seq<Answer>, a: Answer)
    ensures FirstTriesAnswered(answers + [a]) == FirstTriesAnswered(answers) + First(a.request)
    ensures forall k: nat :: k < |answers| ==>
      FirstTriesAnswered(answers) == FirstTriesAnswered(Remove(answers, k)) + First(answers[k].request)
  {
    if answers != [] {
      AnswerCounts(answers[1..], a);
      assert (answers + [a])[1..] == answers[1..] + [a];
      forall k: nat | k < |answers|
        ensures FirstTriesAnswered(answers) == FirstTriesAnswered(Remove(answers, k)) + First(answers[k].request)
      {
        if k > 0 {
          assert Remove(answers, k)[1..] == Remove(answers[1..], k - 1);
        } else {
          assert Remove(answers, 0) == answers[1..];
        }
      }
    } else {
      assert (answers + [a])[1..] == [];
    }
  }

  /** Each first attempt still unanswered may yet cost one retry; each armed retry timer is one to come. */
  ghost predicate RetriesBounded(s: State)
  {
    var armed := if s.entry.retryTimer then 1 else 0;
    s.retries + armed + FirstTriesIn(s.queue) + FirstTriesAnswered(s.answers) <= s.firstTries
  }

  lemma RetriesBoundedNext(s: State, e: Event)
    requires RetriesBounded(s) && Enabled(s, e)
    ensures RetriesBounded(Next(s, e))
  {
    hide FirstTriesIn, FirstTriesAnswered;
    match e
    case Handle(k, _, ok) =>
      QueueCounts(s.queue, s.queue[k]);
      AnswerCounts(s.answers, Answer(s.queue[k], ok));
    case Deliver(k) =>
      AnswerCounts(s.answers, s.answers[k]);
    case SaveTimer =>
      if s.entry.pending.Some? {
        QueueCounts(s.queue, Request(s.issued, Save(s.entry.pending.value, false)));
      }
    case RetryTimer =>
      if s.entry.pending.Some? {
        QueueCounts(s.queue, Request(s.issued, Save(s.entry.pending.value, true)));
      }
    case Flush =>
      if s.entry.pending.Some? {
        QueueCounts(s.queue, Request(s.issued, Save(s.entry.pending.value, false)));
      }
    case DiscardDraft => QueueCounts(s.queue, Request(s.issued, Discard));
    case _ =>
  }

  lemma {:induction false} RetriesBoundedAlways(s: State, events: seq<Event>)
    requires RetriesBounded(s) && IsRun(s, events)
    ensures RetriesBounded(After(s, events))
    decreases |events|
  {
    if events != [] {
      RetriesBoundedNext(s, events[0]);
      RetriesBoundedAlways(Next(s, events[0]), events[1..]);
    }
  }

  /** Over every run, retries never outnumber the debounced and flushed attempts. */
  lemma OneRetryPerAttempt(events: seq<Event>)
    requires IsRun(START, events)
    ensures After(START, events).retries <= After(START, events).firstTries
  {
    RetriesBoundedAlways(START, events);
  }

  // ----- what each event does to the timers, the pending draft and the flag

  /** The event delivers the answer of a save of the draft that is pending. */
  predicate Answers(s: State, e: Event, ok: bool, isRetry: bool)
    requires Enabled(s, e)
  {
    && e.Deliver? && s.answers[e.k].request.op.Save? && s.answers[e.k].ok == ok
    && s.answers[e.k].request.op.isRetry == isRetry
    && s.entry.pending == Some(s.answers[e.k].request.op.draft)
  }

  predicate GivesUp(e: Event)
  {
    e.Submitted? || e.DiscardDraft?
  }

  /**
   * The debounce timer is armed by an edit, and ends by firing, flushing or giving up. The retry timer is armed
   * by the failure of a first attempt at the pending draft and by nothing else, and ends by firing, flushing, an
   * edit or giving up.
   */
  lemma TimersStep(s: State, e: Event)
    requires Enabled(s, e)
    ensures var flushed := e.Flush? && s.entry.pending.Some?;
      && (Next(s, e).entry.saveTimer <==>
            e.Edit? || (s.entry.saveTimer && !e.SaveTimer? && !flushed && !GivesUp(e)))
      && (Next(s, e).entry.retryTimer <==>
            || Answers(s, e, false, false)
            || (s.entry.retryTimer && !e.RetryTimer? && !e.Edit? && !flushed && !GivesUp(e)))
  {
  }

  /**
   * The flag is set by the failure of a retry of the pending draft and by nothing else, and cleared by the
   * success of a save of the pending draft or by giving up.
   */
  lemma DirtyStep(s: State, e: Event)
    requires Enabled(s, e)
    ensures Next(s, e).entry.dirty <==>
      || Answers(s, e, false, true)
      || (s.entry.dirty && !Answers(s, e, true, false) && !Answers(s, e, true, true) && !GivesUp(e))
  {
  }

  /** A pending draft is replaced by an edit, and gone once a save of it succeeded or it was given up. */
  lemma PendingStep(s: State, e: Event)
    requires Enabled(s, e)
    ensures Next(s, e).entry.pending ==
      if e.Edit? then Some(Draft(s.edits, e.body))
      else if GivesUp(e) || Answers(s, e, true, false) || Answers(s, e, true, true) then None
      else s.entry.pending
  {
  }

  /** The client has heard that an attempt of this kind at d failed. */
  ghost predicate HeardFailing(s: State, d: Draft, isRetry: bool, i: int)
  {
    0 <= i < |s.heard| && !s.heard[i].ok && s.heard[i].request.op == Save(d, isRetry)
  }

  ghost predicate FailedFirst(s: State, d: Draft)
  {
    exists i :: HeardFailing(s, d, false, i)
  }

  ghost predicate FailedTwice(s: State, d: Draft)
  {
    exists i, j :: i < j && HeardFailing(s, d, false, i) && HeardFailing(s, d, true, j)
  }

  /** A retry, armed, queued or answered, follows the failure of a first attempt; the flag follows both failures. */
  ghost predicate RetriesFollow(s: State)
  {
    && (s.entry.retryTimer && s.entry.pending.Some? ==> FailedFirst(s, s.entry.pending.value))
    && (forall r :: r in s.queue && r.op.Save? && r.op.isRetry ==> FailedFirst(s, r.op.draft))
    && (forall a :: a in s.answers && a.request.op.Save? && a.request.op.isRetry ==> FailedFirst(s, a.request.op.draft))
    && (s.entry.dirty ==> exists d :: FailedTwice(s, d))
  }

  lemma FailuresStay(s: State, e: Event, d: Draft)
    requires Enabled(s, e)
    ensures FailedFirst(s, d) ==> FailedFirst(Next(s, e), d)
    ensures FailedTwice(s, d) ==> FailedTwice(Next(s, e), d)
    ensures s.heard <= Next(s, e).heard
  {
    var t := Next(s, e);
    assert forall i :: 0 <= i < |s.heard| ==> t.heard[i] == s.heard[i];
    if i :| HeardFailing(s, d, false, i) {
      assert HeardFailing(t, d, false, i);
    }
    if i, j :| i < j && HeardFailing(s, d, false, i) && HeardFailing(s, d, true, j) {
      assert HeardFailing(t, d, false, i) && HeardFailing(t, d, true, j);
    }
  }

  lemma FailureHeard(s: State, k: nat)
    requires RetriesFollow(s) && k < |s.answers| && !s.answers[k].ok && s.answers[k].request.op.Save?
    ensures var d := s.answers[k].request.op.draft;
      if s.answers[k].request.op.isRetry then FailedTwice(Next(s, Deliver(k)), d)
      else FailedFirst(Next(s, Deliver(k)), d)
  {
    var t, d := Next(s, Deliver(k)), s.answers[k].request.op.draft;
    assert HeardFailing(t, d, s.answers[k].request.op.isRetry, |s.heard|);
    if s.answers[k].request.op.isRetry {
      assert s.answers[k] in s.answers;
      var i :| HeardFailing(s, d, false, i);
      assert HeardFailing(t, d, false, i);
    }
  }

  lemma RetriesFollowNext(s: State, e: Event)
    requires RetriesFollow(s) && Enabled(s, e)
    ensures RetriesFollow(Next(s, e))
  {
    hide FailedFirst, FailedTwice;
    forall d
      ensures FailedFirst(s, d) ==> FailedFirst(Next(s, e), d)
      ensures FailedTwice(s, d) ==> FailedTwice(Next(s, e), d)
    {
      FailuresStay(s, e, d);
    }
    if e.Deliver? && !s.answers[e.k].ok && s.answers[e.k].request.op.Save? {
      FailureHeard(s, e.k);
    }
    if e.Handle? {
      assert s.queue[e.k] in s.queue;
    }
  }

  lemma {:induction false} RetriesFollowAlways(s: State, events: seq<Event>)
    requires RetriesFollow(s) && IsRun(s, events)
    ensures RetriesFollow(After(s, events))
    decreases |events|
  {
    hide RetriesFollow;
    if events != [] {
      RetriesFollowNext(s, events[0]);
      RetriesFollowAlways(Next(s, events[0]), events[1..]);
    }
  }

  /**
   * Over every run: an armed retry of a pending draft means the client heard a first attempt at that draft fail,
   * and the flag means it heard a first attempt at some draft fail and later a retry of the same draft.
   */
  lemma WarningMeansTwoFailures(events: seq<Event>)
    requires IsRun(START, events)
    ensures var s := After(START, events);
      && (s.entry.retryTimer && s.entry.pending.Some? ==> FailedFirst(s, s.entry.pending.value))
      && (s.entry.dirty ==> exists d :: FailedTwice(s, d))
  {
    RetriesFollowAlways(START, events);
  }

  /** One failure arms the retry and shows no warning; the retry, sent when the timer fires, shows it if it fails. */
  lemma FirstFailureOnlyArms(s: State, e: Event)
    requires Enabled(s, e)
    ensures Answers(s, e, false, false) ==>
      Next(s, e).entry == s.entry.(retryTimer := true) && Enabled(Next(s, e), RetryTimer)
    ensures Answers(s, e, false, true) ==> Next(s, e).entry == s.entry.(dirty := true)
    ensures e.RetryTimer? && s.entry.pending.Some? ==>
      Next(s, e).queue == s.queue + [Request(s.issued, Save(s.entry.pending.value, true))]
    ensures (e.SaveTimer? || e.Flush?) && s.entry.pending.Some? ==>
      Next(s, e).queue == s.queue + [Request(s.issued, Save(s.entry.pending.value, false))]
  {
  }
}
