/** The keyboard dispatcher: stacks of chord handlers, two-key sequences, and a pending prefix with a timer. */
module Keyboard {
  import opened Sequences

  /** One registration; the number stands for the identity of the entry and of its handler. */
  datatype Handler = Handler(number: nat, enabled: bool, allowInInput: bool)

  datatype SequenceEntry = SequenceEntry(number: nat, first: string, second: string, enabled: bool)

  /** A key press as the dispatcher reads it; `chord` is the normalized id of key and modifiers. */
  datatype KeyPress = KeyPress(chord: string, isModifier: bool, isEscape: bool, fromTextEntry: bool,
                               meta: bool, ctrl: bool, alt: bool, shift: bool)

  // ----- which handler a key press runs

  predicate Completes(s: SequenceEntry, first: string, e: KeyPress)
  {
    s.enabled && s.first == first && s.second == e.chord
  }

  predicate Eligible(h: Handler, e: KeyPress)
  {
    h.enabled && (!e.fromTextEntry || h.allowInInput || e.isEscape)
  }

  /** A plain key outside any text entry may complete a sequence. */
  predicate MayComplete(e: KeyPress)
  {
    !e.fromTextEntry && !e.meta && !e.ctrl && !e.alt
  }

  predicate MayOpen(e: KeyPress)
  {
    MayComplete(e) && !e.shift
  }

  /** The last element that satisfies a test, as an index; -1 when none does. */
  function LastIndex<T>(s: seq<T>, test: T -> bool): (i: int)
    ensures -1 <= i < |s|
    ensures i >= 0 ==> test(s[i])
    ensures forall j :: i < j < |s| ==> !test(s[j])
  {
    if s == [] then -1
    else if test(s[|s| - 1]) then |s| - 1
    else LastIndex(s[..|s| - 1], test)
  }

  function CompletesTest(first: string, e: KeyPress): SequenceEntry -> bool { s => Completes(s, first, e) }
  function EligibleTest(e: KeyPress): Handler -> bool { h => Eligible(h, e) }

  datatype Board = Board(chords: map<string, seq<Handler>>, sequences: seq<SequenceEntry>,
                         pending: Option<string>, timer: bool)
  {
    function Stack(chord: string): seq<Handler>
    {
      if chord in chords then chords[chord] else []
    }

    /** The latest enabled sequence that this press completes, if a prefix is pending. */
    function CompletedBy(e: KeyPress): Option<nat>
    {
      if pending.None? || !MayComplete(e) then None else
        var i := LastIndex(sequences, CompletesTest(pending.value, e));
        if i < 0 then None else Some(sequences[i].number)
    }

    /** The latest-registered eligible handler of the pressed chord. */
    function ChordHandler(e: KeyPress): Option<nat>
    {
      var i := LastIndex(Stack(e.chord), EligibleTest(e));
      if i < 0 then None else Some(Stack(e.chord)[i].number)
    }

    function Runs(e: KeyPress): Option<nat>
    {
      if e.isModifier then None
      else if CompletedBy(e).Some? then CompletedBy(e)
      else ChordHandler(e)
    }

    predicate Opens(e: KeyPress)
    {
      MayOpen(e) && exists i :: 0 <= i < |sequences| && sequences[i].enabled && sequences[i].first == e.chord
    }

    /** The dispatcher's state after a key press. */
    function Pressed(e: KeyPress): Board
    {
      if e.isModifier then this
      else if Runs(e).None? && Opens(e) then this.(pending := Some(e.chord), timer := true)
      else if pending.None? then this
      else this.(pending := None, timer := false)
    }

    function TimedOut(): Board
    {
      this.(pending := None, timer := false)
    }

    function Registered(chord: string, h: Handler): Board
    {
      this.(chords := chords[chord := Stack(chord) + [h]])
    }

    function Unregistered(chord: string, h: Handler): Board
    {
      var rest := Without(Stack(chord), h);
      this.(chords := if rest == [] then chords - {chord} else chords[chord := rest])
    }
  }

  /** The list without the first occurrence of x. */
  function Without<T(==)>(s: seq<T>, x: T): seq<T>
  {
    if s == [] then [] else if s[0] == x then s[1..] else [s[0]] + Without(s[1..], x)
  }

  function IndexOf<T(==)>(s: seq<T>, x: T): (i: int)
    ensures -1 <= i < |s| && (i >= 0 ==> s[i] == x)
  {
    if s == [] then -1 else if s[0] == x then 0 else
      var i := IndexOf(s[1..], x);
      if i < 0 then -1 else i + 1
  }

  lemma {:induction false} WithoutByIndex<T>(s: seq<T>, x: T)
    ensures Without(s, x) == if IndexOf(s, x) < 0 then s else s[..IndexOf(s, x)] + s[IndexOf(s, x) + 1..]
  {
    if s != [] && s[0] != x {
      WithoutByIndex(s[1..], x);
      var i := IndexOf(s[1..], x);
      assert s == [s[0]] + s[1..];
      if i >= 0 {
        assert s[..i + 1] == [s[0]] + s[1..][..i] && s[i + 2..] == s[1..][i + 1..];
      }
    }
  }

  // ----- the dispatcher

  class Dispatcher {
    var chords: map<string, seq<Handler>>
    var sequences: seq<SequenceEntry>
    var pendingFirst: Option<string>
    var pendingTimer: bool

    function Value(): Board
      reads this
    {
      Board(chords, sequences, pendingFirst, pendingTimer)
    }

    constructor ()
      ensures Value() == Board(map[], [], None, false)
    {
      chords, sequences, pendingFirst, pendingTimer := map[], [], None, false;
    }

    method Register(id: string, entry: Handler)
      modifies this`chords
      ensures Value() == old(Value()).Registered(id, entry)
    {
      var stack := if id in chords then chords[id] else [];
      stack := stack + [entry];
      chords := chords[id := stack];
    }

    method Unregister(id: string, entry: Handler)
      modifies this`chords
      ensures Value() == old(Value()).Unregistered(id, entry)
    {
      if id !in chords {
        assert Without([], entry) == [];
        assert chords - {id} == chords;
        return;
      }
      var current := chords[id];
      WithoutByIndex(current, entry);
      var idx := IndexOf(current, entry);
      if idx != -1 {
        current := current[..idx] + current[idx + 1..];
      }
      if |current| == 0 {
        chords := chords - {id};
      } else {
        chords := chords[id := current];
      }
    }

    method RegisterSequence(entry: SequenceEntry)
      modifies this`sequences
      ensures Value() == old(Value()).(sequences := old(sequences) + [entry])
    {
      sequences := sequences + [entry];
    }

    method UnregisterSequence(entry: SequenceEntry)
      modifies this`sequences
      ensures Value() == old(Value()).(sequences := Without(old(sequences), entry))
    {
      WithoutByIndex(sequences, entry);
      var idx := IndexOf(sequences, entry);
      if idx != -1 {
        sequences := sequences[..idx] + sequences[idx + 1..];
      }
    }

    method ClearPending()
      modifies this`pendingFirst, this`pendingTimer
      ensures Value() == old(Value()).TimedOut()
    {
      pendingFirst := None;
      if pendingTimer {
        pendingTimer := false;
      }
    }

    /** The latest enabled sequence that completes this prefix. */
    method LastEnabled(first: string, e: KeyPress) returns (i: int)
      ensures i == LastIndex(sequences, CompletesTest(first, e))
    {
      i := |sequences| - 1;
      while i >= 0 && !Completes(sequences[i], first, e)
        invariant -1 <= i < |sequences|
        invariant LastIndex(sequences, CompletesTest(first, e))
               == LastIndex(sequences[..i + 1], CompletesTest(first, e))
      {
        assert sequences[..i + 1][..i] == sequences[..i];
        i := i - 1;
      }
    }

    /** The latest-registered eligible handler of the pressed chord. */
    method DispatchChord(e: KeyPress) returns (ran: Option<nat>)
      ensures ran == Value().ChordHandler(e)
    {
      if e.chord !in chords {
        return None;
      }
      var stack := chords[e.chord];
      var i := |stack| - 1;
      while i >= 0
        invariant -1 <= i < |stack|
        invariant LastIndex(stack, EligibleTest(e)) == LastIndex(stack[..i + 1], EligibleTest(e))
      {
        assert stack[..i + 1][..i] == stack[..i];
        var entry := stack[i];
        if entry.enabled && !(e.fromTextEntry && !entry.allowInInput && !e.isEscape) {
          return Some(entry.number);
        }
        i := i - 1;
      }
      return None;
    }

    /** At most one handler runs; it is named by the result. */
    method OnKeyDown(e: KeyPress) returns (ran: Option<nat>)
      modifies this`pendingFirst, this`pendingTimer
      ensures old(pendingTimer) == old(pendingFirst).Some? ==> Value() == old(Value()).Pressed(e)
      ensures ran == old(Value()).Runs(e)
    {
      hide LastIndex, Eligible, Completes;
      if e.isModifier {
        return None;
      }
      if pendingFirst.Some? {
        var first := pendingFirst.value;
        if !e.fromTextEntry && !e.meta && !e.ctrl && !e.alt {
          var m := LastEnabled(first, e);
          if m >= 0 {
            ClearPending();
            return Some(sequences[m].number);
          }
        }
        ClearPending();
      }
      ran := DispatchChord(e);
      if ran.Some? {
        return;
      }
      if e.fromTextEntry || e.meta || e.ctrl || e.alt || e.shift {
        return;
      }
      if exists i :: 0 <= i < |sequences| && sequences[i].enabled && sequences[i].first == e.chord {
        pendingFirst := Some(e.chord);
        pendingTimer := true;
      }
    }
  }

  // ----- every run

  datatype Event =
    | Register(chord: string, enabled: bool, allowInInput: bool)
    | Unregister(k: nat)                 // the k-th chord registration is undone
    | RegisterSequence(first: string, second: string, enabled: bool)
    | UnregisterSequence(k: nat)
    | KeyDown(e: KeyPress)
    | Timeout

  /** The board with the history of registrations, in order, and the numbers of the ones undone. */
  datatype State = State(board: Board, log: seq<(string, Handler)>, seqLog: seq<SequenceEntry>, gone: set<nat>,
                         seqGone: set<nat>)

  const START := State(Board(map[], [], None, false), [], [], {}, {})

  predicate Enabled(s: State, ev: Event)
  {
    match ev
    case Unregister(k) => k < |s.log|
    case UnregisterSequence(k) => k < |s.seqLog|
    case Timeout => s.board.timer
    case _ => true
  }

  function Next(s: State, ev: Event): State
    requires Enabled(s, ev)
  {
    match ev
    case Register(chord, enabled, allow) =>
      var h := Handler(|s.log|, enabled, allow);
      s.(board := s.board.Registered(chord, h), log := s.log + [(chord, h)])
    case Unregister(k) =>
      s.(board := s.board.Unregistered(s.log[k].0, s.log[k].1), gone := s.gone + {k})
    case RegisterSequence(first, second, enabled) =>
      var q := SequenceEntry(|s.seqLog|, first, second, enabled);
      s.(board := s.board.(sequences := s.board.sequences + [q]), seqLog := s.seqLog + [q])
    case UnregisterSequence(k) =>
      s.(board := s.board.(sequences := Without(s.board.sequences, s.seqLog[k])), seqGone := s.seqGone + {k})
    case KeyDown(e) => s.(board := s.board.Pressed(e))
    case Timeout => s.(board := s.board.TimedOut())
  }

  predicate IsRun(s: State, events: seq<Event>)
    decreases |events|
  {
    events == [] || (Enabled(s, events[0]) && IsRun(Next(s, events[0]), events[1..]))
  }

  function After(s: State, events: seq<Event>): State
    requires IsRun(s, events)
    decreases |events|
  {
    if events == [] then s else After(Next(s, events[0]), events[1..])
  }

  /** The registrations of a chord not undone yet, in the order they were made. */
  function Live(log: seq<(string, Handler)>, gone: set<nat>, chord: string): seq<Handler>
  {
    if log == [] then [] else
      Live(log[..|log| - 1], gone, chord) + LiveEntry(log[|log| - 1], gone, chord)
  }

  function LiveEntry(entry: (string, Handler), gone: set<nat>, chord: string): seq<Handler>
  {
    if entry.0 == chord && entry.1.number !in gone then [entry.1] else []
  }

  function LiveSequences(log: seq<SequenceEntry>, gone: set<nat>): seq<SequenceEntry>
  {
    if log == [] then [] else
      var n := |log| - 1;
      LiveSequences(log[..n], gone) + if log[n].number !in gone then [log[n]] else []
  }

  predicate NumberedLog(log: seq<(string, Handler)>)
  {
    forall i :: 0 <= i < |log| ==> log[i].1.number == i
  }

  predicate NumberedSequences(log: seq<SequenceEntry>)
  {
    forall i :: 0 <= i < |log| ==> log[i].number == i
  }

  ghost predicate Orderly(s: State)
  {
    && NumberedLog(s.log) && NumberedSequences(s.seqLog)
    && (forall k :: k in s.gone ==> k < |s.log|) && (forall k :: k in s.seqGone ==> k < |s.seqLog|)
    && (s.board.timer <==> s.board.pending.Some?)
    && (forall chord :: s.board.Stack(chord) == Live(s.log, s.gone, chord))
    && s.board.sequences == LiveSequences(s.seqLog, s.seqGone)
  }

  lemma WithoutCons<T>(head: T, rest: seq<T>, x: T)
    ensures Without([head] + rest, x) == if head == x then rest else [head] + Without(rest, x)
  {
    assert ([head] + rest)[1..] == rest;
  }

  lemma {:induction false} WithoutAppend<T>(a: seq<T>, b: seq<T>, x: T)
    ensures Without(a + b, x) == if x in a then Without(a, x) + b else a + Without(b, x)
  {
    hide Without;
    if a == [] {
      assert a + b == b && a + Without(b, x) == Without(b, x);
    } else {
      var head, rest := a[0], a[1..];
      assert a == [head] + rest;
      AppendAssociative([head], rest, b);
      WithoutCons(head, rest, x);
      WithoutCons(head, rest + b, x);
      if head != x {
        WithoutAppend(rest, b, x);
        AppendAssociative([head], Without(rest, x), b);
        AppendAssociative([head], rest, Without(b, x));
      }
    }
  }

  lemma {:induction false} LiveMembers(log: seq<(string, Handler)>, gone: set<nat>, chord: string, h: Handler)
    requires NumberedLog(log) && h in Live(log, gone, chord)
    ensures h.number < |log| && log[h.number] == (chord, h) && h.number !in gone
  {
    var n := |log| - 1;
    if h in Live(log[..n], gone, chord) {
      LiveMembers(log[..n], gone, chord, h);
    }
  }

  lemma LiveStep(log: seq<(string, Handler)>, gone: set<nat>, chord: string)
    requires log != []
    ensures var n := |log| - 1; Live(log, gone, chord) == Live(log[..n], gone, chord) + LiveEntry(log[n], gone, chord)
  {
  }

  /** Undoing one registration takes out that entry and leaves the others in their order. */
  lemma {:induction false} LiveLosesOne(log: seq<(string, Handler)>, gone: set<nat>, chord: string, k: nat)
    requires NumberedLog(log) && k < |log|
    ensures Live(log, gone + {k}, chord)
         == if log[k].0 == chord then Without(Live(log, gone, chord), log[k].1) else Live(log, gone, chord)
  {
    hide Without, Live;
    var n := |log| - 1;
    var h := log[k].1;
    LiveStep(log, gone, chord);
    LiveStep(log, gone + {k}, chord);
    var before, last := Live(log[..n], gone, chord), LiveEntry(log[n], gone, chord);
    if log[k].0 == chord {
      WithoutAppend(before, last, h);
      WithoutOne(log[n].1, h);
    }
    if h in before {
      LiveMembers(log[..n], gone, chord, h);
    }
    if k < n {
      LiveLosesOne(log[..n], gone, chord, k);
      WithoutAbsent(before, h);
    } else {
      LiveIgnores(log[..n], gone, chord, k);
    }
  }

  lemma WithoutOne<T>(y: T, x: T)
    ensures Without([], x) == []
    ensures Without([y], x) == if y == x then [] else [y]
  {
  }

  lemma {:induction false} WithoutAbsent<T>(s: seq<T>, x: T)
    ensures x !in s ==> Without(s, x) == s
  {
    if s != [] {
      WithoutAbsent(s[1..], x);
      assert s == [s[0]] + s[1..];
    }
  }

  lemma {:induction false} LiveIgnores(log: seq<(string, Handler)>, gone: set<nat>, chord: string, k: nat)
    requires NumberedLog(log) && k >= |log|
    ensures Live(log, gone + {k}, chord) == Live(log, gone, chord)
  {
    if log != [] {
      LiveIgnores(log[..|log| - 1], gone, chord, k);
    }
  }

  lemma {:induction false} LiveSequenceMembers(log: seq<SequenceEntry>, gone: set<nat>, q: SequenceEntry)
    requires NumberedSequences(log) && q in LiveSequences(log, gone)
    ensures q.number < |log| && log[q.number] == q && q.number !in gone
  {
    var n := |log| - 1;
    if q in LiveSequences(log[..n], gone) {
      LiveSequenceMembers(log[..n], gone, q);
    }
  }

  lemma {:induction false} LiveSequencesIgnore(log: seq<SequenceEntry>, gone: set<nat>, k: nat)
    requires NumberedSequences(log) && k >= |log|
    ensures LiveSequences(log, gone + {k}) == LiveSequences(log, gone)
  {
    if log != [] {
      LiveSequencesIgnore(log[..|log| - 1], gone, k);
    }
  }

  lemma LiveSequencesStep(log: seq<SequenceEntry>, gone: set<nat>)
    requires log != []
    ensures var n := |log| - 1;
      LiveSequences(log, gone) == LiveSequences(log[..n], gone) + if log[n].number !in gone then [log[n]] else []
  {
  }

  lemma {:induction false} LiveSequencesLoseOne(log: seq<SequenceEntry>, gone: set<nat>, k: nat)
    requires NumberedSequences(log) && k < |log|
    ensures LiveSequences(log, gone + {k}) == Without(LiveSequences(log, gone), log[k])
  {
    hide Without, LiveSequences;
    var n := |log| - 1;
    var q := log[k];
    var before, last := LiveSequences(log[..n], gone), if log[n].number !in gone then [log[n]] else [];
    LiveSequencesStep(log, gone);
    LiveSequencesStep(log, gone + {k});
    WithoutAppend(before, last, q);
    WithoutOne(log[n], q);
    if q in before {
      LiveSequenceMembers(log[..n], gone, q);
    }
    if k < n {
      LiveSequencesLoseOne(log[..n], gone, k);
      WithoutAbsent(before, q);
    } else {
      LiveSequencesIgnore(log[..n], gone, k);
    }
  }

  lemma RegisterKeepsOrder(s: State, chord: string, h: Handler, c: string)
    requires Orderly(s) && h.number == |s.log|
    ensures s.board.Registered(chord, h).Stack(c) == Live(s.log + [(chord, h)], s.gone, c)
  {
    var log := s.log + [(chord, h)];
    assert log[..|s.log|] == s.log && log[|log| - 1] == (chord, h);
    assert s.board.Stack(c) == Live(s.log, s.gone, c);
    assert Live(log, s.gone, c) == Live(s.log, s.gone, c) + if chord == c then [h] else [];
  }

  lemma UnregisterKeepsOrder(s: State, k: nat, c: string)
    requires Orderly(s) && k < |s.log|
    ensures s.board.Unregistered(s.log[k].0, s.log[k].1).Stack(c) == Live(s.log, s.gone + {k}, c)
  {
    hide Without, Live;
    LiveLosesOne(s.log, s.gone, c, k);
    assert s.board.Stack(c) == Live(s.log, s.gone, c);
  }

  lemma OrderlyRegister(s: State, chord: string, enabled: bool, allow: bool)
    requires Orderly(s)
    ensures Orderly(Next(s, Register(chord, enabled, allow)))
  {
    hide Live, LiveSequences;
    var h := Handler(|s.log|, enabled, allow);
    var t := Next(s, Register(chord, enabled, allow));
    forall c
      ensures t.board.Stack(c) == Live(t.log, t.gone, c)
    {
      RegisterKeepsOrder(s, chord, h, c);
    }
  }

  lemma OrderlyUnregister(s: State, k: nat)
    requires Orderly(s) && k < |s.log|
    ensures Orderly(Next(s, Unregister(k)))
  {
    hide Live, LiveSequences, Without;
    var t := Next(s, Unregister(k));
    forall c
      ensures t.board.Stack(c) == Live(t.log, t.gone, c)
    {
      UnregisterKeepsOrder(s, k, c);
    }
  }

  lemma OrderlyRegisterSequence(s: State, first: string, second: string, enabled: bool)
    requires Orderly(s)
    ensures Orderly(Next(s, RegisterSequence(first, second, enabled)))
  {
    hide Live;
    var t := Next(s, RegisterSequence(first, second, enabled));
    assert t.seqLog[..|s.seqLog|] == s.seqLog;
    assert forall c :: t.board.Stack(c) == s.board.Stack(c);
  }

  lemma OrderlyUnregisterSequence(s: State, k: nat)
    requires Orderly(s) && k < |s.seqLog|
    ensures Orderly(Next(s, UnregisterSequence(k)))
  {
    hide Live, LiveSequences, Without;
    LiveSequencesLoseOne(s.seqLog, s.seqGone, k);
    var t := Next(s, UnregisterSequence(k));
    assert forall c :: t.board.Stack(c) == s.board.Stack(c);
  }

  lemma OrderlyKeyDown(s: State, e: KeyPress)
    requires Orderly(s)
    ensures Orderly(Next(s, KeyDown(e)))
  {
    hide Live, LiveSequences, Board.Runs, Board.Opens;
    var t := Next(s, KeyDown(e));
    assert t.board.chords == s.board.chords && t.board.sequences == s.board.sequences;
    assert forall c :: t.board.Stack(c) == s.board.Stack(c);
  }

  lemma OrderlyTimeout(s: State)
    requires Orderly(s) && s.board.timer
    ensures Orderly(Next(s, Timeout))
  {
    hide Live, LiveSequences;
    var t := Next(s, Timeout);
    assert forall c :: t.board.Stack(c) == s.board.Stack(c);
  }

  lemma {:induction false} OrderlyAlways(s: State, events: seq<Event>)
    requires Orderly(s) && IsRun(s, events)
    ensures Orderly(After(s, events))
    decreases |events|
  {
    hide Orderly, Next;
    if events != [] {
      match events[0] {
        case Register(chord, enabled, allow) => OrderlyRegister(s, chord, enabled, allow);
        case Unregister(k) => OrderlyUnregister(s, k);
        case RegisterSequence(first, second, enabled) => OrderlyRegisterSequence(s, first, second, enabled);
        case UnregisterSequence(k) => OrderlyUnregisterSequence(s, k);
        case KeyDown(e) => OrderlyKeyDown(s, e);
        case Timeout => OrderlyTimeout(s);
      }
      OrderlyAlways(Next(s, events[0]), events[1..]);
    }
  }

  /**
   * Over every run, a timer is armed exactly when a prefix is pending, and whatever the order of
   * unregistering, the live entries stand in the order they were registered.
   */
  lemma RunsStayOrderly(events: seq<Event>, chord: string)
    requires IsRun(START, events)
    ensures var s := After(START, events);
      && (s.board.timer <==> s.board.pending.Some?)
      && s.board.Stack(chord) == Live(s.log, s.gone, chord)
      && s.board.sequences == LiveSequences(s.seqLog, s.seqGone)
  {
    OrderlyAlways(START, events);
  }

  predicate LiveCompletes(s: State, j: nat, first: string, e: KeyPress)
  {
    j < |s.seqLog| && j !in s.seqGone && Completes(s.seqLog[j], first, e)
  }

  predicate LiveEligible(s: State, j: nat, e: KeyPress)
  {
    j < |s.log| && j !in s.gone && s.log[j].0 == e.chord && Eligible(s.log[j].1, e)
  }

  ghost predicate Latest(n: Option<nat>, test: nat -> bool)
  {
    match n
    case Some(j) => test(j) && forall i: nat :: i > j ==> !test(i)
    case None => forall i: nat :: !test(i)
  }

  /**
   * In every reachable state: while a prefix is pending and the key may complete it, the sequence found is
   * the latest registered one, among those not undone, that is enabled and completes the prefix.
   */
  lemma LatestLiveSequenceFound(events: seq<Event>, e: KeyPress)
    requires IsRun(START, events)
    ensures var s := After(START, events);
      if s.board.pending.Some? && MayComplete(e)
      then Latest(s.board.CompletedBy(e), (j: nat) => LiveCompletes(s, j, s.board.pending.value, e))
      else s.board.CompletedBy(e) == None
  {
    OrderlyAlways(START, events);
    OrderlyFindsSequence(After(START, events), e);
  }

  lemma OrderlyFindsSequence(s: State, e: KeyPress)
    requires Orderly(s)
    ensures
      if s.board.pending.Some? && MayComplete(e)
      then Latest(s.board.CompletedBy(e), (j: nat) => LiveCompletes(s, j, s.board.pending.value, e))
      else s.board.CompletedBy(e) == None
  {
    hide LiveSequences, Live, Completes, LastIndex, MayComplete;
    if s.board.pending.Some? && MayComplete(e) {
      var first, live := s.board.pending.value, s.board.sequences;
      var i := LastIndex(live, CompletesTest(first, e));
      if i >= 0 {
        LiveSequenceMembers(s.seqLog, s.seqGone, live[i]);
      }
      forall j: nat | (i < 0 || j > live[i].number) && LiveCompletes(s, j, first, e)
        ensures false
      {
        LaterSequence(s.seqLog, s.seqGone, i, j);
      }
    }
  }

  /** In every reachable state: the chord handler found is the latest registered live one that is eligible. */
  lemma LatestLiveHandlerFound(events: seq<Event>, e: KeyPress)
    requires IsRun(START, events)
    ensures var s := After(START, events); Latest(s.board.ChordHandler(e), (j: nat) => LiveEligible(s, j, e))
  {
    OrderlyAlways(START, events);
    OrderlyFindsHandler(After(START, events), e);
  }

  lemma OrderlyFindsHandler(s: State, e: KeyPress)
    requires Orderly(s)
    ensures Latest(s.board.ChordHandler(e), (j: nat) => LiveEligible(s, j, e))
  {
    hide Live, LiveSequences, Eligible, LastIndex;
    var stack := s.board.Stack(e.chord);
    var i := LastIndex(stack, EligibleTest(e));
    if i >= 0 {
      LiveMembers(s.log, s.gone, e.chord, stack[i]);
    }
    forall j: nat | (i < 0 || j > stack[i].number) && LiveEligible(s, j, e)
      ensures false
    {
      LaterInStack(s.log, s.gone, e.chord, i, j);
    }
  }

  /** A live registration made after the one at place i of the stack sits above it; with i < 0, any live one. */
  lemma {:induction false} LaterInStack(log: seq<(string, Handler)>, gone: set<nat>, chord: string, i: int, j: nat)
    requires NumberedLog(log) && -1 <= i < |Live(log, gone, chord)| && j < |log|
    requires i >= 0 ==> Live(log, gone, chord)[i].number < j
    requires j !in gone && log[j].0 == chord
    ensures exists m :: i < m < |Live(log, gone, chord)| && Live(log, gone, chord)[m] == log[j].1
  {
    var n := |log| - 1;
    var before := Live(log[..n], gone, chord);
    var whole := Live(log, gone, chord);
    if j == n {
      assert i != |before|;
      assert whole[|before|] == log[j].1;
    } else {
      var last := LiveEntry(log[n], gone, chord);
      assert whole == before + last && (last != [] ==> last[0].number == n);
      assert i < |before|;
      LaterInStack(log[..n], gone, chord, i, j);
      var m :| i < m < |before| && before[m] == log[j].1;
      assert whole[m] == log[j].1;
    }
  }

  lemma {:induction false} LaterSequence(log: seq<SequenceEntry>, gone: set<nat>, i: int, j: nat)
    requires NumberedSequences(log) && -1 <= i < |LiveSequences(log, gone)| && j < |log|
    requires i >= 0 ==> LiveSequences(log, gone)[i].number < j
    requires j !in gone
    ensures exists m :: i < m < |LiveSequences(log, gone)| && LiveSequences(log, gone)[m] == log[j]
  {
    var n := |log| - 1;
    var before := LiveSequences(log[..n], gone);
    var whole := LiveSequences(log, gone);
    if j == n {
      assert i != |before|;
      assert whole[|before|] == log[j];
    } else {
      var last := if log[n].number !in gone then [log[n]] else [];
      assert whole == before + last && (last != [] ==> last[0].number == n);
      assert i < |before|;
      LaterSequence(log[..n], gone, i, j);
      var m :| i < m < |before| && before[m] == log[j];
      assert whole[m] == log[j];
    }
  }

  // ----- what a key press does in every reachable state

  /** The j-th sequence is live, enabled and completed by this plain key, and its first key is the pending prefix. */
  predicate SequenceDue(s: State, e: KeyPress, j: nat)
  {
    && !e.fromTextEntry && !e.meta && !e.ctrl && !e.alt
    && j < |s.seqLog| && j !in s.seqGone && s.seqLog[j].enabled
    && s.board.pending == Some(s.seqLog[j].first) && s.seqLog[j].second == e.chord
  }

  /** The j-th registration is live, enabled, for this chord, and open to where the key was typed. */
  predicate HandlerDue(s: State, e: KeyPress, j: nat)
  {
    && j < |s.log| && j !in s.gone && s.log[j].0 == e.chord && s.log[j].1.enabled
    && (e.fromTextEntry ==> s.log[j].1.allowInInput || e.isEscape)
  }

  /** The j-th sequence is live and enabled, and this plain, unshifted key is its first. */
  predicate PrefixDue(s: State, e: KeyPress, j: nat)
  {
    && !e.fromTextEntry && !e.meta && !e.ctrl && !e.alt && !e.shift
    && j < |s.seqLog| && j !in s.seqGone && s.seqLog[j].enabled && s.seqLog[j].first == e.chord
  }

  /**
   * In every reachable state a key press runs the latest sequence due, if there is one; else the latest handler
   * due, if there is one; else nothing. A bare modifier runs nothing.
   */
  lemma KeyDownRuns(events: seq<Event>, e: KeyPress)
    requires IsRun(START, events)
    ensures var s := After(START, events);
      if e.isModifier then s.board.Runs(e) == None
      else if exists j: nat :: SequenceDue(s, e, j) then
        s.board.Runs(e).Some? && Latest(s.board.Runs(e), (j: nat) => SequenceDue(s, e, j))
      else Latest(s.board.Runs(e), (j: nat) => HandlerDue(s, e, j))
  {
    OrderlyAlways(START, events);
    RunsDue(After(START, events), e);
  }

  lemma RunsDue(s: State, e: KeyPress)
    requires Orderly(s)
    ensures
      if e.isModifier then s.board.Runs(e) == None
      else if exists j: nat :: SequenceDue(s, e, j) then
        s.board.Runs(e).Some? && Latest(s.board.Runs(e), (j: nat) => SequenceDue(s, e, j))
      else Latest(s.board.Runs(e), (j: nat) => HandlerDue(s, e, j))
  {
    hide Orderly, Board.CompletedBy, Board.ChordHandler, SequenceDue, HandlerDue;
    SequenceFoundIsDue(s, e);
    HandlerFoundIsDue(s, e);
    var due := (j: nat) => SequenceDue(s, e, j);
    if j: nat :| SequenceDue(s, e, j) {
      assert due(j);
    } else {
      assert forall j: nat :: !due(j);
    }
  }

  /** The same test in other words is met latest at the same place. */
  lemma SameLatest(n: Option<nat>, p: nat -> bool, q: nat -> bool)
    requires Latest(n, p) && forall j: nat :: p(j) <==> q(j)
    ensures Latest(n, q)
  {
  }

  lemma SequenceFoundIsDue(s: State, e: KeyPress)
    requires Orderly(s)
    ensures Latest(s.board.CompletedBy(e), (j: nat) => SequenceDue(s, e, j))
  {
    OrderlyFindsSequence(s, e);
    hide Orderly, Board.CompletedBy, Latest;
    var due := (j: nat) => SequenceDue(s, e, j);
    if s.board.pending.Some? && MayComplete(e) {
      SameLatest(s.board.CompletedBy(e), (j: nat) => LiveCompletes(s, j, s.board.pending.value, e), due);
    } else {
      SameLatest(None, (j: nat) => false, due) by { NeverLatest(); }
    }
  }

  lemma NeverLatest()
    ensures Latest(None, (j: nat) => false)
  {
  }

  lemma HandlerFoundIsDue(s: State, e: KeyPress)
    requires Orderly(s)
    ensures Latest(s.board.ChordHandler(e), (j: nat) => HandlerDue(s, e, j))
  {
    OrderlyFindsHandler(s, e);
    hide Orderly, Board.ChordHandler, Latest;
    SameLatest(s.board.ChordHandler(e), (j: nat) => LiveEligible(s, j, e), (j: nat) => HandlerDue(s, e, j));
  }

  /**
   * And it leaves its own key pending, with the timer armed, exactly when it ran nothing and a sequence begins
   * with it; any other key but a bare modifier leaves nothing pending.
   */
  lemma KeyDownLeaves(events: seq<Event>, e: KeyPress)
    requires IsRun(START, events)
    ensures var s := After(START, events);
      var t := s.board.Pressed(e);
      && t.chords == s.board.chords && t.sequences == s.board.sequences
      && (t.timer <==> t.pending.Some?)
      && t.pending ==
           if e.isModifier then s.board.pending
           else if s.board.Runs(e).None? && exists j: nat :: PrefixDue(s, e, j) then Some(e.chord) else None
  {
    OrderlyAlways(START, events);
    LeavesDue(After(START, events), e);
  }

  lemma LeavesDue(s: State, e: KeyPress)
    requires Orderly(s)
    ensures var t := s.board.Pressed(e);
      && t.chords == s.board.chords && t.sequences == s.board.sequences
      && (t.timer <==> t.pending.Some?)
      && t.pending ==
           if e.isModifier then s.board.pending
           else if s.board.Runs(e).None? && exists j: nat :: PrefixDue(s, e, j) then Some(e.chord) else None
  {
    hide Board.Runs, Live, LiveSequences;
    if i :| 0 <= i < |s.board.sequences| && s.board.sequences[i].enabled && s.board.sequences[i].first == e.chord {
      LiveSequenceMembers(s.seqLog, s.seqGone, s.board.sequences[i]);
      assert MayOpen(e) ==> PrefixDue(s, e, s.board.sequences[i].number);
    }
    if j: nat :| PrefixDue(s, e, j) {
      LaterSequence(s.seqLog, s.seqGone, -1, j);
    }
  }

  // ----- what a pending prefix means

  lemma {:induction false} LastEvent(s: State, events: seq<Event>)
    requires IsRun(s, events) && events != []
    ensures var n := |events| - 1;
      && IsRun(s, events[..n]) && Enabled(After(s, events[..n]), events[n])
      && After(s, events) == Next(After(s, events[..n]), events[n])
    decreases |events|
  {
    hide Enabled, Next;
    var n := |events| - 1;
    if n > 0 {
      LastEvent(Next(s, events[0]), events[1..]);
      assert events[1..][..n - 1] == events[..n][1..];
    }
  }

  /** This key press, in this state, ran nothing and is the first key of a live sequence. */
  ghost predicate OpensPrefix(s: State, ev: Event)
  {
    ev.KeyDown? && !ev.e.isModifier && s.board.Runs(ev.e) == None && exists j: nat :: PrefixDue(s, ev.e, j)
  }

  /** Registering, undoing and bare modifiers leave a pending prefix alone. */
  predicate KeepsPrefix(ev: Event)
  {
    !ev.Timeout? && (ev.KeyDown? ==> ev.e.isModifier)
  }

  /** The k-th event opened a prefix and every later one leaves it alone. */
  ghost predicate OpenedAt(events: seq<Event>, k: nat)
  {
    && k < |events| && IsRun(START, events[..k]) && OpensPrefix(After(START, events[..k]), events[k])
    && forall i :: k < i < |events| ==> KeepsPrefix(events[i])
  }

  lemma PrefixStep(s: State, ev: Event)
    requires Orderly(s) && Enabled(s, ev)
    ensures Next(s, ev).board.pending ==
      if OpensPrefix(s, ev) then Some(ev.e.chord) else if KeepsPrefix(ev) then s.board.pending else None
  {
    if ev.KeyDown? {
      LeavesDue(s, ev.e);
    }
  }

  /**
   * Over every run: a prefix is pending exactly when some key press opened it, bare modifiers apart it was the
   * last key press, and the timer has not fired since; it is then that key.
   */
  lemma {:induction false} PrefixPendingIff(events: seq<Event>)
    requires IsRun(START, events)
    ensures var pending := After(START, events).board.pending;
      && (pending.Some? <==> exists k: nat :: OpenedAt(events, k))
      && (forall k: nat :: OpenedAt(events, k) ==> pending == Some(events[k].e.chord))
    decreases |events|
  {
    hide OpensPrefix, KeepsPrefix, Next, Enabled, After, IsRun, Orderly;
    if events == [] {
      NothingPending();
    } else {
      var n := |events| - 1;
      LastEvent(START, events);
      OrderlyAlways(START, events[..n]) by { StartsOrderly(); }
      PrefixStep(After(START, events[..n]), events[n]);
      PrefixPendingIff(events[..n]);
      KeepsOrOpens(events[n]);
      forall k: nat | k < n
        ensures OpenedAt(events, k) <==> OpenedAt(events[..n], k) && KeepsPrefix(events[n])
      {
        assert events[..n][..k] == events[..k];
        if OpenedAt(events, k) {
          assert forall i :: k < i < n ==> events[..n][i] == events[i];
        }
        if OpenedAt(events[..n], k) && KeepsPrefix(events[n]) {
          assert forall i :: k < i < n ==> KeepsPrefix(events[..n][i]);
        }
      }
      assert OpenedAt(events, n) <==> OpensPrefix(After(START, events[..n]), events[n]);
      if k: nat :| OpenedAt(events[..n], k) && KeepsPrefix(events[n]) {
        assert OpenedAt(events, k);
      }
      assert forall k: nat :: k < n ==> events[..n][k] == events[k];
    }
  }

  lemma NothingPending()
    ensures IsRun(START, []) && After(START, []) == START && START.board.pending == None
  {
  }

  lemma StartsOrderly()
    ensures Orderly(START)
  {
  }

  lemma KeepsOrOpens(ev: Event)
    ensures forall s :: KeepsPrefix(ev) ==> !OpensPrefix(s, ev)
  {
  }
}
