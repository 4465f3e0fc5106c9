/**
  The wake-up protocol between the queue's producers and `next` (crates/client/src/v1_peer.rs,
  `insert`, `expire`, `next` and `close`). `Notify` is one stored permit, a count of broadcasts, and
  the waiters registered by a first poll: a future created before a broadcast completes, a single
  notification goes to a registered waiter or, if there is none, into the permit.
*/
module WakeUp {
  import opened Base

  type Consumer = int

  /** Where one call of `next` stands; `seen` is the broadcast count when its future was created. */
  datatype Phase =
    | Idle
    | Created(seen: int)
    | Checked(seen: int)
    | Waiting
    | Woken(single: bool)

  /**
    `entries` requests are queued, of `inserted` in all; `gone` have left. `ones` and `alls` are notifications
    owed: the lock was released and the call to `notify_one` or `notify_waiters` is still to come.
  */
  datatype System = System(
    entries: nat, closed: bool, permit: bool, broadcasts: int, ones: nat, alls: nat, phases: map<Consumer, Phase>,
    inserted: nat, gone: nat)

  const START: System := System(0, false, false, 0, 0, 0, map[], 0, 0)

  datatype Event =
    | Insert
    | NotifyOne(chosen: Option<Consumer>)
    | Expire(found: bool)
    | Close
    | NotifyWaiters
    | Lapse
    | Create(consumer: Consumer)
    | Check(consumer: Consumer)
    | Poll(consumer: Consumer)
    | Resume(consumer: Consumer)
    | Cancel(consumer: Consumer)

  function PhaseOf(s: System, c: Consumer): Phase {
    if c in s.phases then s.phases[c] else Idle
  }

  function Goto(s: System, c: Consumer, phase: Phase): System {
    s.(phases := s.phases[c := phase])
  }

  /** The choice of waiter is free, but a registered waiter is never passed over for the permit. */
  predicate Chooses(s: System, chosen: Option<Consumer>) {
    if chosen.Some? then PhaseOf(s, chosen.value) == Waiting
    else forall c | c in s.phases :: s.phases[c] != Waiting
  }

  function Notified(s: System, chosen: Option<Consumer>): System {
    if chosen.Some? then Goto(s, chosen.value, Woken(true)) else s.(permit := true)
  }

  /** One step, or `None` if it cannot be taken. */
  function Apply(s: System, e: Event): Option<System> {
    match e
    case Insert =>
      if s.closed then Some(s) else Some(s.(entries := s.entries + 1, inserted := s.inserted + 1, ones := s.ones + 1))
    case NotifyOne(chosen) =>
      if s.ones == 0 || !Chooses(s, chosen) then None else Some(Notified(s.(ones := s.ones - 1), chosen))
    case Expire(found) =>
      if found && s.entries == 0 then None
      else if found then Some(s.(entries := s.entries - 1, gone := s.gone + 1, alls := s.alls + 1))
      else Some(s.(alls := s.alls + 1))
    case Close => Some(s.(closed := true, entries := 0, gone := s.gone + s.entries, alls := s.alls + 1))
    case NotifyWaiters =>
      if s.alls == 0 then None else
      Some(s.(alls := s.alls - 1, broadcasts := s.broadcasts + 1,
              phases := map c | c in s.phases :: if s.phases[c] == Waiting then Woken(false) else s.phases[c]))
    case Lapse => if s.entries == 0 then None else Some(s.(entries := s.entries - 1, gone := s.gone + 1))
    case Create(c) => if PhaseOf(s, c) != Idle then None else Some(Goto(s, c, Created(s.broadcasts)))
    case Check(c) =>
      if !PhaseOf(s, c).Created? then None
      else if s.entries > 0 then Some(Goto(s, c, Idle).(entries := s.entries - 1, gone := s.gone + 1))
      else if s.closed then Some(Goto(s, c, Idle))
      else Some(Goto(s, c, Checked(PhaseOf(s, c).seen)))
    case Poll(c) =>
      if !PhaseOf(s, c).Checked? then None
      else if s.permit then Some(Goto(s, c, Idle).(permit := false))
      else if s.broadcasts != PhaseOf(s, c).seen then Some(Goto(s, c, Idle))
      else Some(Goto(s, c, Waiting))
    case Resume(c) => if !PhaseOf(s, c).Woken? then None else Some(Goto(s, c, Idle))
    case Cancel(c) =>
      // A waiter dropped after a single notification passes it on.
      if PhaseOf(s, c) == Idle then None
      else if PhaseOf(s, c) == Woken(true) then
        Some(Goto(s, c, Idle).(ones := s.ones + 1))
      else Some(Goto(s, c, Idle))
  }

  function Execute(events: seq<Event>): Option<System>
    decreases |events|
  {
    if events == [] then Some(START) else
    var before := Execute(events[..|events| - 1]);
    if before.None? then None else Apply(before.value, events[|events| - 1])
  }

  /** The consumer sleeps although there is something for it, and nothing on its way will wake it. */
  predicate Lost(s: System, c: Consumer) {
    && PhaseOf(s, c) == Waiting
    && (s.entries > 0 || s.closed)
    && s.ones == 0
    && s.alls == 0
  }

  /** The consumer events name only these consumers. */
  predicate Names(e: Event, consumers: set<Consumer>) {
    e.Create? || e.Check? || e.Poll? || e.Resume? || e.Cancel? ==> e.consumer in consumers
  }

  predicate AllName(events: seq<Event>, consumers: set<Consumer>) {
    forall i :: 0 <= i < |events| ==> Names(events[i], consumers)
  }

  // ---------------------------------------------------------------- one consumer

  /** What keeps a single consumer from sleeping through an entry or the closing. */
  predicate Inv(s: System, c: Consumer) {
    var phase := PhaseOf(s, c);
    && s.phases.Keys <= {c}
    && (phase.Created? || phase.Checked? ==> phase.seen <= s.broadcasts)
    && (phase.Checked? && s.entries > 0 ==> s.permit || s.ones > 0 || phase.seen < s.broadcasts)
    && (phase.Checked? && s.closed ==> phase.seen < s.broadcasts || s.alls > 0)
    && (phase.Waiting? && s.entries > 0 ==> s.ones > 0)
    && (phase.Waiting? && s.closed ==> s.alls > 0)
  }

  lemma ProducerKeeps(s: System, e: Event, c: Consumer)
    requires Inv(s, c) && Apply(s, e).Some?
    requires e.Insert? || e.Expire? || e.Close? || e.Lapse?
    ensures Inv(Apply(s, e).value, c)
  {
  }

  lemma NotifyOneKeeps(s: System, e: Event, c: Consumer)
    requires Inv(s, c) && Apply(s, e).Some? && e.NotifyOne?
    ensures Inv(Apply(s, e).value, c)
  {
  }

  lemma NotifyWaitersKeeps(s: System, e: Event, c: Consumer)
    requires Inv(s, c) && Apply(s, e).Some? && e.NotifyWaiters?
    ensures Inv(Apply(s, e).value, c)
  {
  }

  lemma ConsumerKeeps(s: System, e: Event, c: Consumer)
    requires Inv(s, c) && Names(e, {c}) && Apply(s, e).Some?
    requires e.Create? || e.Check? || e.Poll? || e.Resume? || e.Cancel?
    ensures Inv(Apply(s, e).value, c)
  {
  }

  lemma ApplyKeeps(s: System, e: Event, c: Consumer)
    requires Inv(s, c) && Names(e, {c}) && Apply(s, e).Some?
    ensures Inv(Apply(s, e).value, c)
  {
    hide Inv, Apply;
    match e
    case NotifyOne(_) => NotifyOneKeeps(s, e, c);
    case NotifyWaiters => NotifyWaitersKeeps(s, e, c);
    case Insert => ProducerKeeps(s, e, c);
    case Expire(_) => ProducerKeeps(s, e, c);
    case Close => ProducerKeeps(s, e, c);
    case Lapse => ProducerKeeps(s, e, c);
    case _ => ConsumerKeeps(s, e, c);
  }

  lemma {:induction false} RunKeeps(events: seq<Event>, c: Consumer)
    requires AllName(events, {c}) && Execute(events).Some?
    ensures Inv(Execute(events).value, c)
    decreases |events|
  {
    hide Apply;
    if events != [] {
      RunKeeps(events[..|events| - 1], c);
      ApplyKeeps(Execute(events[..|events| - 1]).value, events[|events| - 1], c);
    }
  }

  /** With one consumer no wake-up is ever lost. */
  lemma NoLostWakeUp(events: seq<Event>, c: Consumer, sleeper: Consumer)
    requires AllName(events, {c}) && Execute(events).Some?
    ensures !Lost(Execute(events).value, sleeper)
  {
    RunKeeps(events, c);
  }

  // ---------------------------------------------------------------- two consumers

  lemma Then(events: seq<Event>, s: System, e: Event, consumers: set<Consumer>)
    returns (longer: seq<Event>, next: System)
    requires Execute(events) == Some(s) && Apply(s, e).Some?
    requires AllName(events, consumers) && Names(e, consumers)
    ensures Execute(longer) == Some(next) && Apply(s, e) == Some(next)
    ensures AllName(longer, consumers)
  {
    longer, next := events + [e], Apply(s, e).value;
    assert longer[..|events|] == events;
  }

  lemma Nothing()
    ensures Execute([]) == Some(START)
  {
  }

  /** Both consumers look and find nothing. */
  lemma BothLook(a: Consumer, b: Consumer) returns (events: seq<Event>)
    requires a != b
    ensures AllName(events, {a, b})
    ensures Execute(events) == Some(START.(phases := map[a := Checked(0), b := Checked(0)]))
  {
    hide Execute, AllName;
    var s := START;
    events := [];
    Nothing();
    NothingNames({a, b});
    events, s := Then(events, s, Create(a), {a, b});
    events, s := Then(events, s, Check(a), {a, b});
    assert s == START.(phases := map[a := Checked(0)]);
    events, s := Then(events, s, Create(b), {a, b});
    events, s := Then(events, s, Check(b), {a, b});
    assert s.phases == map[a := Checked(0), b := Checked(0)];
  }

  lemma NothingNames(consumers: set<Consumer>)
    ensures AllName([], consumers)
  {
  }

  /** Two insertions then leave one permit. */
  lemma TwoInsertions(a: Consumer, b: Consumer) returns (events: seq<Event>)
    requires a != b
    ensures AllName(events, {a, b})
    ensures Execute(events) == Some(System(2, false, true, 0, 0, 0, map[a := Checked(0), b := Checked(0)], 2, 0))
  {
    hide Execute, AllName;
    events := BothLook(a, b);
    var s := START.(phases := map[a := Checked(0), b := Checked(0)]);
    events, s := Then(events, s, Insert, {a, b});
    events, s := Then(events, s, Insert, {a, b});
    events, s := Then(events, s, NotifyOne(None), {a, b});
    events, s := Then(events, s, NotifyOne(None), {a, b});
  }

  /**
    Any two consumers can lose a wake-up: both look and find nothing before either registers, two
    insertions leave one permit, one consumer uses it up and returns, and the other sleeps on an entry.
  */
  lemma TwoConsumersCanLose(a: Consumer, b: Consumer) returns (events: seq<Event>, s: System)
    requires a != b
    ensures AllName(events, {a, b})
    ensures Execute(events) == Some(s) && Lost(s, b) && s.entries == 1 && PhaseOf(s, a) == Idle
  {
    hide Execute, AllName;
    events := TwoInsertions(a, b);
    s := System(2, false, true, 0, 0, 0, map[a := Checked(0), b := Checked(0)], 2, 0);
    events, s := Then(events, s, Poll(a), {a, b});
    events, s := Then(events, s, Poll(b), {a, b});
    assert s == System(2, false, false, 0, 0, 0, map[a := Idle, b := Waiting], 2, 0);
    events, s := Then(events, s, Create(a), {a, b});
    events, s := Then(events, s, Check(a), {a, b});
  }

  /** Expiries and closings each call for one broadcast. */
  function Broadcasts(events: seq<Event>): nat {
    if events == [] then 0 else
    Broadcasts(events[..|events| - 1])
    + (if events[|events| - 1].Expire? || events[|events| - 1] == Close then 1 else 0)
  }

  lemma CountStep(s: System, e: Event)
    requires Apply(s, e).Some?
    ensures var t := Apply(s, e).value;
            && t.broadcasts + t.alls == s.broadcasts + s.alls + (if e.Expire? || e == Close then 1 else 0)
            && (e.Expire? && e.found ==> s.entries > 0)
            && (s.inserted == s.entries + s.gone ==> t.inserted == t.entries + t.gone)
            && (t.closed <==> s.closed || e == Close)
            && ((s.closed ==> s.entries == 0) ==> (t.closed ==> t.entries == 0))
  {
    hide Chooses;
  }

  /**
    Over every run and any consumers, each request inserted is queued or has left, a closed queue is empty, and each
    expiry and closing is broadcast once or still owes its broadcast.
  */
  lemma {:induction false} EntriesAreCounted(events: seq<Event>)
    requires Execute(events).Some?
    ensures var s := Execute(events).value;
            && s.inserted == s.entries + s.gone
            && (s.closed <==> Close in events) && (s.closed ==> s.entries == 0)
            && s.broadcasts + s.alls == Broadcasts(events)
    decreases |events|
  {
    hide Apply;
    if events != [] {
      var init, last := events[..|events| - 1], events[|events| - 1];
      assert events == init + [last];
      EntriesAreCounted(init);
      CountStep(Execute(init).value, last);
    }
  }

  // ---------------------------------------------------------------- exactly when

  /** No run of these consumers loses a wake-up. */
  ghost predicate NeverLoses(consumers: set<Consumer>) {
    forall events, c | AllName(events, consumers) && Execute(events).Some? :: !Lost(Execute(events).value, c)
  }

  lemma FewerNames(events: seq<Event>, some: set<Consumer>, all: set<Consumer>)
    requires AllName(events, some) && some <= all
    ensures AllName(events, all)
  {
  }

  /** Wake-ups are never lost if and only if at most one consumer ever waits. */
  lemma NeverLosesExactly(consumers: set<Consumer>)
    ensures NeverLoses(consumers) <==> |consumers| <= 1
  {
    hide AllName, Execute, Lost;
    if |consumers| <= 1 {
      var only := OneOf(consumers);
      forall events, c | AllName(events, consumers) && Execute(events).Some?
        ensures !Lost(Execute(events).value, c)
      {
        FewerNames(events, consumers, {only});
        NoLostWakeUp(events, only, c);
      }
    } else {
      var a, b := TwoOf(consumers);
      var events, s := TwoConsumersCanLose(a, b);
      FewerNames(events, {a, b}, consumers);
    }
  }

  lemma OneOf(consumers: set<Consumer>) returns (only: Consumer)
    requires |consumers| <= 1
    ensures consumers <= {only}
  {
    only := 0;
    if consumers != {} {
      Inhabited(consumers);
      only :| only in consumers;
      assert |consumers - {only}| == 0;
    }
  }

  lemma Inhabited(consumers: set<Consumer>)
    ensures consumers == {} || exists c :: c in consumers
  {
    if forall c :: c !in consumers { assert consumers == {}; }
  }

  lemma TwoOf(consumers: set<Consumer>) returns (a: Consumer, b: Consumer)
    requires |consumers| >= 2
    ensures a in consumers && b in consumers && a != b
  {
    Inhabited(consumers);
    a :| a in consumers;
    assert |consumers - {a}| >= 1;
    Inhabited(consumers - {a});
    b :| b in consumers - {a};
  }
}
