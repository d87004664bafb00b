/** Asking the main thread for the next track. Every statement of the requesting and of the
    providing function that touches something shared is one step; steps of different threads
    interleave in any order. */
module NextTrack {
  import opened Basics

  // ---------------------------------------------------------------------------------------
  // Threads, shared state and steps
  // ---------------------------------------------------------------------------------------

  /** Where a requesting thread is. */
  datatype Requester<Track> =
    | Idle
    | Entered                 // holds the request mutex
    | Notified                // has written its byte to the pipe
    | Checking                // holds the file mutex, about to look at the flag
    | Waiting                 // sleeps on the condition, without the file mutex
    | Woken                   // was woken, wants the file mutex back
    | Read(ti: Track)         // has read the file, holds both mutexes
    | Cleared(ti: Track)      // has reset the flag, holds both mutexes
    | Leaving(ti: Track)      // holds the request mutex only

  /** Where the main thread is. */
  datatype Provider =
    | Selecting               // waits for a byte in the pipe
    | TookByte
    | Locked                  // holds the file mutex
    | Stored                  // has stored the track, holds the file mutex
    | Raised                  // has set the flag, holds the file mutex
    | Unlocked                // is about to wake the sleepers

  datatype Owner = Nobody | MainThread | Thread(id: nat)

  /** The shared variables with both mutexes, where every thread is, and two records that only
      the proofs look at: the tracks stored so far and what each call returned. */
  datatype System<Track> = System(
    bytes: nat,
    provided: bool,
    file: Track,
    requestMutex: Option<nat>,
    fileMutex: Owner,
    main: Provider,
    threads: seq<Requester<Track>>,
    stored: seq<Track>,
    delivered: seq<(nat, Track)>)

  datatype Event<Track> =
    | Enter(id: nat)
    | Notify(id: nat)
    | Lock(id: nat)           // first, or again after a wake-up
    | SleepOrRead(id: nat)
    | WakeUp(id: nat)         // without a broadcast
    | ResetFlag(id: nat)
    | Unlock(id: nat)
    | Return(id: nat)
    | ClearPipe
    | MainLock
    | Store(next: Track)
    | RaiseFlag
    | MainUnlock
    | Broadcast

  predicate IsMainEvent<Track>(e: Event<Track>) {
    e.ClearPipe? || e.MainLock? || e.Store? || e.RaiseFlag? || e.MainUnlock? || e.Broadcast?
  }

  predicate Allowed<Track>(s: System<Track>, e: Event<Track>) {
    match e
    case ClearPipe => s.main == Selecting && s.bytes > 0
    case MainLock => s.main == TookByte && s.fileMutex == Nobody
    case Store(_) => s.main == Locked
    case RaiseFlag => s.main == Stored
    case MainUnlock => s.main == Raised
    case Broadcast => s.main == Unlocked
    case _ =>
      e.id < |s.threads| &&
      var t := s.threads[e.id];
      match e
      case Enter(_) => t.Idle? && s.requestMutex.None?
      case Notify(_) => t.Entered?
      case Lock(_) => (t.Notified? || t.Woken?) && s.fileMutex == Nobody
      case SleepOrRead(_) => t.Checking?
      case WakeUp(_) => t.Waiting?
      case ResetFlag(_) => t.Read?
      case Unlock(_) => t.Cleared?
      case Return(_) => t.Leaving?
  }

  function Put<Track>(s: System<Track>, id: nat, t: Requester<Track>): System<Track>
    requires id < |s.threads|
  {
    s.(threads := s.threads[id := t])
  }

  /** A broadcast wakes every sleeper. */
  function Awake<Track>(ts: seq<Requester<Track>>): (r: seq<Requester<Track>>)
    ensures |r| == |ts|
    ensures forall i :: 0 <= i < |ts| ==> r[i] == if ts[i].Waiting? then Woken else ts[i]
  {
    seq(|ts|, i requires 0 <= i < |ts| => if ts[i].Waiting? then Woken else ts[i])
  }

  function MainStep<Track>(s: System<Track>, e: Event<Track>): System<Track>
    requires Allowed(s, e) && IsMainEvent(e)
  {
    match e
    case ClearPipe => s.(main := TookByte, bytes := s.bytes - 1)
    case MainLock => s.(main := Locked, fileMutex := MainThread)
    case Store(next) => s.(main := Stored, file := next, stored := s.stored + [next])
    case RaiseFlag => s.(main := Raised, provided := true)
    case MainUnlock => s.(main := Unlocked, fileMutex := Nobody)
    case Broadcast => s.(main := Selecting, threads := Awake(s.threads))
  }

  function ThreadStep<Track>(s: System<Track>, e: Event<Track>): System<Track>
    requires Allowed(s, e) && !IsMainEvent(e)
  {
    var t := s.threads[e.id];
    match e
    case Enter(id) => Put(s, id, Entered).(requestMutex := Some(id))
    case Notify(id) => Put(s, id, Notified).(bytes := s.bytes + 1)
    case Lock(id) => Put(s, id, Checking).(fileMutex := Thread(id))
    case SleepOrRead(id) =>
      if s.provided then Put(s, id, Read(s.file)) else Put(s, id, Waiting).(fileMutex := Nobody)
    case WakeUp(id) => Put(s, id, Woken)
    case ResetFlag(id) => Put(s, id, Cleared(t.ti)).(provided := false)
    case Unlock(id) => Put(s, id, Leaving(t.ti)).(fileMutex := Nobody)
    case Return(id) => Put(s, id, Idle).(requestMutex := None, delivered := s.delivered + [(id, t.ti)])
  }

  function Step<Track>(s: System<Track>, e: Event<Track>): System<Track>
    requires Allowed(s, e)
  {
    if IsMainEvent(e) then MainStep(s, e) else ThreadStep(s, e)
  }

  // ---------------------------------------------------------------------------------------
  // What every step keeps
  // ---------------------------------------------------------------------------------------

  /** Has asked and not yet taken the answer. */
  predicate Asking<Track>(t: Requester<Track>) {
    t.Notified? || t.Checking? || t.Waiting? || t.Woken? || t.Read?
  }

  predicate HoldsFile<Track>(t: Requester<Track>) {
    t.Checking? || t.Read? || t.Cleared?
  }

  predicate MainHoldsFile(m: Provider) {
    m == Locked || m == Stored || m == Raised
  }

  predicate Providing(m: Provider) {
    m == TookByte || m == Locked || m == Stored
  }

  /** The thread that owns the request mutex; without an owner every thread is idle. */
  function Current<Track>(s: System<Track>): Requester<Track> {
    if s.requestMutex.Some? && s.requestMutex.value < |s.threads| then s.threads[s.requestMutex.value] else Idle
  }

  function Count(b: bool): nat {
    if b then 1 else 0
  }

  /** Only the owner of the request mutex is not idle. */
  predicate OneRequester<Track>(s: System<Track>) {
    && (s.requestMutex.Some? ==> s.requestMutex.value < |s.threads|)
    && forall i :: 0 <= i < |s.threads| ==> (s.threads[i].Idle? <==> s.requestMutex != Some(i))
  }

  predicate FileMutexOwned<Track>(s: System<Track>) {
    && (s.fileMutex == MainThread <==> MainHoldsFile(s.main))
    && (s.fileMutex.Thread? <==> HoldsFile(Current(s)))
    && (s.fileMutex.Thread? ==> s.requestMutex == Some(s.fileMutex.id))
  }

  /** One answer is on its way for a request that waits for one, and none otherwise. */
  ghost predicate OneAnswer<Track>(s: System<Track>) {
    && s.bytes + Count(Providing(s.main)) + Count(s.provided) == Count(Asking(Current(s)))
    && (s.main == Raised ==> s.provided)
    && (Current(s).Read? ==> s.provided && Current(s).ti == s.file)
  }

  /** The tracks stored but not yet returned: at most the latest. */
  function Pending<Track>(s: System<Track>): seq<Track> {
    var t := Current(s);
    if t.Cleared? || t.Leaving? then [t.ti]
    else if s.provided || s.main == Stored then [s.file]
    else []
  }

  function Tracks<Track>(returned: seq<(nat, Track)>): (r: seq<Track>)
    ensures |r| == |returned|
    ensures forall i :: 0 <= i < |r| ==> r[i] == returned[i].1
  {
    seq(|returned|, i requires 0 <= i < |returned| => returned[i].1)
  }

  /** Every track stored was returned by one call, in order, but for the one on its way. */
  ghost predicate OnceEach<Track>(s: System<Track>) {
    s.stored == Tracks(s.delivered) + Pending(s)
  }

  /** Nobody sleeps through an answer: a broadcast is still to come. */
  predicate NoLostWakeUp<Track>(s: System<Track>) {
    s.provided && Current(s).Waiting? ==> s.main == Raised || s.main == Unlocked
  }

  ghost predicate Inv<Track>(s: System<Track>) {
    OneRequester(s) && FileMutexOwned(s) && OneAnswer(s) && OnceEach(s) && NoLostWakeUp(s)
  }

  ghost predicate Initial<Track>(s: System<Track>) {
    && s.bytes == 0 && !s.provided && s.requestMutex.None? && s.fileMutex == Nobody
    && s.main == Selecting && s.stored == [] && s.delivered == []
    && forall i :: 0 <= i < |s.threads| ==> s.threads[i].Idle?
  }

  lemma MainStepKeepsInv<Track>(s: System<Track>, e: Event<Track>)
    requires Inv(s) && Allowed(s, e) && IsMainEvent(e)
    ensures Inv(MainStep(s, e))
  {
    if e.Store? {
      assert Pending(s) == [];
      assert s.stored == Tracks(s.delivered);
    }
  }

  lemma ReturnKeepsInv<Track>(s: System<Track>, id: nat)
    requires Inv(s) && Allowed(s, Return(id))
    ensures Inv(ThreadStep(s, Return(id)))
  {
    var t := s.threads[id];
    var r := ThreadStep(s, Return(id));
    assert Tracks(r.delivered) == Tracks(s.delivered) + [t.ti];
    assert Pending(r) == [];
  }

  lemma SleepOrReadKeepsInv<Track>(s: System<Track>, id: nat)
    requires Inv(s) && Allowed(s, SleepOrRead(id))
    ensures Inv(ThreadStep(s, SleepOrRead(id)))
  {
    var r := ThreadStep(s, SleepOrRead(id));
    assert Current(r) == r.threads[id];
    assert Pending(r) == Pending(s);
  }

  lemma ThreadStepKeepsInv<Track>(s: System<Track>, e: Event<Track>)
    requires Inv(s) && Allowed(s, e) && !IsMainEvent(e) && !e.Return? && !e.SleepOrRead?
    ensures Inv(ThreadStep(s, e))
  {
    var r := ThreadStep(s, e);
    assert Current(r) == r.threads[e.id];
    assert Pending(r) == Pending(s);
  }

  /** Every step of every thread keeps the invariant. */
  lemma StepKeepsInv<Track>(s: System<Track>, e: Event<Track>)
    requires Inv(s) && Allowed(s, e)
    ensures Inv(Step(s, e))
  {
    hide Inv, MainStep, ThreadStep;
    if IsMainEvent(e) {
      MainStepKeepsInv(s, e);
    } else if e.Return? {
      ReturnKeepsInv(s, e.id);
    } else if e.SleepOrRead? {
      SleepOrReadKeepsInv(s, e.id);
    } else {
      ThreadStepKeepsInv(s, e);
    }
  }

  /** A track is only ever stored when the one before has been returned or is in the hands of
      the call that returns it: none is overwritten. */
  lemma NothingOverwritten<Track>(s: System<Track>, next: Track)
    requires Inv(s) && Allowed(s, Store(next))
    ensures !s.provided && s.stored == Tracks(s.delivered)
    ensures Asking(Current(s)) && !Current(s).Read?
  {
    assert Pending(s) == [];
  }

  // ---------------------------------------------------------------------------------------
  // Runs
  // ---------------------------------------------------------------------------------------

  predicate IsRun<Track>(s: System<Track>, events: seq<Event<Track>>)
    decreases |events|
  {
    events != [] ==> Allowed(s, events[0]) && IsRun(Step(s, events[0]), events[1..])
  }

  function After<Track>(s: System<Track>, events: seq<Event<Track>>): System<Track>
    requires IsRun(s, events)
    decreases |events|
  {
    if events == [] then s else After(Step(s, events[0]), events[1..])
  }

  lemma InitialInv<Track>(s: System<Track>)
    requires Initial(s)
    ensures Inv(s)
  {
    assert Tracks(s.delivered) == [];
  }

  lemma {:induction false} AfterKeepsInv<Track>(s: System<Track>, events: seq<Event<Track>>)
    requires Inv(s) && IsRun(s, events)
    ensures Inv(After(s, events))
    decreases |events|
  {
    hide Inv, Step, Allowed;
    if events != [] {
      StepKeepsInv(s, events[0]);
      AfterKeepsInv(Step(s, events[0]), events[1..]);
    }
  }

  ghost predicate IsRunFromStart<Track>(s: System<Track>, events: seq<Event<Track>>) {
    Initial(s) && IsRun(s, events)
  }

  /** The tracks that the main thread stored in a run, in order. */
  function Given<Track>(events: seq<Event<Track>>): seq<Track> {
    if events == [] then []
    else (if events[0].Store? then [events[0].next] else []) + Given(events[1..])
  }

  /** The threads whose calls returned in a run, in order. */
  function Returning<Track>(events: seq<Event<Track>>): seq<nat> {
    if events == [] then []
    else (if events[0].Return? then [events[0].id] else []) + Returning(events[1..])
  }

  function Callers<Track>(returned: seq<(nat, Track)>): (r: seq<nat>)
    ensures |r| == |returned|
    ensures forall i :: 0 <= i < |r| ==> r[i] == returned[i].0
  {
    seq(|returned|, i requires 0 <= i < |returned| => returned[i].0)
  }

  lemma StepRecords<Track>(s: System<Track>, e: Event<Track>)
    requires Allowed(s, e)
    ensures Step(s, e).stored == s.stored + Given([e])
    ensures Callers(Step(s, e).delivered) == Callers(s.delivered) + Returning([e])
  {
    assert [e][1..] == [];
  }

  lemma {:induction false} RecordsSplit<Track>(events: seq<Event<Track>>)
    requires events != []
    ensures Given(events) == Given([events[0]]) + Given(events[1..])
    ensures Returning(events) == Returning([events[0]]) + Returning(events[1..])
  {
    assert [events[0]][1..] == [];
  }

  lemma Regroup<T>(a: seq<T>, b: seq<T>, c: seq<T>)
    ensures (a + b) + c == a + (b + c)
  {
  }

  lemma {:induction false} NoRecords<Track>(s: System<Track>)
    ensures s.stored == s.stored + Given([])
    ensures Callers(s.delivered) == Callers(s.delivered) + Returning<Track>([])
  {
  }

  /** The two records hold what the statements of the run stored and who returned. */
  lemma {:induction false} RunRecords<Track>(s: System<Track>, events: seq<Event<Track>>)
    requires IsRun(s, events)
    ensures After(s, events).stored == s.stored + Given(events)
    ensures Callers(After(s, events).delivered) == Callers(s.delivered) + Returning(events)
    decreases |events|
  {
    hide Step, Allowed, Given, Returning, Callers;
    if events == [] {
      NoRecords(s);
    } else {
      var e, rest := events[0], events[1..];
      StepRecords(s, e);
      RunRecords(Step(s, e), rest);
      RecordsSplit(events);
      Regroup(s.stored, Given([e]), Given(rest));
      Regroup(Callers(s.delivered), Returning([e]), Returning(rest));
    }
  }

  /** In every run, however the threads interleave: the tracks that the main thread stored are,
      in order, the tracks that the calls so far returned, and at most one more that is on its
      way to the one call in progress; each call returned one of them to its own thread; and
      unread bytes, a provide in progress and the flag together are one while a call waits for
      its answer and none otherwise. */
  lemma EachTrackGoesToOneCall<Track>(s: System<Track>, events: seq<Event<Track>>)
    requires IsRunFromStart(s, events)
    ensures var r := After(s, events);
            && Given(events) == r.stored == Tracks(r.delivered) + Pending(r)
            && Returning(events) == Callers(r.delivered)
            && |Pending(r)| <= Count(r.requestMutex.Some?)
            && r.bytes + Count(Providing(r.main)) + Count(r.provided) == Count(Asking(Current(r)))
  {
    InitialInv(s);
    AfterKeepsInv(s, events);
    RunRecords(s, events);
  }

  // ---------------------------------------------------------------------------------------
  // Every call returns
  // ---------------------------------------------------------------------------------------

  /** The statement that some thread can go on with while a call is in progress. */
  function Ready<Track>(s: System<Track>): Event<Track>
    requires s.requestMutex.Some?
  {
    var id := s.requestMutex.value;
    match s.main
    case Locked => Store(s.file)
    case Stored => RaiseFlag
    case Raised => MainUnlock
    case Unlocked => Broadcast
    case _ =>
      match Current(s)
      case Checking => SleepOrRead(id)
      case Read(_) => ResetFlag(id)
      case Cleared(_) => Unlock(id)
      case Leaving(_) => Return(id)
      case Entered => Notify(id)
      case _ =>
        if s.main == TookByte then MainLock
        else if s.bytes > 0 then ClearPipe
        else Lock(id)
  }

  /** A call in progress never gets stuck: some thread can go on without waiting for a wake-up
      that nobody sends. */
  lemma NeverStuck<Track>(s: System<Track>)
    requires Inv(s) && s.requestMutex.Some?
    ensures Allowed(s, Ready(s)) && !Ready(s).WakeUp? && !Ready(s).Enter?
  {
    hide OnceEach;
  }

  /** How many statements the main thread has left before it waits for a byte. */
  function MainLeft(m: Provider): nat {
    match m
    case Selecting => 0
    case TookByte => 5
    case Locked => 4
    case Stored => 3
    case Raised => 2
    case Unlocked => 1
  }

  function ThreadLeft<Track>(t: Requester<Track>): nat {
    match t
    case Idle => 0
    case Entered => 8
    case Notified => 7
    case Woken => 6
    case Checking => 5
    case Waiting => 4
    case Read(_) => 3
    case Cleared(_) => 2
    case Leaving(_) => 1
  }

  /** Falls with every statement of a call in progress and of the main thread. */
  function Rank<Track>(s: System<Track>): nat {
    9 * (MainLeft(s.main) + 6 * (s.bytes + Count(Current(s).Entered?))) + ThreadLeft(Current(s))
  }

  lemma RankBound<Track>(s: System<Track>)
    requires Inv(s)
    ensures Rank(s) <= 71
  {
    hide OnceEach, OneRequester;
  }

  lemma RankFalls<Track>(s: System<Track>, e: Event<Track>)
    requires Inv(s) && s.requestMutex.Some? && Allowed(s, e) && !e.WakeUp? && !e.Return?
    ensures Rank(Step(s, e)) < Rank(s)
    ensures Step(s, e).requestMutex == s.requestMutex && Step(s, e).delivered == s.delivered
  {
    hide OnceEach;
    if !IsMainEvent(e) {
      assert s.requestMutex == Some(e.id);
    }
  }

  lemma {:induction false} RankLimitsRun<Track>(s: System<Track>, events: seq<Event<Track>>)
    requires Inv(s) && s.requestMutex.Some? && IsRun(s, events)
    requires forall e :: e in events ==> !e.WakeUp? && !e.Return?
    ensures |events| <= Rank(s)
    decreases |events|
  {
    hide Inv, Step, Allowed, Rank;
    if events != [] {
      assert events[0] in events;
      StepKeepsInv(s, events[0]);
      RankFalls(s, events[0]);
      RankLimitsRun(Step(s, events[0]), events[1..]);
    }
  }

  /** Once a thread is inside the function, some call returns within 72 statements of any
      threads, unless sleepers wake without a broadcast. */
  lemma CallReturns<Track>(s: System<Track>, events: seq<Event<Track>>, later: seq<Event<Track>>)
    requires IsRunFromStart(s, events) && After(s, events).requestMutex.Some?
    requires IsRun(After(s, events), later) && |later| >= 72
    requires forall e :: e in later ==> !e.WakeUp?
    ensures exists k :: 0 <= k < |later| && later[k].Return?
  {
    InitialInv(s);
    AfterKeepsInv(s, events);
    RankBound(After(s, events));
    if forall k :: 0 <= k < |later| ==> !later[k].Return? {
      RankLimitsRun(After(s, events), later);
    }
  }

  // ---------------------------------------------------------------------------------------
  // The shared variables, changed in place
  // ---------------------------------------------------------------------------------------

  class Handoff<Track> {
    var bytes: nat
    var provided: bool
    var file: Track
    var requestMutex: Option<nat>
    var fileMutex: Owner
    var main: Provider
    var threads: seq<Requester<Track>>
    ghost var stored: seq<Track>
    ghost var delivered: seq<(nat, Track)>

    ghost function State(): System<Track>
      reads this
    {
      System(bytes, provided, file, requestMutex, fileMutex, main, threads, stored, delivered)
    }

    constructor (n: nat, file: Track)
      ensures Initial(State()) && |threads| == n
    {
      this.file := file;
      bytes, provided, requestMutex, fileMutex := 0, false, None, Nobody;
      main, threads := Selecting, seq(n, _ => Idle);
      stored, delivered := [], [];
    }

    /** The request, from the byte in the pipe to the return, one statement at a time. */
    method ThreadStatement(e: Event<Track>)
      requires Allowed(State(), e) && !IsMainEvent(e)
      modifies this
      ensures State() == Step(old(State()), e)
    {
      var id := e.id;
      var t := threads[id];
      match e {
        case Enter(_) =>
          requestMutex := Some(id);
          threads := threads[id := Entered];
        case Notify(_) =>
          bytes := bytes + 1;
          threads := threads[id := Notified];
        case Lock(_) =>
          fileMutex := Thread(id);
          threads := threads[id := Checking];
        case SleepOrRead(_) =>
          if !provided {
            fileMutex := Nobody;
            threads := threads[id := Waiting];
          } else {
            threads := threads[id := Read(file)];
          }
        case WakeUp(_) =>
          threads := threads[id := Woken];
        case ResetFlag(_) =>
          provided := false;
          threads := threads[id := Cleared(t.ti)];
        case Unlock(_) =>
          fileMutex := Nobody;
          threads := threads[id := Leaving(t.ti)];
        case Return(_) =>
          requestMutex := None;
          threads := threads[id := Idle];
          delivered := delivered + [(id, t.ti)];
      }
    }

    /** The answer, from the byte in the pipe to the broadcast, one statement at a time. */
    method MainStatement(e: Event<Track>)
      requires Allowed(State(), e) && IsMainEvent(e)
      modifies this
      ensures State() == Step(old(State()), e)
    {
      match e {
        case ClearPipe =>
          bytes, main := bytes - 1, TookByte;
        case MainLock =>
          fileMutex, main := MainThread, Locked;
        case Store(next) =>
          file, main := next, Stored;
          stored := stored + [next];
        case RaiseFlag =>
          provided, main := true, Raised;
        case MainUnlock =>
          fileMutex, main := Nobody, Unlocked;
        case Broadcast =>
          for i := 0 to |threads|
            invariant unchanged(this`bytes, this`provided, this`file, this`requestMutex, this`fileMutex, this`main, this`stored, this`delivered)
            invariant |threads| == |old(threads)|
            invariant forall k :: 0 <= k < |threads| ==>
                        threads[k] == if k < i then Awake(old(threads))[k] else old(threads)[k]
          {
            if threads[i].Waiting? {
              threads := threads[i := Woken];
            }
          }
          assert threads == Awake(old(threads));
          main := Selecting;
      }
    }

    /** The threads run their statements in any order that the mutexes allow. From the start on,
        every stored track has been returned by one call or is the one on its way. */
    method Perform(events: seq<Event<Track>>)
      requires IsRun(State(), events)
      modifies this
      ensures State() == After(old(State()), events)
      ensures old(Initial(State())) ==>
                stored == Tracks(delivered) + Pending(State()) && |Pending(State())| <= Count(requestMutex.Some?)
    {
      assert events[0..] == events;
      for i := 0 to |events|
        invariant IsRun(State(), events[i..])
        invariant After(State(), events[i..]) == After(old(State()), events)
      {
        hide Allowed, Step;
        var e := events[i];
        assert events[i..][0] == e && events[i..][1..] == events[i + 1..];
        if IsMainEvent(e) {
          MainStatement(e);
        } else {
          ThreadStatement(e);
        }
      }
      if old(Initial(State())) {
        EachTrackGoesToOneCall(old(State()), events);
      }
    }
  }
}
