/**
 The bounded worker loop (pkg/workflow/worker_engine.go:208-298) as a state machine over the
 steps of its main goroutine and of the goroutines that run leases.

 `active` and `tokens` are the contents of the two buffered channels, both of capacity `limit`.
 A lease goroutine is running, then has left `active` (popped), then has offered a wake-up
 (sent), then leaves the wait group.  A round polls one capability group after another until one
 has a lease; `failed` says that a poll of this round has failed.
 */
module WorkerLoop {

  datatype Main = Checking | Waiting | Polling | Launching | Sleeping | Draining | Returned

  datatype State = State(
    limit: nat, main: Main, active: nat, running: nat, popped: nat, sent: nat, waitGroup: nat, tokens: nat,
    backoff: nat, failed: bool)

  const MIN_BACKOFF: nat := 50
  const MAX_BACKOFF: nat := 30_000

  datatype Event =
    | Check
    | Wake
    | FindLease
    | Launch
    | FindNothing
    | PollFails
    | Slept
    | Cancel
    | Return
    | Pop
    | Send
    | Leave

  predicate Enabled(s: State, e: Event) {
    match e
    case Check => s.main.Checking?
    case Wake => s.main.Waiting? && s.tokens > 0
    case FindLease => s.main.Polling? && s.active < s.limit
    case Launch => s.main.Launching?
    case FindNothing => s.main.Polling?
    case PollFails => s.main.Polling?
    case Slept => s.main.Sleeping?
    case Cancel => s.main.Checking? || s.main.Waiting? || s.main.Polling? || s.main.Sleeping?
    case Return => s.main.Draining? && s.waitGroup == 0
    case Pop => s.running > 0 && s.active > 0
    case Send => s.popped > 0
    case Leave => s.sent > 0 && s.waitGroup > 0
  }

  function Step(s: State, e: Event): State
    requires Enabled(s, e)
  {
    match e
    case Check => s.(main := if s.active >= s.limit then Waiting else Polling, failed := false)
    case Wake => s.(main := Checking, tokens := s.tokens - 1)
    case FindLease =>
      s.(main := Launching, active := s.active + 1, waitGroup := s.waitGroup + 1, backoff := MIN_BACKOFF)
    case Launch => s.(main := if s.failed then Sleeping else Checking, running := s.running + 1)
    case FindNothing =>
      if s.failed || s.tokens == 0 then s.(main := Sleeping)
      else s.(main := Checking, tokens := s.tokens - 1, backoff := MIN_BACKOFF)
    case PollFails => s.(failed := true)
    case Slept => s.(main := Checking, backoff := if 2 * s.backoff > MAX_BACKOFF then MAX_BACKOFF else 2 * s.backoff)
    case Cancel => s.(main := Draining)
    case Return => s.(main := Returned)
    case Pop => s.(running := s.running - 1, active := s.active - 1, popped := s.popped + 1)
    case Send =>
      var tokens := if s.tokens < s.limit then s.tokens + 1 else s.tokens;
      s.(popped := s.popped - 1, tokens := tokens, sent := s.sent + 1)
    case Leave => s.(sent := s.sent - 1, waitGroup := s.waitGroup - 1)
  }

  function Run(s: State, events: seq<Event>): State
    decreases |events|
  {
    if events == [] then s else Run(if Enabled(s, events[0]) then Step(s, events[0]) else s, events[1..])
  }

  function Initial(maxActive: int): State {
    State(if maxActive <= 0 then 1 else maxActive, Checking, 0, 0, 0, 0, 0, 0, MIN_BACKOFF, false)
  }

  ghost predicate Kept(s: State) {
    var launching := if s.main.Launching? then 1 else 0;
    && s.limit >= 1
    && s.active == s.running + launching <= s.limit
    && s.waitGroup == s.running + s.popped + s.sent + launching
    && s.tokens <= s.limit
    && (s.main.Polling? ==> s.active < s.limit)
    && (s.main.Waiting? && s.active < s.limit ==> s.tokens > 0 || s.popped > 0)
    && MIN_BACKOFF <= s.backoff <= MAX_BACKOFF
    && (s.main.Returned? ==> s.waitGroup == 0)
  }

  lemma StepKeeps(s: State, e: Event)
    requires Kept(s) && Enabled(s, e)
    ensures Kept(Step(s, e)) && Step(s, e).limit == s.limit
  {
  }

  lemma {:induction false} RunKeeps(s: State, events: seq<Event>)
    requires Kept(s)
    ensures Kept(Run(s, events)) && Run(s, events).limit == s.limit
    decreases |events|
  {
    if events == [] {
    } else {
      hide Kept, Step, Enabled;
      if Enabled(s, events[0]) { StepKeeps(s, events[0]); }
      RunKeeps(if Enabled(s, events[0]) then Step(s, events[0]) else s, events[1..]);
    }
  }

  /** Never more than the limit of leases run at once, and putting a lease into `active` never
      blocks the main loop. */
  lemma NeverMoreThanLimit(maxActive: int, events: seq<Event>)
    ensures
      var s := Run(Initial(maxActive), events);
      s.running <= s.limit == Initial(maxActive).limit && (s.main.Polling? ==> s.active < s.limit)
  {
    RunKeeps(Initial(maxActive), events);
  }

  /** No wake-up is lost: while the main loop waits with a slot free, a token is there to be taken
      or a goroutine is about to offer one; and while it waits with neither, leases fill every
      slot, so one of them will. */
  lemma NoWakeUpIsLost(maxActive: int, events: seq<Event>)
    requires Run(Initial(maxActive), events).main.Waiting?
    ensures
      var s := Run(Initial(maxActive), events);
      && (s.running < s.limit ==> s.tokens > 0 || s.popped > 0)
      && (s.tokens == 0 && s.popped == 0 ==> s.running == s.limit >= 1)
      && (Enabled(s, Wake) || Enabled(s, Send) || Enabled(s, Pop))
  {
    RunKeeps(Initial(maxActive), events);
  }

  /** From any such wait the lease goroutines alone bring the main loop back to its check within
      three steps. */
  lemma WaitingEnds(maxActive: int, events: seq<Event>)
    requires Run(Initial(maxActive), events).main.Waiting?
    ensures
      var s := Run(Initial(maxActive), events);
      Run(s, [Pop, Send, Wake]).main.Checking? || Run(s, [Send, Wake]).main.Checking? || Run(s, [Wake]).main.Checking?
  {
    RunKeeps(Initial(maxActive), events);
    var s := Run(Initial(maxActive), events);
    if s.tokens > 0 {
      RunOne(s, Wake, []);
    } else if s.popped > 0 {
      RunOne(s, Send, [Wake]);
      RunOne(Step(s, Send), Wake, []);
    } else {
      RunOne(s, Pop, [Send, Wake]);
      RunOne(Step(s, Pop), Send, [Wake]);
      RunOne(Step(Step(s, Pop), Send), Wake, []);
    }
  }

  lemma RunOne(s: State, e: Event, rest: seq<Event>)
    requires Enabled(s, e)
    ensures Run(s, [e] + rest) == Run(Step(s, e), rest)
  {
    assert ([e] + rest)[1..] == rest;
  }

  /** The loop may sleep with every slot taken, after a round in which one poll failed and a later
      one found a lease. */
  lemma SleepsWithAllSlotsTaken()
    ensures
      var s := Run(Initial(1), [Check, PollFails, FindLease, Launch]);
      s.main.Sleeping? && s.running == s.limit == 1
  {
    var s := Initial(1);
    assert [Check] + [PollFails, FindLease, Launch] == [Check, PollFails, FindLease, Launch];
    RunOne(s, Check, [PollFails, FindLease, Launch]);
    var polling := Step(s, Check);
    assert [PollFails] + [FindLease, Launch] == [PollFails, FindLease, Launch];
    RunOne(polling, PollFails, [FindLease, Launch]);
    assert [FindLease] + [Launch] == [FindLease, Launch] && [Launch] + [] == [Launch];
    RunOne(Step(polling, PollFails), FindLease, [Launch]);
    RunOne(Step(Step(polling, PollFails), FindLease), Launch, []);
  }

  /** However it came to sleep, it wakes into another round, or into a wait that the leases end. */
  lemma SleepingEnds(maxActive: int, events: seq<Event>)
    requires Run(Initial(maxActive), events).main.Sleeping?
    ensures
      var s := Run(Initial(maxActive), events);
      && Run(s, [Slept, Check]).main == (if s.running < s.limit then Polling else Waiting)
      && Run(s, [Slept, Check]).backoff <= MAX_BACKOFF
  {
    RunKeeps(Initial(maxActive), events);
    var s := Run(Initial(maxActive), events);
    assert [Slept] + [Check] == [Slept, Check] && [Check] + [] == [Check];
    RunOne(s, Slept, [Check]);
    RunOne(Step(s, Slept), Check, []);
    RunKeeps(s, [Slept, Check]);
  }

  function Sleeps(n: nat): seq<Event> {
    if n == 0 then [] else [Check, FindNothing, Slept] + Sleeps(n - 1)
  }

  /** The wait between empty rounds, in milliseconds. */
  function Doubled(n: nat): nat {
    if n == 0 then 50 else if Doubled(n - 1) >= 15_000 then 30_000 else 2 * Doubled(n - 1)
  }

  lemma RunJoins(s: State, a: seq<Event>, b: seq<Event>)
    ensures Run(s, a + b) == Run(Run(s, a), b)
    decreases |a|
  {
    if a == [] {
      assert a + b == b;
    } else {
      assert (a + b)[1..] == a[1..] + b;
      RunJoins(if Enabled(s, a[0]) then Step(s, a[0]) else s, a[1..], b);
    }
  }

  lemma OneSleep(s: State)
    requires s.main.Checking? && s.active < s.limit && s.tokens == 0
    ensures
      var t := Run(s, [Check, FindNothing, Slept]);
      t == s.(failed := false, backoff := if s.backoff >= 15_000 then 30_000 else 2 * s.backoff)
  {
    assert [Check] + [FindNothing, Slept] == [Check, FindNothing, Slept];
    assert [FindNothing] + [Slept] == [FindNothing, Slept] && [Slept] + [] == [Slept];
    RunOne(s, Check, [FindNothing, Slept]);
    RunOne(Step(s, Check), FindNothing, [Slept]);
    RunOne(Step(Step(s, Check), FindNothing), Slept, []);
  }

  /** A loop that finds nothing waits 50 ms, then twice as long each time, up to 30 seconds. */
  lemma {:induction false} EmptyRoundsWaitLonger(s: State, n: nat, k: nat)
    requires s.main.Checking? && s.active < s.limit && s.tokens == 0 && s.backoff == Doubled(k)
    ensures
      var t := Run(s, Sleeps(n));
      t.main.Checking? && t.active == s.active && t.limit == s.limit && t.tokens == 0 && t.backoff == Doubled(k + n)
    decreases n
  {
    if n == 0 {
    } else {
      OneSleep(s);
      RunJoins(s, [Check, FindNothing, Slept], Sleeps(n - 1));
      EmptyRoundsWaitLonger(Run(s, [Check, FindNothing, Slept]), n - 1, k + 1);
    }
  }

  /** The loop begins idle, with as many slots as it was given, and at least one. */
  lemma BeginsIdle(maxActive: int)
    ensures
      var s := Initial(maxActive);
      && s.main.Checking? && s.limit == (if maxActive >= 1 then maxActive else 1) && !s.failed
      && s.active == s.running == s.popped == s.sent == s.waitGroup == s.tokens == 0
  {
  }

  /** It starts with the shortest wait, and a lease or a wake-up brings it back to that. */
  lemma WorkShortensTheWait(maxActive: int, s: State)
    ensures Initial(maxActive).backoff == Doubled(0)
    ensures Enabled(s, FindLease) ==> Step(s, FindLease).backoff == Doubled(0)
    ensures s.main.Polling? && s.tokens > 0 && !s.failed ==>
      Step(s, FindNothing).backoff == Doubled(0) && Step(s, FindNothing).main.Checking?
  {
  }

  /** A cancelled loop drains from wherever it can be interrupted. */
  lemma CancelDrains(s: State)
    ensures Enabled(s, Cancel) <==> s.main in {Checking, Waiting, Polling, Sleeping}
    ensures Enabled(s, Cancel) ==> Step(s, Cancel) == s.(main := Draining)
  {
  }

  /** From there its leases can always finish, and then it returns. */
  lemma {:induction false} DrainingEnds(s: State)
    requires Kept(s) && s.main.Draining?
    ensures exists events: seq<Event> :: Run(s, events).main.Returned?
    decreases 3 * s.running + 2 * s.popped + s.sent
  {
    var e := if s.sent > 0 then Leave else if s.popped > 0 then Send else if s.running > 0 then Pop else Return;
    assert Enabled(s, e);
    var next := Step(s, e);
    if e == Return {
      RunOne(s, Return, []);
      assert Run(s, [Return] + []).main.Returned?;
    } else {
      DrainingEnds(next);
      var events: seq<Event> :| Run(next, events).main.Returned?;
      RunOne(s, e, events);
      assert Run(s, [e] + events).main.Returned?;
    }
  }

  /** The loop returns only when every lease goroutine has left. */
  lemma ReturnsWhenAllLeft(maxActive: int, events: seq<Event>)
    requires Run(Initial(maxActive), events).main.Returned?
    ensures
      var s := Run(Initial(maxActive), events);
      s.running == 0 && s.popped == 0 && s.sent == 0 && s.active == 0
  {
    RunKeeps(Initial(maxActive), events);
  }
}
