/**
  The wake-up protocol of base/message_pump_win.cc: whoever sets have_work_ from 0 posts a kMsgHaveWork
  message (on the I/O pump, a completion), and whoever retrieves that message sets have_work_ to 0.
  PostMessage is taken to succeed.
 */
module HaveWork {
  import opened Basics

  datatype Message = WorkMessage | Other(id: nat)

  /** A thread in ScheduleWork: before or after the exchange that has given it 0. */
  datatype Scheduler = Outside | BetweenExchangeAndPost

  /**
    A kMsgHaveWork message has been retrieved, and have_work_ is still to be reset: at first, and after
    ProcessPumpReplacementMessage has peeked for another message to process instead.
   */
  datatype Handling = Retrieved | Peeked(replacement: Option<Message>)

  /**
    `schedulers` are all threads, the one that runs the pump too; loops may be nested in `handling`.
    `dispatched` are the other messages that were given to their windows.
   */
  datatype State = State(haveWork: int, schedulers: seq<Scheduler>, queue: seq<Message>, handling: seq<Handling>,
                         dispatched: seq<Message>)

  datatype Event =
    | Exchange(thread: nat)
    | Post(thread: nat)
    | PostOther(id: nat)
    | Retrieve(k: nat)               // by the pump, by a modal loop, or from the completion port
    | Peek(taken: Option<nat>)       // the replacement, of any kind, or none
    | Reset                          // after the peek
    | ResetAtOnce                    // outside of Run, and on the I/O pump

  predicate Possible(s: State, e: Event) {
    match e
    case Exchange(i) => i < |s.schedulers| && s.schedulers[i].Outside?
    case Post(i) => i < |s.schedulers| && s.schedulers[i].BetweenExchangeAndPost?
    case PostOther(_) => true
    case Retrieve(k) => k < |s.queue|
    case Peek(k) => s.handling != [] && Top(s).Retrieved? && (k.Some? ==> k.value < |s.queue|)
    case Reset => s.handling != [] && Top(s).Peeked?
    case ResetAtOnce => s.handling != [] && Top(s).Retrieved?
  }

  function Top(s: State): Handling
    requires s.handling != []
  {
    s.handling[|s.handling| - 1]
  }

  function Replacement(h: Handling): seq<Message> {
    if h.Peeked? && h.replacement.Some? then [h.replacement.value] else []
  }

  function Step(s: State, e: Event): State
    requires Possible(s, e)
  {
    match e
    case Exchange(i) =>
      s.(haveWork := 1,
         schedulers := if s.haveWork == 0 then s.schedulers[i := BetweenExchangeAndPost] else s.schedulers)
    case Post(i) => s.(schedulers := s.schedulers[i := Outside], queue := s.queue + [WorkMessage])
    case PostOther(id) => s.(queue := s.queue + [Other(id)])
    case Retrieve(k) =>
      s.(queue := WithoutAt(s.queue, k),
         handling := if s.queue[k].WorkMessage? then s.handling + [Retrieved] else s.handling,
         dispatched := if s.queue[k].WorkMessage? then s.dispatched else s.dispatched + [s.queue[k]])
    case Peek(k) =>
      var below := s.handling[..|s.handling| - 1];
      if k.None? then s.(handling := below + [Peeked(None)])
      else s.(queue := WithoutAt(s.queue, k.value), handling := below + [Peeked(Some(s.queue[k.value]))])
    case Reset =>
      s.(haveWork := 0, handling := s.handling[..|s.handling| - 1],
         dispatched := s.dispatched + Replacement(Top(s)))
    case ResetAtOnce => s.(haveWork := 0, handling := s.handling[..|s.handling| - 1])
  }

  predicate CanRun(s: State, events: seq<Event>)
    decreases events
  {
    events == [] || (Possible(s, events[0]) && CanRun(Step(s, events[0]), events[1..]))
  }

  function Run(s: State, events: seq<Event>): State
    requires CanRun(s, events)
    decreases events
  {
    if events == [] then s else Run(Step(s, events[0]), events[1..])
  }

  function Initial(threads: nat): State {
    State(0, seq(threads, _ => Outside), [], [], [])
  }

  // ----------------------------------------------------------------------------------------------
  // One token: have_work_ counts the messages on their way
  // ----------------------------------------------------------------------------------------------

  ghost function OnTheWay(s: State): nat {
    multiset(s.queue)[WorkMessage] + multiset(s.schedulers)[BetweenExchangeAndPost] + |s.handling|
  }

  ghost predicate Inv(s: State) {
    OnTheWay(s) == s.haveWork && 0 <= s.haveWork <= 1
  }

  lemma CountUpdated<T>(s: seq<T>, i: nat, v: T, x: T)
    requires i < |s|
    ensures multiset(s[i := v])[x] == multiset(s)[x] - (if s[i] == x then 1 else 0) + (if v == x then 1 else 0)
  {
    assert s == s[..i] + [s[i]] + s[i + 1..];
    assert s[i := v] == s[..i] + [v] + s[i + 1..];
  }

  lemma StepKeepsInv(s: State, e: Event)
    requires Inv(s) && Possible(s, e)
    ensures Inv(Step(s, e))
  {
    match e {
      case Exchange(i) => CountUpdated(s.schedulers, i, BetweenExchangeAndPost, BetweenExchangeAndPost);
      case Post(i) => CountUpdated(s.schedulers, i, Outside, BetweenExchangeAndPost);
      case Retrieve(k) => CountWithoutAt(s.queue, k);
      case Peek(k) => if k.Some? { CountWithoutAt(s.queue, k.value); }
      case _ =>
    }
  }

  lemma {:induction false} RunKeepsInv(s: State, events: seq<Event>)
    requires Inv(s) && CanRun(s, events)
    ensures Inv(Run(s, events))
    decreases events
  {
    if events != [] {
      StepKeepsInv(s, events[0]);
      RunKeepsInv(Step(s, events[0]), events[1..]);
    }
  }

  lemma InitialInv(threads: nat)
    ensures Inv(Initial(threads))
  {
    var s := Initial(threads);
    assert BetweenExchangeAndPost !in s.schedulers;
    assert BetweenExchangeAndPost !in multiset(s.schedulers);
  }

  // ----------------------------------------------------------------------------------------------
  // Main results, for any number of threads and any interleaving
  // ----------------------------------------------------------------------------------------------

  /** At most one wake-up message is queued, about to be posted, or retrieved and not yet answered for. */
  lemma AtMostOneWorkMessage(threads: nat, events: seq<Event>)
    requires CanRun(Initial(threads), events)
    ensures var s := Run(Initial(threads), events);
            OnTheWay(s) == s.haveWork && (s.haveWork == 0 || s.haveWork == 1)
  {
    InitialInv(threads);
    RunKeepsInv(Initial(threads), events);
  }

  /** Both checks of ProcessPumpReplacementMessage: it peeks no kMsgHaveWork, and it finds have_work_ set. */
  lemma ChecksHold(threads: nat, events: seq<Event>)
    requires CanRun(Initial(threads), events)
    ensures var s := Run(Initial(threads), events);
            && (forall k: nat :: Possible(s, Peek(Some(k))) ==> s.queue[k] != WorkMessage)
            && (Possible(s, Reset) || Possible(s, ResetAtOnce) ==> s.haveWork == 1)
  {
    AtMostOneWorkMessage(threads, events);
    var s := Run(Initial(threads), events);
    forall k: nat | Possible(s, Peek(Some(k))) ensures s.queue[k] != WorkMessage {
      assert s.queue[k] in multiset(s.queue);
    }
  }

  /**
    No wake-up is lost: from the exchange on until the flag is next reset, a message is queued, is being
    posted, or has been retrieved by a thread that is yet to reset the flag and then to look for work.
   */
  lemma WakeUpIsOnTheWay(threads: nat, events: seq<Event>, i: nat)
    requires CanRun(Initial(threads), events) && Possible(Run(Initial(threads), events), Exchange(i))
    ensures var s := Step(Run(Initial(threads), events), Exchange(i));
            WorkMessage in s.queue || BetweenExchangeAndPost in s.schedulers || s.handling != []
  {
    AtMostOneWorkMessage(threads, events);
    var s := Run(Initial(threads), events);
    StepKeepsInv(s, Exchange(i));
    var t := Step(s, Exchange(i));
    assert multiset(t.queue)[WorkMessage] > 0 ==> WorkMessage in t.queue;
    assert multiset(t.schedulers)[BetweenExchangeAndPost] > 0 ==> BetweenExchangeAndPost in t.schedulers;
  }

  // ----------------------------------------------------------------------------------------------
  // The other messages
  // ----------------------------------------------------------------------------------------------

  /** The messages that have been peeked as replacements and are to be dispatched after the reset. */
  ghost function Replacements(handling: seq<Handling>): seq<Message> {
    if handling == [] then []
    else Replacements(handling[..|handling| - 1]) + Replacement(handling[|handling| - 1])
  }

  /** How often this message is on its way or has been dispatched. */
  ghost function Copies(s: State, m: Message): nat {
    CopiesIn(s.queue, Replacements(s.handling), s.dispatched, m)
  }

  ghost function CopiesIn(queue: seq<Message>, held: seq<Message>, dispatched: seq<Message>, m: Message): nat {
    multiset(queue)[m] + multiset(held)[m] + multiset(dispatched)[m]
  }

  function TimesPosted(events: seq<Event>, id: nat): nat {
    if events == [] then 0 else (if events[0] == PostOther(id) then 1 else 0) + TimesPosted(events[1..], id)
  }

  lemma ReplacementsPushed(handling: seq<Handling>, h: Handling)
    ensures Replacements(handling + [h]) == Replacements(handling) + Replacement(h)
  {
    assert (handling + [h])[..|handling|] == handling;
  }

  lemma CountAppended<T>(s: seq<T>, x: T, m: T)
    ensures multiset(s + [x])[m] == multiset(s)[m] + if x == m then 1 else 0
  {
  }

  lemma CountTakenOut<T>(s: seq<T>, k: nat, m: T)
    requires k < |s|
    ensures multiset(WithoutAt(s, k))[m] == multiset(s)[m] - if s[k] == m then 1 else 0
  {
    CountWithoutAt(s, k);
  }

  lemma DispatchKeepsCopies(queue: seq<Message>, held: seq<Message>, dispatched: seq<Message>, k: nat, m: Message)
    requires k < |queue|
    ensures CopiesIn(WithoutAt(queue, k), held, dispatched + [queue[k]], m) == CopiesIn(queue, held, dispatched, m)
    ensures CopiesIn(WithoutAt(queue, k), held + [queue[k]], dispatched, m) == CopiesIn(queue, held, dispatched, m)
    ensures queue[k] != m ==> CopiesIn(WithoutAt(queue, k), held, dispatched, m) == CopiesIn(queue, held, dispatched, m)
  {
    CountTakenOut(queue, k, m);
    CountAppended(dispatched, queue[k], m);
    CountAppended(held, queue[k], m);
  }

  lemma RetrieveKeepsCopies(s: State, k: nat, m: Message)
    requires Possible(s, Retrieve(k)) && !m.WorkMessage?
    ensures Copies(Step(s, Retrieve(k)), m) == Copies(s, m)
  {
    DispatchKeepsCopies(s.queue, Replacements(s.handling), s.dispatched, k, m);
    ReplacementsPushed(s.handling, Retrieved);
    NothingAppended(Replacements(s.handling));
  }

  lemma NothingAppended<T>(s: seq<T>)
    ensures s + [] == s
  {
  }

  lemma PeekKeepsCopies(s: State, k: Option<nat>, m: Message)
    requires Possible(s, Peek(k))
    ensures Copies(Step(s, Peek(k)), m) == Copies(s, m)
  {
    var below := s.handling[..|s.handling| - 1];
    ReplacementsPushed(below, Peeked(if k.Some? then Some(s.queue[k.value]) else None));
    NothingAppended(Replacements(below));
    assert Replacements(s.handling) == Replacements(below);
    if k.Some? { DispatchKeepsCopies(s.queue, Replacements(below), s.dispatched, k.value, m); }
  }

  lemma ResetKeepsCopies(s: State, e: Event, m: Message)
    requires Possible(s, e) && (e.Reset? || e.ResetAtOnce?)
    ensures Copies(Step(s, e), m) == Copies(s, m)
  {
  }

  lemma StepKeepsCopies(s: State, e: Event, id: nat)
    requires Possible(s, e)
    ensures Copies(Step(s, e), Other(id)) == Copies(s, Other(id)) + if e == PostOther(id) then 1 else 0
  {
    match e {
      case Retrieve(k) => RetrieveKeepsCopies(s, k, Other(id));
      case Peek(k) => PeekKeepsCopies(s, k, Other(id));
      case Reset => ResetKeepsCopies(s, e, Other(id));
      case ResetAtOnce => ResetKeepsCopies(s, e, Other(id));
      case _ =>
    }
  }

  lemma {:induction false} RunKeepsCopies(s: State, events: seq<Event>, id: nat)
    requires CanRun(s, events)
    ensures Copies(Run(s, events), Other(id)) == Copies(s, Other(id)) + TimesPosted(events, id)
    decreases events
  {
    if events != [] {
      StepKeepsCopies(s, events[0], id);
      RunKeepsCopies(Step(s, events[0]), events[1..], id);
    }
  }

  /**
    No other message is lost or dispatched twice, though one may be taken in the place of a kMsgHaveWork:
    as often as it was posted it is queued, held as a replacement, or dispatched.
   */
  lemma OtherMessagesAreKept(threads: nat, events: seq<Event>, id: nat)
    requires CanRun(Initial(threads), events)
    ensures var s := Run(Initial(threads), events);
            multiset(s.queue)[Other(id)] + multiset(Replacements(s.handling))[Other(id)] +
            multiset(s.dispatched)[Other(id)] == TimesPosted(events, id)
  {
    RunKeepsCopies(Initial(threads), events, id);
  }
}
