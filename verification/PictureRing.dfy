/** The picture ring of ffplay: the decoder thread queues pictures, the main thread shows or drops
    them and allocates overlays on request. The indices move outside the mutex, the count inside it.
    A step below is one critical section, or one access outside the mutex; a run is any interleaving
    of steps of the two threads. Aborting, seeking and the clocks are not modelled: every choice
    that depends on time or on the codec's picture size is left open. */
module PictureRing {
  const SIZE: nat := 2

  /** What an overlay holds; Torn while it is being written. */
  datatype Content = Blank | Torn | Whole(picture: int)

  datatype Slot = Slot(bmp: bool, ready: bool, content: Content)

  /** The decoder thread inside queue_picture. */
  datatype Producer =
    | Idle
    | CheckingSpace(picture: int)
    | SleepingOnSpace(picture: int)
    | Inspecting(picture: int)
    | CheckingOverlay(picture: int)
    | SleepingOnOverlay(picture: int)
    | Filling(picture: int)
    | Writing(picture: int)
    | Written(picture: int)
    | Counting

  /** The main thread inside alloc_picture or video_refresh_timer. */
  datatype Consumer = Polling | Allocating | Refreshing | Looking | Ahead | Showing | Leaving | Uncounting(again: bool)

  /** The shared variables, both threads' positions, and the history: the pictures handed to
      queue_picture, those put in the ring, and those shown or dropped. */
  datatype State = State(
    slots: seq<Slot>, size: int, windex: nat, rindex: nat, allocEvent: bool,
    producer: Producer, consumer: Consumer,
    called: seq<int>, queued: seq<int>, taken: seq<int>, dropping: bool)

  const START: State :=
    State([Slot(false, false, Blank), Slot(false, false, Blank)], 0, 0, 0, false, Idle, Polling, [], [], [], false)

  datatype Action =
    | Call(picture: int)            // queue_picture is called
    | CheckSpace                    // the test of the count, under the mutex
    | Inspect(resize: bool)         // is there an overlay of the right size?
    | CheckOverlay                  // the test of the allocated flag, under the mutex
    | BeginWrite
    | EndWrite
    | AdvanceWrite                  // windex moves
    | CountUp                       // the count moves, under the mutex
    | TakeAllocEvent                // the main thread starts alloc_picture
    | FinishAlloc                   // the allocated flag is set and signalled, under the mutex
    | TakeRefreshEvent
    | LookAtCount                   // is there a picture?
    | LookAgain(early: bool)        // its time has not come, or is there a second one?
    | Decide(drop: bool)            // drop it or show it
    | EndShow
    | AdvanceRead                   // rindex moves
    | CountDown                     // the count moves and is signalled, under the mutex

  predicate Enabled(s: State, a: Action) {
    match a
    case Call(_) => s.producer.Idle?
    case CheckSpace => s.producer.CheckingSpace?
    case Inspect(_) => s.producer.Inspecting?
    case CheckOverlay => s.producer.CheckingOverlay?
    case BeginWrite => s.producer.Filling?
    case EndWrite => s.producer.Writing?
    case AdvanceWrite => s.producer.Written?
    case CountUp => s.producer.Counting?
    case TakeAllocEvent => s.consumer.Polling? && s.allocEvent
    case FinishAlloc => s.consumer.Allocating?
    case TakeRefreshEvent => s.consumer.Polling?
    case LookAtCount => s.consumer.Refreshing?
    case LookAgain(_) => s.consumer.Looking?
    case Decide(_) => s.consumer.Looking? || s.consumer.Ahead?
    case EndShow => s.consumer.Showing?
    case AdvanceRead => s.consumer.Leaving?
    case CountDown => s.consumer.Uncounting?
  }

  predicate WellFormed(s: State) {
    |s.slots| == SIZE && s.windex < SIZE && s.rindex < SIZE
  }

  /** The index after the next one: `if (++index == SIZE) index = 0`. */
  function Advanced(index: nat): nat {
    if index + 1 == SIZE then 0 else index + 1
  }

  /** A signal on the condition variable: a sleeper gets to test its condition again. */
  function Signalled(p: Producer): Producer {
    match p
    case SleepingOnSpace(x) => CheckingSpace(x)
    case SleepingOnOverlay(x) => CheckingOverlay(x)
    case _ => p
  }

  function Next(s: State, a: Action): (t: State)
    requires WellFormed(s) && Enabled(s, a)
    ensures WellFormed(t)
  {
    match a
    case Call(picture) => s.(producer := CheckingSpace(picture), called := s.called + [picture])
    case CheckSpace =>
      if s.size >= SIZE then s.(producer := SleepingOnSpace(s.producer.picture))
      else s.(producer := Inspecting(s.producer.picture))
    case Inspect(resize) =>
      if !s.slots[s.windex].bmp || resize then
        s.(slots := s.slots[s.windex := s.slots[s.windex].(ready := false)], allocEvent := true,
           producer := CheckingOverlay(s.producer.picture))
      else s.(producer := Filling(s.producer.picture))
    case CheckOverlay =>
      if s.slots[s.windex].ready then s.(producer := Filling(s.producer.picture))
      else s.(producer := SleepingOnOverlay(s.producer.picture))
    case BeginWrite =>
      if s.slots[s.windex].bmp then
        s.(slots := s.slots[s.windex := s.slots[s.windex].(content := Torn)], producer := Writing(s.producer.picture))
      else s.(producer := Idle)
    case EndWrite =>
      s.(slots := s.slots[s.windex := s.slots[s.windex].(content := Whole(s.producer.picture))],
         producer := Written(s.producer.picture))
    case AdvanceWrite =>
      s.(windex := Advanced(s.windex), queued := s.queued + [s.producer.picture], producer := Counting)
    case CountUp => s.(size := s.size + 1, producer := Idle)
    case TakeAllocEvent =>
      s.(allocEvent := false, consumer := Allocating,
         slots := s.slots[s.windex := s.slots[s.windex].(bmp := true, content := Blank)])
    case FinishAlloc =>
      s.(slots := s.slots[s.windex := s.slots[s.windex].(ready := true)], consumer := Polling,
         producer := Signalled(s.producer))
    case TakeRefreshEvent => s.(consumer := Refreshing)
    case LookAtCount => s.(consumer := if s.size == 0 then Polling else Looking)
    case LookAgain(early) =>
      s.(consumer := if early then Polling else if s.size > 1 then Ahead else Looking)
    case Decide(drop) =>
      if drop then s.(consumer := Leaving, dropping := true, taken := s.taken + Seen(s))
      else s.(consumer := Showing, dropping := false)
    case EndShow => s.(consumer := Leaving, taken := s.taken + Seen(s))
    case AdvanceRead => s.(rindex := Advanced(s.rindex), consumer := Uncounting(s.dropping))
    case CountDown =>
      s.(size := s.size - 1, consumer := if s.consumer.again then Refreshing else Polling, producer := Signalled(s.producer))
  }

  /** The picture in the slot at rindex, if it holds one. */
  function Seen(s: State): seq<int>
    requires WellFormed(s)
  {
    if s.slots[s.rindex].content.Whole? then [s.slots[s.rindex].content.picture] else []
  }

  /** One step of a run; a step that is not possible changes nothing. */
  function Do(s: State, a: Action): (t: State)
    requires WellFormed(s)
    ensures WellFormed(t)
  {
    if Enabled(s, a) then Next(s, a) else s
  }

  // ----- the invariant ------------------------------------------------------------------------

  predicate Owns(p: Producer) {
    p.Inspecting? || p.CheckingOverlay? || p.SleepingOnOverlay? || p.Filling? || p.Writing? || p.Written? || p.Counting?
  }

  predicate AwaitsOverlay(p: Producer) {
    p.CheckingOverlay? || p.SleepingOnOverlay?
  }

  predicate Reads(c: Consumer) {
    c.Looking? || c.Ahead? || c.Showing? || c.Leaving?
  }

  function Bit(b: bool): nat {
    if b then 1 else 0
  }

  /** The slot of the n-th picture. */
  function Index(n: int): (i: nat)
    ensures i < SIZE
  {
    n % SIZE
  }

  /** How often rindex has moved: once for every picture taken, save one just taken. */
  function Moves(s: State): int {
    |s.taken| - Bit(s.consumer.Leaving?)
  }

  /** The count is behind both indices while they are being moved. */
  predicate Counts(s: State) {
    && WellFormed(s) && 0 <= Moves(s)
    && s.windex == Index(|s.queued|) && s.rindex == Index(Moves(s))
    && s.size == (|s.queued| - Bit(s.producer.Counting?)) - (Moves(s) - Bit(s.consumer.Uncounting?))
    && 0 <= s.size <= SIZE
    && (Owns(s.producer) ==> s.size < SIZE)
    && (s.producer.SleepingOnSpace? ==> s.size >= SIZE)
    && (Reads(s.consumer) || s.consumer.Uncounting? ==> s.size >= 1)
    && (s.consumer.Ahead? ==> s.size == SIZE)
  }

  /** The slots from rindex up to windex hold the queued pictures, in order. */
  predicate Contents(s: State)
    requires WellFormed(s)
  {
    && 0 <= Moves(s) <= |s.queued|
    && forall k :: Moves(s) <= k < |s.queued| ==> s.slots[Index(k)].bmp && s.slots[Index(k)].content == Whole(s.queued[k])
  }

  predicate Overlay(s: State)
    requires WellFormed(s)
  {
    && (s.allocEvent ==> AwaitsOverlay(s.producer) && !s.slots[s.windex].ready && !s.consumer.Allocating?)
    && (s.consumer.Allocating? ==> AwaitsOverlay(s.producer) && !s.slots[s.windex].ready && s.slots[s.windex].bmp)
    && (AwaitsOverlay(s.producer) ==> s.allocEvent || s.consumer.Allocating? || (s.slots[s.windex].ready && s.slots[s.windex].bmp))
    && (s.producer.SleepingOnOverlay? ==> !s.slots[s.windex].ready)
    && (s.producer.Filling? || s.producer.Writing? || s.producer.Written? ==> s.slots[s.windex].bmp)
    && (s.producer.Written? ==> s.slots[s.windex].content == Whole(s.producer.picture))
  }

  /** Every picture handed over is queued, in order, and the pictures taken are the first queued. */
  predicate History(s: State) {
    && s.called == s.queued + Pending(s.producer)
    && |s.taken| <= |s.queued| && s.taken == s.queued[..|s.taken|]
  }

  function Pending(p: Producer): seq<int> {
    if p.Idle? || p.Counting? then [] else [p.picture]
  }

  predicate Invariant(s: State) {
    Counts(s) && Contents(s) && Overlay(s) && History(s)
  }

  lemma StartHolds()
    ensures Invariant(START)
  {
  }

  /** What the main thread reads at rindex is the first queued picture not yet taken. */
  lemma SeenIsNext(s: State)
    requires Counts(s) && Contents(s) && Reads(s.consumer) && !s.consumer.Leaving?
    ensures |s.taken| < |s.queued| && Seen(s) == [s.queued[|s.taken|]]
  {
    assert s.slots[Index(|s.taken|)].content == Whole(s.queued[|s.taken|]);
  }

  lemma Wraps(n: int)
    ensures Advanced(Index(n)) == Index(n + 1)
  {
  }

  predicate OfProducer(a: Action) {
    a.Call? || a.CheckSpace? || a.Inspect? || a.CheckOverlay? || a.BeginWrite? || a.EndWrite? || a.AdvanceWrite? || a.CountUp?
  }

  lemma ProducerKeepsCounts(s: State, a: Action)
    requires Counts(s) && OfProducer(a) && Enabled(s, a)
    requires s.producer.Filling? ==> s.slots[s.windex].bmp
    ensures Counts(Next(s, a))
  {
    hide Advanced, Index;
    Wraps(|s.queued|);
  }

  lemma ConsumerKeepsCounts(s: State, a: Action)
    requires Counts(s) && !OfProducer(a) && Enabled(s, a)
    requires Reads(s.consumer) && !s.consumer.Leaving? ==> |Seen(s)| == 1
    requires s.consumer.Allocating? || a.TakeAllocEvent? ==> AwaitsOverlay(s.producer)
    ensures Counts(Next(s, a))
  {
    hide Advanced, Index, Seen;
    Wraps(Moves(s));
  }

  lemma StepKeepsCounts(s: State, a: Action)
    requires Invariant(s) && Enabled(s, a)
    ensures Counts(Next(s, a))
  {
    hide Next, Contents, Counts, History, Seen;
    if Reads(s.consumer) && !s.consumer.Leaving? {
      SeenIsNext(s);
    }
    if OfProducer(a) {
      ProducerKeepsCounts(s, a);
    } else {
      ConsumerKeepsCounts(s, a);
    }
  }

  /** The slot the decoder thread is about to fill holds no picture still to be taken. */
  lemma FreeSlot(s: State)
    requires Counts(s) && Owns(s.producer) && !s.producer.Counting?
    ensures forall k :: Moves(s) <= k < |s.queued| ==> Index(k) != s.windex
  {
    hide Reads;
    assert |s.queued| - Moves(s) <= 1;
  }

  /** The facts about indices that the contents need. */
  predicate Placed(s: State) {
    && WellFormed(s) && s.windex == Index(|s.queued|)
    && (Owns(s.producer) && !s.producer.Counting? ==> forall k :: Moves(s) <= k < |s.queued| ==> Index(k) != s.windex)
    && (Reads(s.consumer) ==> Moves(s) < |s.queued|)
  }

  lemma IsPlaced(s: State)
    requires Invariant(s)
    ensures Placed(s) && (Reads(s.consumer) && !s.consumer.Leaving? ==> |Seen(s)| == 1)
  {
    hide Contents, Overlay, History, Index, Seen;
    if Owns(s.producer) && !s.producer.Counting? {
      FreeSlot(s);
    }
    if Reads(s.consumer) && !s.consumer.Leaving? {
      SeenIsNext(s);
    }
  }

  lemma StepKeepsContents(s: State, a: Action)
    requires Invariant(s) && Enabled(s, a)
    ensures Contents(Next(s, a))
  {
    IsPlaced(s);
    if OfProducer(a) {
      ProducerKeepsContents(s, a);
    } else {
      ConsumerKeepsContents(s, a);
    }
    hide Next, Contents, Counts, History, Index, Placed, Seen;
  }

  lemma ProducerKeepsContents(s: State, a: Action)
    requires WellFormed(s) && Placed(s) && Contents(s) && Overlay(s) && OfProducer(a) && Enabled(s, a)
    ensures Contents(Next(s, a))
  {
    hide Index, Advanced, Signalled, Reads;
  }

  lemma ConsumerKeepsContents(s: State, a: Action)
    requires WellFormed(s) && Placed(s) && Contents(s) && Overlay(s) && !OfProducer(a) && Enabled(s, a)
    requires Reads(s.consumer) && !s.consumer.Leaving? ==> |Seen(s)| == 1
    ensures Contents(Next(s, a))
  {
    hide Index, Advanced, Signalled, Seen;
  }

  lemma StepKeepsOverlay(s: State, a: Action)
    requires Invariant(s) && Enabled(s, a)
    ensures Overlay(Next(s, a))
  {
  }

  lemma ProducerKeepsHistory(s: State, a: Action)
    requires WellFormed(s) && History(s) && OfProducer(a) && Enabled(s, a)
    requires s.producer.Filling? ==> s.slots[s.windex].bmp
    ensures History(Next(s, a))
  {
    hide Advanced, Signalled;
  }

  lemma ConsumerKeepsHistory(s: State, a: Action)
    requires WellFormed(s) && History(s) && !OfProducer(a) && Enabled(s, a)
    requires Reads(s.consumer) && !s.consumer.Leaving? ==> |s.taken| < |s.queued| && Seen(s) == [s.queued[|s.taken|]]
    ensures History(Next(s, a))
  {
    hide Advanced, Seen;
  }

  lemma StepKeepsHistory(s: State, a: Action)
    requires Invariant(s) && Enabled(s, a)
    ensures History(Next(s, a))
  {
    if Reads(s.consumer) && !s.consumer.Leaving? {
      SeenIsNext(s);
    }
    if OfProducer(a) {
      ProducerKeepsHistory(s, a);
    } else {
      ConsumerKeepsHistory(s, a);
    }
    hide Next, Contents, Counts, History, Seen;
  }

  // ----- every run ------------------------------------------------------------------------------

  /** The state a run leads to. */
  function After(s: State, run: seq<Action>): (t: State)
    requires WellFormed(s)
    ensures WellFormed(t)
  {
    if run == [] then s else Do(After(s, run[..|run| - 1]), run[|run| - 1])
  }

  lemma {:induction false} RunKeepsInvariant(s: State, run: seq<Action>)
    requires Invariant(s)
    ensures Invariant(After(s, run))
    decreases |run|
  {
    if run != [] {
      var t, a := After(s, run[..|run| - 1]), run[|run| - 1];
      RunKeepsInvariant(s, run[..|run| - 1]);
      if Enabled(t, a) {
        StepKeepsCounts(t, a);
        StepKeepsContents(t, a);
        StepKeepsOverlay(t, a);
        StepKeepsHistory(t, a);
      }
    }
  }

  lemma Reached(run: seq<Action>)
    ensures Invariant(After(START, run))
  {
    hide *;
    StartHolds();
    RunKeepsInvariant(START, run);
  }

  /** The count is in range and is the distance between the indices, up to the moves either of them
      has made before the count. */
  predicate InStep(s: State) {
    && 0 <= s.size <= SIZE
    && s.windex == (s.rindex + s.size + Bit(s.producer.Counting?) - Bit(s.consumer.Uncounting?)) % SIZE
  }

  lemma CountIsDistance(run: seq<Action>)
    ensures InStep(After(START, run))
  {
    hide After, Invariant, InStep;
    Reached(run);
    CountedDistance(After(START, run));
  }

  lemma CountedDistance(s: State)
    requires Invariant(s)
    ensures InStep(s)
  {
    hide Contents, Overlay, History, Index, Moves;
    Distance(|s.queued|, Moves(s), s.size, Bit(s.producer.Counting?) - Bit(s.consumer.Uncounting?));
  }

  lemma Distance(queued: int, moves: int, size: int, ahead: int)
    requires size + ahead == queued - moves
    ensures Index(queued) == (Index(moves) + size + ahead) % SIZE
  {
  }

  predicate Fills(p: Producer) {
    p.Filling? || p.Writing? || p.Written?
  }

  /** In every run, while the main thread reads the slot at rindex, or the one after it, the decoder
      thread is not writing that slot; and an overlay is only replaced when its slot holds no picture
      still to be taken. */
  lemma NoSlotIsShared(run: seq<Action>)
    ensures var s := After(START, run);
      && (Reads(s.consumer) && Fills(s.producer) ==> s.windex != s.rindex && !s.consumer.Ahead?)
      && (Enabled(s, TakeAllocEvent) ==> forall k :: Moves(s) <= k < |s.queued| ==> Index(k) != s.windex)
  {
    Reached(run);
    NotShared(After(START, run));
    hide *;
  }

  lemma NotShared(s: State)
    requires Invariant(s)
    ensures Reads(s.consumer) && Fills(s.producer) ==> s.windex != s.rindex && !s.consumer.Ahead?
    ensures Enabled(s, TakeAllocEvent) ==> forall k :: Moves(s) <= k < |s.queued| ==> Index(k) != s.windex
  {
    hide Contents, History, Index;
    IsPlaced(s);
  }

  /** In every run the pictures taken are the first pictures handed to queue_picture, in order and
      without gaps, and each is read whole; at most SIZE wait in the ring. */
  lemma TakenInOrder(run: seq<Action>)
    ensures var s := After(START, run);
      && |s.taken| <= |s.called| <= |s.taken| + SIZE + 1 && s.taken == s.called[..|s.taken|]
      && (Reads(s.consumer) && !s.consumer.Leaving? ==>
            |s.taken| < |s.called| && s.slots[s.rindex].content == Whole(s.called[|s.taken|]))
  {
    Reached(run);
    Ordered(After(START, run));
    hide *;
  }

  lemma Ordered(s: State)
    requires Invariant(s)
    ensures |s.taken| <= |s.called| <= |s.taken| + SIZE + 1 && s.taken == s.called[..|s.taken|]
    ensures Reads(s.consumer) && !s.consumer.Leaving? ==>
              |s.taken| < |s.called| && s.slots[s.rindex].content == Whole(s.called[|s.taken|])
  {
    hide Contents, Overlay, Index;
    assert s.called[..|s.taken|] == s.queued[..|s.taken|];
    if Reads(s.consumer) && !s.consumer.Leaving? {
      SeenIsNext(s);
    }
  }

  /** Steps of the main thread that show a picture and free its slot; those that do not apply are
      skipped. */
  const SHOW_ONE: seq<Action> := [TakeRefreshEvent, LookAtCount, Decide(false)] + [EndShow, AdvanceRead, CountDown]

  const FINISH_REFRESH: seq<Action> := [Decide(false), EndShow, AdvanceRead] + [CountDown, LookAtCount, LookAgain(true)]

  /** Steps of the main thread that finish what it is at and then serve the allocation request. */
  const SERVE_ALLOC: seq<Action> :=
    FINISH_REFRESH + [TakeAllocEvent] + [FinishAlloc]

  /** No wake-up is lost: wherever a run leaves the decoder thread asleep, steps of the main thread
      alone wake it with its condition met. */
  lemma SleeperCanWake(run: seq<Action>)
    ensures var s := After(START, run);
      s.producer.SleepingOnSpace? ==>
        var t := After(s, SHOW_ONE); t.producer == CheckingSpace(s.producer.picture) && t.size < SIZE
    ensures var s := After(START, run);
      s.producer.SleepingOnOverlay? ==>
        var t := After(s, SERVE_ALLOC); t.producer == CheckingOverlay(s.producer.picture) && t.slots[t.windex].ready
  {
    hide After, Invariant;
    Reached(run);
    var s := After(START, run);
    if s.producer.SleepingOnSpace? {
      WakesOnSpace(s);
    } else if s.producer.SleepingOnOverlay? {
      WakesOnOverlay(s);
    }
  }

  lemma WakesOnSpace(s: State)
    requires Invariant(s) && s.producer.SleepingOnSpace?
    ensures var t := After(s, SHOW_ONE); t.producer == CheckingSpace(s.producer.picture) && t.size < SIZE
  {
    FullWhileAsleep(s);
    AfterSix(s, TakeRefreshEvent, LookAtCount, Decide(false), EndShow, AdvanceRead, CountDown);
    var s2 := Do(Do(s, TakeRefreshEvent), LookAtCount);
    FindsPicture(s, s2);
    var s4 := Do(Do(s2, Decide(false)), EndShow);
    ShowsPicture(s2, s4);
    FreesSlot(s4, Do(Do(s4, AdvanceRead), CountDown));
    hide Do, After, Invariant;
  }

  lemma FullWhileAsleep(s: State)
    requires Invariant(s) && s.producer.SleepingOnSpace?
    ensures s.size == SIZE && !s.consumer.Allocating?
  {
    hide Contents, History, Index, Moves;
  }

  lemma FindsPicture(s: State, t: State)
    requires WellFormed(s) && s.size == SIZE && !s.consumer.Allocating? && t == Do(Do(s, TakeRefreshEvent), LookAtCount)
    ensures t.size == SIZE && t.producer == s.producer && (Reads(t.consumer) || t.consumer.Uncounting?)
  {
    hide Advanced, Seen, Signalled;
  }

  lemma ShowsPicture(s: State, t: State)
    requires WellFormed(s) && (Reads(s.consumer) || s.consumer.Uncounting?) && t == Do(Do(s, Decide(false)), EndShow)
    ensures t.size == s.size && t.producer == s.producer && (t.consumer.Leaving? || t.consumer.Uncounting?)
  {
    hide Advanced, Seen, Signalled;
  }

  lemma FreesSlot(s: State, t: State)
    requires WellFormed(s) && (s.consumer.Leaving? || s.consumer.Uncounting?) && t == Do(Do(s, AdvanceRead), CountDown)
    ensures t.size == s.size - 1 && t.producer == Signalled(s.producer)
  {
    hide Advanced, Seen;
  }

  lemma AfterOneMore(s: State, run: seq<Action>, a: Action)
    requires WellFormed(s)
    ensures After(s, run + [a]) == Do(After(s, run), a)
  {
    hide Do;
    assert (run + [a])[..|run|] == run;
  }

  lemma AfterThree(s: State, run: seq<Action>, a: Action, b: Action, c: Action)
    requires WellFormed(s)
    ensures After(s, run + [a, b, c]) == Do(Do(Do(After(s, run), a), b), c)
  {
    hide Do, After;
    AfterOneMore(s, run, a);
    AfterOneMore(s, run + [a], b);
    AfterOneMore(s, run + [a] + [b], c);
    assert run + [a] + [b] + [c] == run + [a, b, c];
  }

  lemma AfterSix(s: State, a: Action, b: Action, c: Action, d: Action, e: Action, f: Action)
    requires WellFormed(s)
    ensures After(s, [a, b, c] + [d, e, f]) == Do(Do(Do(Do(Do(Do(s, a), b), c), d), e), f)
  {
    hide Do, After;
    FromNothing(s, a, b, c);
    AfterThree(s, [a, b, c], d, e, f);
  }

  lemma FromNothing(s: State, a: Action, b: Action, c: Action)
    requires WellFormed(s)
    ensures After(s, [a, b, c]) == Do(Do(Do(s, a), b), c)
  {
    hide Do;
    AfterThree(s, [], a, b, c);
    assert [] + [a, b, c] == [a, b, c];
  }

  /** A step of the main thread leaves the decoder thread waiting for its overlay. */
  lemma StillAwaits(s: State, a: Action)
    requires WellFormed(s) && AwaitsOverlay(s.producer) && !OfProducer(a)
    ensures var t := Do(s, a); AwaitsOverlay(t.producer) && t.producer.picture == s.producer.picture
  {
  }

  /** Finishing the refresh leaves the main thread polling, or allocating if it was. */
  lemma FinishesRefresh(s: State)
    requires Invariant(s) && AwaitsOverlay(s.producer)
    ensures var t := After(s, FINISH_REFRESH);
      && Invariant(t) && AwaitsOverlay(t.producer) && t.producer.picture == s.producer.picture
      && (t.consumer.Polling? || t.consumer.Allocating?)
  {
    RunKeepsInvariant(s, FINISH_REFRESH);
    AfterSix(s, Decide(false), EndShow, AdvanceRead, CountDown, LookAtCount, LookAgain(true));
    hide After, Invariant, Seen, Advanced;
    StillAwaits(s, Decide(false));
    var s1 := Do(s, Decide(false));
    StillAwaits(s1, EndShow);
    var s2 := Do(s1, EndShow);
    StillAwaits(s2, AdvanceRead);
    var s3 := Do(s2, AdvanceRead);
    StillAwaits(s3, CountDown);
    var s4 := Do(s3, CountDown);
    StillAwaits(s4, LookAtCount);
    var s5 := Do(s4, LookAtCount);
    StillAwaits(s5, LookAgain(true));
    ShowsOrWaits(s, s1, s2);
    LeavesOrWaits(s2, s3, s4);
    LooksOrWaits(s4, s5, Do(s5, LookAgain(true)));
    hide Do;
  }

  lemma ShowsOrWaits(s: State, s1: State, s2: State)
    requires WellFormed(s) && s1 == Do(s, Decide(false)) && s2 == Do(s1, EndShow)
    ensures !s2.consumer.Looking? && !s2.consumer.Ahead? && !s2.consumer.Showing?
  {
  }

  lemma LeavesOrWaits(s2: State, s3: State, s4: State)
    requires WellFormed(s2) && s3 == Do(s2, AdvanceRead) && s4 == Do(s3, CountDown)
    requires !s2.consumer.Looking? && !s2.consumer.Ahead? && !s2.consumer.Showing?
    ensures s4.consumer.Polling? || s4.consumer.Allocating? || s4.consumer.Refreshing?
  {
  }

  lemma LooksOrWaits(s4: State, s5: State, s6: State)
    requires WellFormed(s4) && s5 == Do(s4, LookAtCount) && s6 == Do(s5, LookAgain(true))
    requires s4.consumer.Polling? || s4.consumer.Allocating? || s4.consumer.Refreshing?
    ensures s6.consumer.Polling? || s6.consumer.Allocating?
  {
  }

  lemma ServesAlloc(s: State)
    requires Invariant(s) && AwaitsOverlay(s.producer) && (s.consumer.Polling? || s.consumer.Allocating?)
    ensures var t := Do(Do(s, TakeAllocEvent), FinishAlloc);
      t.producer == CheckingOverlay(s.producer.picture) && t.slots[t.windex].ready
  {
    hide Contents, History, Counts;
  }

  lemma WakesOnOverlay(s: State)
    requires Invariant(s) && s.producer.SleepingOnOverlay?
    ensures var t := After(s, SERVE_ALLOC); t.producer == CheckingOverlay(s.producer.picture) && t.slots[t.windex].ready
  {
    FinishesRefresh(s);
    var u := After(s, FINISH_REFRESH);
    AfterOneMore(s, FINISH_REFRESH, TakeAllocEvent);
    AfterOneMore(s, FINISH_REFRESH + [TakeAllocEvent], FinishAlloc);
    ServesAlloc(u);
    hide After, Invariant, Do;
  }
}
