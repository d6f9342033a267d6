/** The bounded queue that prefers the newest item, as the detection pipeline, the
    activity pipeline and the observation sink all write it: put, and when there is no
    room take the oldest out and put again, while a consumer drains it. Each queue
    operation and each counter increment is one step of one producer. */
module DropQueue {

  /** An item taken out, by an evicting producer or by the consumer. */
  datatype Taken<T> = Taken(item: T, evicted: bool)

  /** `accepted` and `removed` are history, in order; `refused` counts second puts that
      found the queue full again. A capacity of zero or less means no bound. */
  datatype Shared<T> = Shared(
    capacity: int, queue: seq<T>, queued: int, evicted: int, dropped: int,
    accepted: seq<T>, removed: seq<Taken<T>>, refused: nat)

  function Empty<T>(capacity: int): Shared<T> {
    Shared(capacity, [], 0, 0, 0, [], [], 0)
  }

  // ---- the queue's operations -----------------------------------------------------------------

  predicate Full<T>(s: Shared<T>) {
    s.capacity > 0 && |s.queue| >= s.capacity
  }

  function Put<T>(s: Shared<T>, x: T): Shared<T> {
    s.(queue := s.queue + [x], accepted := s.accepted + [x])
  }

  /** The oldest item taken out, if there is one. */
  function Take<T>(s: Shared<T>, evicted: bool): Shared<T> {
    if s.queue == [] then s
    else s.(queue := s.queue[1..], removed := s.removed + [Taken(s.queue[0], evicted)])
  }

  function CountQueued<T>(s: Shared<T>): Shared<T> { s.(queued := s.queued + 1) }

  function CountEvicted<T>(s: Shared<T>): Shared<T> { s.(evicted := s.evicted + 1) }

  function CountDropped<T>(s: Shared<T>): Shared<T> { s.(dropped := s.dropped + 1) }

  function Refuse<T>(s: Shared<T>): Shared<T> { s.(refused := s.refused + 1) }

  // ---- producers and the consumer ---------------------------------------------------------------

  /** Where a producer is in its submit. */
  datatype Pc<T> =
    | Idle
    | First(item: T)
    | Evicting(item: T)
    | Evicted(item: T)
    | Second(item: T)
    | Accepted(item: T)
    | Refused(item: T)

  datatype System<T> = System(shared: Shared<T>, pcs: seq<Pc<T>>, submitted: nat)

  datatype Step<T> = Submit(producer: nat, item: T) | Advance(producer: nat) | Consume

  predicate Able<T>(y: System<T>, step: Step<T>) {
    match step
    case Submit(p, _) => p < |y.pcs| && y.pcs[p].Idle?
    case Advance(p) => p < |y.pcs| && !y.pcs[p].Idle?
    case Consume => true
  }

  /** What the next step of a producer does to the queue and the counters. */
  function Effect<T>(s: Shared<T>, pc: Pc<T>): Shared<T> {
    match pc
    case Idle => s
    case First(x) => if Full(s) then s else Put(s, x)
    case Evicting(_) => Take(s, true)
    case Evicted(_) => CountEvicted(s)
    case Second(x) => if Full(s) then Refuse(s) else Put(s, x)
    case Accepted(_) => CountQueued(s)
    case Refused(_) => CountDropped(s)
  }

  function Onward<T>(s: Shared<T>, pc: Pc<T>): Pc<T> {
    match pc
    case Idle => Idle
    case First(x) => if Full(s) then Evicting(x) else Accepted(x)
    case Evicting(x) => if s.queue == [] then Second(x) else Evicted(x)
    case Evicted(x) => Second(x)
    case Second(x) => if Full(s) then Refused(x) else Accepted(x)
    case Accepted(_) => Idle
    case Refused(_) => Idle
  }

  function Next<T>(y: System<T>, step: Step<T>): System<T>
    requires Able(y, step)
  {
    match step
    case Submit(p, x) => y.(pcs := y.pcs[p := First(x)], submitted := y.submitted + 1)
    case Advance(p) => y.(shared := Effect(y.shared, y.pcs[p]), pcs := y.pcs[p := Onward(y.shared, y.pcs[p])])
    case Consume => y.(shared := Take(y.shared, false))
  }

  function Begin<T>(capacity: int, producers: nat): System<T> {
    System(Empty(capacity), seq(producers, _ => Idle), 0)
  }

  function Run<T>(capacity: int, producers: nat, steps: seq<Step<T>>): System<T> {
    if steps == [] then Begin(capacity, producers)
    else
      var y := Run(capacity, producers, steps[..|steps| - 1]);
      if Able(y, steps[|steps| - 1]) then Next(y, steps[|steps| - 1]) else y
  }

  // ---- order -------------------------------------------------------------------------------------

  function Items<T>(removed: seq<Taken<T>>): (items: seq<T>)
    ensures |items| == |removed| && forall i :: 0 <= i < |removed| ==> items[i] == removed[i].item
  {
    seq(|removed|, i requires 0 <= i < |removed| => removed[i].item)
  }

  /** What came out one way, in order. */
  function Which<T>(removed: seq<Taken<T>>, evicted: bool): seq<T> {
    if removed == [] then []
    else
      var last := removed[|removed| - 1];
      Which(removed[..|removed| - 1], evicted) + (if last.evicted == evicted then [last.item] else [])
  }

  /** Items leave in the order they were accepted, and none is lost on the way. */
  ghost predicate InOrder<T>(s: Shared<T>) {
    s.accepted == Items(s.removed) + s.queue
  }

  lemma {:induction false} PutInOrder<T>(s: Shared<T>, x: T)
    requires InOrder(s)
    ensures InOrder(Put(s, x))
  {
    assert s.accepted + [x] == Items(s.removed) + (s.queue + [x]);
  }

  lemma {:induction false} TakeInOrder<T>(s: Shared<T>, evicted: bool)
    requires InOrder(s)
    ensures InOrder(Take(s, evicted))
  {
    if s.queue != [] {
      assert Items(s.removed + [Taken(s.queue[0], evicted)]) == Items(s.removed) + [s.queue[0]];
      assert s.queue == [s.queue[0]] + s.queue[1..];
    }
  }

  // ---- counting -------------------------------------------------------------------------------------

  /** What a producer still owes: 0 an item to place, 1 a queued count, 2 an evicted
      count, 3 a dropped count. An evicting producer may owe two. */
  predicate Owes<T>(pc: Pc<T>, debt: nat) {
    match pc
    case Idle => false
    case First(_) => debt == 0
    case Evicting(_) => debt == 0
    case Evicted(_) => debt == 0 || debt == 2
    case Second(_) => debt == 0
    case Accepted(_) => debt == 1
    case Refused(_) => debt == 3
  }

  function One(b: bool): nat { if b then 1 else 0 }

  function Owing<T>(pcs: seq<Pc<T>>, debt: nat): nat {
    if pcs == [] then 0 else Owing(pcs[..|pcs| - 1], debt) + One(Owes(pcs[|pcs| - 1], debt))
  }

  lemma {:induction false} OwingUpdate<T>(pcs: seq<Pc<T>>, p: nat, pc: Pc<T>, debt: nat)
    requires p < |pcs|
    ensures Owing(pcs[p := pc], debt) + One(Owes(pcs[p], debt)) == Owing(pcs, debt) + One(Owes(pc, debt))
  {
    hide Owes;
    var init := pcs[..|pcs| - 1];
    if p == |pcs| - 1 {
      assert pcs[p := pc][..|pcs| - 1] == init;
    } else {
      assert pcs[p := pc][..|pcs| - 1] == init[p := pc];
      OwingUpdate(init, p, pc, debt);
    }
  }

  lemma {:induction false} NobodyOwes<T>(pcs: seq<Pc<T>>, debt: nat)
    requires forall p :: 0 <= p < |pcs| ==> pcs[p].Idle?
    ensures Owing(pcs, debt) == 0
  {
    if pcs != [] {
      NobodyOwes(pcs[..|pcs| - 1], debt);
    }
  }

  ghost predicate Balanced<T>(y: System<T>) {
    && y.submitted == |y.shared.accepted| + y.shared.refused + Owing(y.pcs, 0)
    && y.shared.queued + Owing(y.pcs, 1) == |y.shared.accepted|
    && y.shared.evicted + Owing(y.pcs, 2) == |Which(y.shared.removed, true)|
    && y.shared.dropped + Owing(y.pcs, 3) == y.shared.refused
  }

  ghost predicate Kept<T>(y: System<T>) {
    InOrder(y.shared) && Balanced(y)
  }

  lemma {:induction false} WhichGrows<T>(removed: seq<Taken<T>>, x: Taken<T>, evicted: bool)
    ensures |Which(removed + [x], evicted)| == |Which(removed, evicted)| + One(x.evicted == evicted)
  {
    assert (removed + [x])[..|removed|] == removed;
  }

  lemma {:induction false} TakeBalances<T>(s: Shared<T>, evicted: bool)
    ensures |Which(Take(s, evicted).removed, true)| == |Which(s.removed, true)| + One(evicted && s.queue != [])
  {
    if s.queue != [] {
      WhichGrows(s.removed, Taken(s.queue[0], evicted), true);
    }
  }

  lemma {:induction false} EffectInOrder<T>(s: Shared<T>, pc: Pc<T>)
    requires InOrder(s)
    ensures InOrder(Effect(s, pc))
  {
    hide InOrder, Put, Take;
    match pc
    case First(x) => PutInOrder(s, x);
    case Second(x) =>
      PutInOrder(s, x);
      SameOrder(s, Refuse(s));
    case Evicting(_) => TakeInOrder(s, true);
    case _ => SameOrder(s, Effect(s, pc));
  }

  lemma {:induction false} SameOrder<T>(s: Shared<T>, t: Shared<T>)
    requires t.accepted == s.accepted && t.removed == s.removed && t.queue == s.queue
    ensures InOrder(s) ==> InOrder(t)
  {
  }

  /** What a step adds to the books, against what it pays off. */
  lemma {:induction false} EffectBalances<T>(s: Shared<T>, pc: Pc<T>)
    ensures var t := Effect(s, pc);
            var o := Onward(s, pc);
            && |t.accepted| + t.refused + One(Owes(o, 0)) == |s.accepted| + s.refused + One(Owes(pc, 0))
            && t.queued + One(Owes(o, 1)) - |t.accepted| == s.queued + One(Owes(pc, 1)) - |s.accepted|
            && t.evicted + One(Owes(o, 2)) - |Which(t.removed, true)|
               == s.evicted + One(Owes(pc, 2)) - |Which(s.removed, true)|
            && t.dropped + One(Owes(o, 3)) - t.refused == s.dropped + One(Owes(pc, 3)) - s.refused
  {
    hide Which;
    TakeBalances(s, true);
  }

  lemma {:induction false} AdvanceKeeps<T>(y: System<T>, p: nat)
    requires Kept(y) && Able(y, Advance(p))
    ensures Kept(Next(y, Advance(p)))
  {
    hide Effect, Onward, Owes, Which, InOrder;
    var pc := y.pcs[p];
    EffectInOrder(y.shared, pc);
    EffectBalances(y.shared, pc);
    OwingUpdate(y.pcs, p, Onward(y.shared, pc), 0);
    OwingUpdate(y.pcs, p, Onward(y.shared, pc), 1);
    OwingUpdate(y.pcs, p, Onward(y.shared, pc), 2);
    OwingUpdate(y.pcs, p, Onward(y.shared, pc), 3);
  }

  lemma {:induction false} SubmitKeeps<T>(y: System<T>, p: nat, x: T)
    requires Kept(y) && Able(y, Submit(p, x))
    ensures Kept(Next(y, Submit(p, x)))
  {
    hide Which, InOrder;
    OwingUpdate(y.pcs, p, First(x), 0);
    OwingUpdate(y.pcs, p, First(x), 1);
    OwingUpdate(y.pcs, p, First(x), 2);
    OwingUpdate(y.pcs, p, First(x), 3);
  }

  lemma {:induction false} ConsumeKeeps<T>(y: System<T>)
    requires Kept(y)
    ensures Kept(Next(y, Consume))
  {
    hide Which, InOrder;
    TakeInOrder(y.shared, false);
    TakeBalances(y.shared, false);
  }

  lemma {:induction false} RunKeeps<T>(capacity: int, producers: nat, steps: seq<Step<T>>)
    ensures Kept(Run(capacity, producers, steps)) && |Run(capacity, producers, steps).pcs| == producers
    ensures Run(capacity, producers, steps).shared.capacity == capacity
  {
    if steps == [] {
      var y: System<T> := Begin(capacity, producers);
      NobodyOwes(y.pcs, 0);
      NobodyOwes(y.pcs, 1);
      NobodyOwes(y.pcs, 2);
      NobodyOwes(y.pcs, 3);
      assert y.shared.accepted == Items(y.shared.removed) + y.shared.queue;
    } else {
      RunKeeps(capacity, producers, steps[..|steps| - 1]);
      var y := Run(capacity, producers, steps[..|steps| - 1]);
      hide Kept;
      var step := steps[|steps| - 1];
      if Able(y, step) {
        match step
        case Submit(p, x) => SubmitKeeps(y, p, x);
        case Advance(p) => AdvanceKeeps(y, p);
        case Consume => ConsumeKeeps(y);
      }
    }
  }

  lemma {:induction false} BothWays<T>(removed: seq<Taken<T>>)
    ensures |Which(removed, true)| + |Which(removed, false)| == |removed|
  {
    if removed != [] {
      BothWays(removed[..|removed| - 1]);
    }
  }

  ghost predicate Quiescent<T>(y: System<T>) {
    forall p :: 0 <= p < |y.pcs| ==> y.pcs[p].Idle?
  }

  /** In every interleaving of any number of producers with the consumer: items leave in
      the order they were accepted; and whenever no submit is under way, submissions are
      queued plus dropped, and queued are consumed plus evicted plus still waiting. */
  lemma {:induction false} NothingIsLost<T>(capacity: int, producers: nat, steps: seq<Step<T>>)
    ensures var y := Run(capacity, producers, steps);
            var s := y.shared;
            && s.accepted == Items(s.removed) + s.queue
            && (Quiescent(y) ==>
                  && y.submitted == s.queued + s.dropped
                  && s.queued == |Which(s.removed, false)| + s.evicted + |s.queue|)
  {
    RunKeeps(capacity, producers, steps);
    var y := Run(capacity, producers, steps);
    BothWays(y.shared.removed);
    if Quiescent(y) {
      NobodyOwes(y.pcs, 0);
      NobodyOwes(y.pcs, 1);
      NobodyOwes(y.pcs, 2);
      NobodyOwes(y.pcs, 3);
    }
  }

  // ---- one producer -------------------------------------------------------------------------------------

  /** The item last accepted is still waiting, or was consumed. */
  ghost predicate InPlace<T>(s: Shared<T>, x: T) {
    if s.queue != [] then s.queue[|s.queue| - 1] == x
    else s.removed != [] && s.removed[|s.removed| - 1] == Taken(x, false)
  }

  /** With one producer there is always room after it has evicted. */
  ghost predicate Alone<T>(y: System<T>) {
    && |y.pcs| == 1 && y.shared.refused == 0
    && (y.shared.capacity > 0 ==> |y.shared.queue| <= y.shared.capacity)
    && match y.pcs[0]
       case Evicted(_) => !Full(y.shared)
       case Second(_) => !Full(y.shared)
       case Accepted(x) => InPlace(y.shared, x)
       case Refused(_) => false
       case _ => true
  }

  lemma {:induction false} AloneStays<T>(y: System<T>, step: Step<T>)
    requires Alone(y) && Able(y, step)
    ensures Alone(Next(y, step))
  {
  }

  lemma {:induction false} AloneRuns<T>(capacity: int, steps: seq<Step<T>>)
    ensures Alone(Run(capacity, 1, steps))
  {
    if steps != [] {
      AloneRuns(capacity, steps[..|steps| - 1]);
      var y := Run(capacity, 1, steps[..|steps| - 1]);
      if Able(y, steps[|steps| - 1]) {
        AloneStays(y, steps[|steps| - 1]);
      }
    }
  }

  /** With a single producer nothing is ever dropped, and as each submit returns its item
      is waiting in the queue or has been consumed. */
  lemma {:induction false} OneProducerLosesNothing<T>(capacity: int, steps: seq<Step<T>>)
    ensures var y := Run(capacity, 1, steps);
            && |y.pcs| == 1 && y.shared.dropped == 0
            && (y.pcs[0].Accepted? ==> InPlace(y.shared, y.pcs[0].item) && Next(y, Advance(0)).pcs[0].Idle?)
            && !y.pcs[0].Refused?
  {
    AloneRuns(capacity, steps);
    RunKeeps(capacity, 1, steps);
    var y := Run(capacity, 1, steps);
    assert y.pcs[..0] == [];
    assert Owing(y.pcs, 3) == Owing(y.pcs[..0], 3) + One(Owes(y.pcs[0], 3));
  }

  // ---- the bound -------------------------------------------------------------------------------------

  /** A put has room exactly when there is no bound or the queue is short of it: then the item
      goes to the end, and otherwise the queue stays as it is. */
  lemma {:induction false} PutsWhileRoom<T>(y: System<T>, p: nat)
    requires p < |y.pcs| && (y.pcs[p].First? || y.pcs[p].Second?)
    ensures var z := Next(y, Advance(p));
            var room := y.shared.capacity <= 0 || |y.shared.queue| < y.shared.capacity;
            && z.shared.queue == (if room then y.shared.queue + [y.pcs[p].item] else y.shared.queue)
            && z.pcs[p] == (if room then Accepted(y.pcs[p].item)
                            else if y.pcs[p].First? then Evicting(y.pcs[p].item) else Refused(y.pcs[p].item))
  {
  }

  /** In every interleaving a bounded queue stays within its bound. */
  lemma {:induction false} NeverOverCapacity<T>(capacity: int, producers: nat, steps: seq<Step<T>>)
    ensures capacity > 0 ==> |Run(capacity, producers, steps).shared.queue| <= capacity
  {
    if steps != [] {
      NeverOverCapacity(capacity, producers, steps[..|steps| - 1]);
      RunKeeps(capacity, producers, steps[..|steps| - 1]);
      hide Kept;
    }
  }

  // ---- when nothing is ever dropped --------------------------------------------------------------------

  ghost predicate NeverDrops<T(!new)>(capacity: int, producers: nat) {
    forall steps: seq<Step<T>> :: Run(capacity, producers, steps).shared.dropped == 0
  }

  /** Without a bound no put is refused. */
  lemma {:induction false} UnboundedRefusesNothing<T>(capacity: int, producers: nat, steps: seq<Step<T>>)
    requires capacity <= 0
    ensures Run(capacity, producers, steps).shared.refused == 0
  {
    if steps != [] {
      UnboundedRefusesNothing(capacity, producers, steps[..|steps| - 1]);
      RunKeeps(capacity, producers, steps[..|steps| - 1]);
      hide Kept;
    }
  }

  lemma {:induction false} NobodyDrops<T>(capacity: int, steps: seq<Step<T>>)
    ensures Run(capacity, 0, steps).shared.dropped == 0
  {
    if steps != [] {
      NobodyDrops(capacity, steps[..|steps| - 1]);
      RunKeeps(capacity, 0, steps[..|steps| - 1]);
      hide Kept;
    }
  }

  /** The queue holds n items, the first producer is at a, the second at b. */
  ghost predicate Stands<T>(y: System<T>, n: nat, a: Pc<T>, b: Pc<T>, dropped: int) {
    |y.pcs| >= 2 && y.pcs[0] == a && y.pcs[1] == b && |y.shared.queue| == n && y.shared.dropped == dropped
  }

  lemma {:induction false} RunThen<T>(capacity: int, producers: nat, steps: seq<Step<T>>, step: Step<T>)
    ensures var y := Run(capacity, producers, steps);
            Run(capacity, producers, steps + [step]) == if Able(y, step) then Next(y, step) else y
  {
    assert (steps + [step])[..|steps|] == steps;
  }

  /** The second producer's whole submit, with room for it. */
  lemma {:induction false} SecondQueues<T>(
    capacity: int, producers: nat, steps: seq<Step<T>>, x: T, n: nat, a: Pc<T>) returns (more: seq<Step<T>>)
    requires n < capacity && Stands(Run(capacity, producers, steps), n, a, Idle, 0)
    ensures Stands(Run(capacity, producers, more), n + 1, a, Idle, 0)
  {
    RunKeeps(capacity, producers, steps);
    hide Run, Kept;
    RunThen(capacity, producers, steps, Submit(1, x));
    more := steps + [Submit(1, x)];
    RunThen(capacity, producers, more, Advance(1));
    more := more + [Advance(1)];
    RunThen(capacity, producers, more, Advance(1));
    more := more + [Advance(1)];
  }

  lemma {:induction false} Fills<T>(capacity: int, producers: nat, x: T, n: nat) returns (steps: seq<Step<T>>)
    requires n <= capacity && producers >= 2
    ensures Stands(Run(capacity, producers, steps), n, Idle, Idle, 0)
  {
    if n == 0 {
      steps := [];
    } else {
      hide Run, Stands;
      steps := Fills(capacity, producers, x, n - 1);
      steps := SecondQueues(capacity, producers, steps, x, n - 1, Idle);
    }
  }

  /** The first producer finds the queue full and makes room. */
  lemma {:induction false} FirstEvicts<T>(
    capacity: int, producers: nat, steps: seq<Step<T>>, x: T) returns (more: seq<Step<T>>)
    requires capacity > 0 && Stands(Run(capacity, producers, steps), capacity, Idle, Idle, 0)
    ensures Stands(Run(capacity, producers, more), capacity - 1, Second(x), Idle, 0)
  {
    RunKeeps(capacity, producers, steps);
    hide Run, Kept;
    RunThen(capacity, producers, steps, Submit(0, x));
    more := steps + [Submit(0, x)];
    RunThen(capacity, producers, more, Advance(0));
    more := more + [Advance(0)];
    RunThen(capacity, producers, more, Advance(0));
    more := more + [Advance(0)];
    RunThen(capacity, producers, more, Advance(0));
    more := more + [Advance(0)];
  }

  /** It finds the queue full again and drops its item. */
  lemma {:induction false} FirstDrops<T>(
    capacity: int, producers: nat, steps: seq<Step<T>>, x: T) returns (more: seq<Step<T>>)
    requires capacity > 0 && Stands(Run(capacity, producers, steps), capacity, Second(x), Idle, 0)
    ensures Stands(Run(capacity, producers, more), capacity, Idle, Idle, 1)
  {
    RunKeeps(capacity, producers, steps);
    hide Run, Kept;
    RunThen(capacity, producers, steps, Advance(0));
    more := steps + [Advance(0)];
    RunThen(capacity, producers, more, Advance(0));
    more := more + [Advance(0)];
  }

  /** Two producers can fill a queue of any capacity and drop: the one evicts to make
      room for its item, the other's slips in, and the second put is refused. */
  lemma {:induction false} TwoProducersCanDrop<T>(capacity: int, producers: nat, x: T) returns (steps: seq<Step<T>>)
    requires capacity >= 1 && producers >= 2
    ensures Stands(Run(capacity, producers, steps), capacity, Idle, Idle, 1)
  {
    hide Run, Stands;
    steps := Fills(capacity, producers, x, capacity);
    steps := FirstEvicts(capacity, producers, steps, x);
    steps := SecondQueues(capacity, producers, steps, x, capacity - 1, Second(x));
    steps := FirstDrops(capacity, producers, steps, x);
  }

  lemma {:induction false} DropsNothing<T>(capacity: int, producers: nat, steps: seq<Step<T>>)
    requires capacity <= 0 || producers <= 1
    ensures Run(capacity, producers, steps).shared.dropped == 0
  {
    if producers == 0 {
      NobodyDrops(capacity, steps);
    } else if producers == 1 {
      OneProducerLosesNothing(capacity, steps);
    } else {
      RunKeeps(capacity, producers, steps);
      UnboundedRefusesNothing(capacity, producers, steps);
      DroppedAtLeastNone(capacity, producers, steps);
    }
  }

  lemma {:induction false} DroppedAtLeastNone<T>(capacity: int, producers: nat, steps: seq<Step<T>>)
    ensures Run(capacity, producers, steps).shared.dropped >= 0
  {
    if steps != [] {
      DroppedAtLeastNone(capacity, producers, steps[..|steps| - 1]);
    }
  }

  /** No interleaving ever drops an item exactly when the queue has no bound or at most
      one producer. */
  lemma {:induction false} NeverDropsExactly<T(!new)>(capacity: int, producers: nat, x: T)
    ensures NeverDrops<T>(capacity, producers) <==> capacity <= 0 || producers <= 1
  {
    hide Run;
    if capacity <= 0 || producers <= 1 {
      forall steps: seq<Step<T>>
        ensures Run(capacity, producers, steps).shared.dropped == 0
      {
        DropsNothing(capacity, producers, steps);
      }
    } else {
      var steps := TwoProducersCanDrop(capacity, producers, x);
      assert Run(capacity, producers, steps).shared.dropped == 1;
    }
  }

  // ---- the queue in the program ---------------------------------------------------------------------------------

  /** What another thread may do between two operations of a submit: the consumer or an
      evicting producer takes the oldest, a producer puts its item in, or finds no room
      for the second time. */
  datatype Other<T> = TakesOut(evicting: bool) | PutsIn(item: T) | GivesUp

  function Did<T>(s: Shared<T>, other: Other<T>): Shared<T> {
    match other
    case TakesOut(evicting) => if evicting && s.queue != [] then CountEvicted(Take(s, true)) else Take(s, false)
    case PutsIn(x) => if Full(s) then s else CountQueued(Put(s, x))
    case GivesUp => if Full(s) then CountDropped(Refuse(s)) else s
  }

  function Others<T>(s: Shared<T>, others: seq<Other<T>>): Shared<T> {
    if others == [] then s else Did(Others(s, others[..|others| - 1]), others[|others| - 1])
  }

  /** A whole submit, with others at work after the first put and after the eviction. */
  function Submitted<T>(s: Shared<T>, x: T, early: seq<Other<T>>, late: seq<Other<T>>): Shared<T> {
    if !Full(s) then CountQueued(Put(s, x))
    else
      var t := Others(s, early);
      var u := if t.queue == [] then t else CountEvicted(Take(t, true));
      var v := Others(u, late);
      if Full(v) then CountDropped(Refuse(v)) else CountQueued(Put(v, x))
  }

  /** The books of a queue no submit is at work on. */
  ghost predicate Settled<T>(s: Shared<T>) {
    InOrder(s) && s.queued == |s.accepted| && s.evicted == |Which(s.removed, true)| && s.dropped == s.refused
  }

  lemma {:induction false} PutSettles<T>(s: Shared<T>, x: T)
    requires Settled(s)
    ensures Settled(CountQueued(Put(s, x)))
  {
    hide Which;
    PutInOrder(s, x);
  }

  lemma {:induction false} TakeSettles<T>(s: Shared<T>)
    requires Settled(s)
    ensures Settled(Take(s, false)) && (s.queue != [] ==> Settled(CountEvicted(Take(s, true))))
  {
    hide Which;
    TakeInOrder(s, false);
    TakeInOrder(s, true);
    TakeBalances(s, false);
    TakeBalances(s, true);
    SameOrder(Take(s, true), CountEvicted(Take(s, true)));
  }

  lemma {:induction false} DidSettles<T>(s: Shared<T>, other: Other<T>)
    requires Settled(s)
    ensures Settled(Did(s, other))
  {
    hide Settled;
    match other
    case TakesOut(_) => TakeSettles(s);
    case PutsIn(x) => PutSettles(s, x);
    case GivesUp => RefusalSettles(s);
  }

  lemma {:induction false} RefusalSettles<T>(s: Shared<T>)
    requires Settled(s)
    ensures Settled(CountDropped(Refuse(s)))
  {
    SameOrder(s, CountDropped(Refuse(s)));
  }

  lemma {:induction false} OthersSettle<T>(s: Shared<T>, others: seq<Other<T>>)
    requires Settled(s)
    ensures Settled(Others(s, others))
  {
    hide Settled, Did;
    if others != [] {
      OthersSettle(s, others[..|others| - 1]);
      DidSettles(Others(s, others[..|others| - 1]), others[|others| - 1]);
    }
  }

  /** A submit leaves the books settled, whoever else was at work meanwhile, consumer or
      producer: every item accepted is counted once, every eviction once, every refusal once. */
  lemma {:induction false} SubmittedSettles<T>(s: Shared<T>, x: T, early: seq<Other<T>>, late: seq<Other<T>>)
    requires Settled(s)
    ensures Settled(Submitted(s, x, early, late))
  {
    hide Settled, Others;
    PutSettles(s, x);
    var t := Others(s, early);
    OthersSettle(s, early);
    TakeSettles(t);
    var u := if t.queue == [] then t else CountEvicted(Take(t, true));
    OthersSettle(u, late);
    var v := Others(u, late);
    PutSettles(v, x);
    RefusalSettles(v);
  }

  lemma {:induction false} OthersStayWithin<T>(s: Shared<T>, others: seq<Other<T>>)
    requires s.capacity > 0 && |s.queue| <= s.capacity
    ensures Others(s, others).capacity == s.capacity && |Others(s, others).queue| <= s.capacity
  {
    if others != [] {
      OthersStayWithin(s, others[..|others| - 1]);
    }
  }

  /** Whoever else is at work, a submit keeps a bounded queue within its bound; its last put goes
      to the end when there is room, and otherwise its item is dropped, and counted. */
  lemma {:induction false} SubmittedStaysWithin<T>(s: Shared<T>, x: T, early: seq<Other<T>>, late: seq<Other<T>>)
    requires s.capacity > 0 && |s.queue| <= s.capacity
    ensures var t := Submitted(s, x, early, late);
            |t.queue| <= t.capacity == s.capacity
    ensures |s.queue| == s.capacity ==>
              var a := Others(s, early);
              var v := Others(if a.queue == [] then a else CountEvicted(Take(a, true)), late);
              var t := Submitted(s, x, early, late);
              if |v.queue| == v.capacity then t.queue == v.queue && t.dropped == v.dropped + 1
              else t.queue == v.queue + [x] && t.dropped == v.dropped
  {
    hide Others;
    OthersStayWithin(s, early);
    var a := Others(s, early);
    OthersStayWithin(if a.queue == [] then a else CountEvicted(Take(a, true)), late);
  }

  /** Undisturbed, a submit queues its item last, and only a full queue loses its oldest. */
  lemma {:induction false} UndisturbedPrefersNewest<T>(s: Shared<T>, x: T)
    requires s.capacity > 0 ==> |s.queue| <= s.capacity
    ensures var t := Submitted(s, x, [], []);
            var full := s.capacity > 0 && |s.queue| == s.capacity;
            && t.queue == (if full then s.queue[1..] else s.queue) + [x]
            && t.dropped == s.dropped && t.evicted == s.evicted + (if full then 1 else 0)
  {
  }

  class DropOldestQueue<T> {
    const capacity: int
    var queue: seq<T>
    var queued: int
    var evicted: int
    var dropped: int
    ghost var accepted: seq<T>
    ghost var removed: seq<Taken<T>>
    ghost var refused: nat

    ghost function View(): Shared<T>
      reads this
    {
      Shared(capacity, queue, queued, evicted, dropped, accepted, removed, refused)
    }

    constructor (capacity: int)
      ensures View() == Empty(capacity)
    {
      this.capacity := capacity;
      queue, queued, evicted, dropped := [], 0, 0, 0;
      accepted, removed, refused := [], [], 0;
    }

    /** `put_nowait`: false when there is no room. */
    method PutNowait(x: T) returns (ok: bool)
      modifies `queue, `accepted
      ensures ok == !Full(old(View()))
      ensures View() == if ok then Put(old(View()), x) else old(View())
    {
      if capacity > 0 && |queue| >= capacity {
        return false;
      }
      queue, accepted := queue + [x], accepted + [x];
      return true;
    }

    /** `get_nowait`, by an evicting producer or by the consumer. */
    method GetNowait(evicting: bool) returns (ok: bool)
      modifies `queue, `removed
      ensures ok == (old(queue) != []) && View() == Take(old(View()), evicting)
    {
      if queue == [] {
        return false;
      }
      removed := removed + [Taken(queue[0], evicting)];
      queue := queue[1..];
      return true;
    }

    /** The other threads' turn. */
    method Interrupt(others: seq<Other<T>>)
      modifies this
      ensures View() == Others(old(View()), others)
    {
      assert others[..0] == [];
      for i := 0 to |others|
        invariant View() == Others(old(View()), others[..i])
      {
        assert others[..i + 1][..i] == others[..i];
        match others[i] {
          case TakesOut(evicting) =>
            var taken := GetNowait(evicting && queue != []);
            if taken && evicting {
              evicted := evicted + 1;
            }
          case PutsIn(x) =>
            var ok := PutNowait(x);
            if ok {
              queued := queued + 1;
            }
          case GivesUp =>
            if capacity > 0 && |queue| >= capacity {
              dropped, refused := dropped + 1, refused + 1;
            }
        }
      }
      assert others[..|others|] == others;
    }

    /** Queues an item, preferring the newest when there is no room. */
    method Submit(x: T, early: seq<Other<T>>, late: seq<Other<T>>)
      modifies this
      ensures View() == Submitted(old(View()), x, early, late)
    {
      hide Others;
      var ok := PutNowait(x);
      if ok {
        queued := queued + 1;
        return;
      }
      Interrupt(early);
      var stale := GetNowait(true);
      if stale {
        evicted := evicted + 1;
      }
      Interrupt(late);
      ok := PutNowait(x);
      if ok {
        queued := queued + 1;
      } else {
        dropped := dropped + 1;
        refused := refused + 1;
      }
    }
  }
}
