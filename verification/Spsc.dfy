/**
 The single-producer single-consumer ring as a two-process step system.

 The producer and the consumer interleave at the granularity of their loads, buffer accesses and
 stores. A load of the other side's index may return any value that index has had since this side
 last saw it, so snapshots may be stale when taken and grow staler before they are used.
 `pushed` and `popped` are history variables; their lengths are the unwrapped indexes.
 */
module Spsc {

  // ---- Masking ----

  function BitAnd(x: nat, y: nat): nat {
    if x == 0 || y == 0 then 0 else (x % 2) * (y % 2) + 2 * BitAnd(x / 2, y / 2)
  }

  function Pow2(k: nat): (p: nat)
    ensures p >= 1
  {
    if k == 0 then 1 else 2 * Pow2(k - 1)
  }

  lemma HalveMod(x: nat, m: nat)
    requires m >= 1
    ensures x % (2 * m) == x % 2 + 2 * ((x / 2) % m)
  {
    var h := x / 2;
    var q, r := h / m, h % m;
    assert h == q * m + r;
    var low := x % 2 + 2 * r;
    assert x == q * (2 * m) + low by {
      assert q * (2 * m) == 2 * (q * m);
    }
    ModUnique(x, 2 * m, q, low);
  }

  lemma MultipleAtLeast(d: int, m: int)
    requires m > 0 && d >= 1
    ensures d * m >= m
  {
  }

  /** A multiple of m strictly between -m and m is zero. */
  lemma SmallMultiple(d: int, m: int)
    requires m > 0 && -m < d * m < m
    ensures d == 0
  {
    if d >= 1 {
      MultipleAtLeast(d, m);
    } else if d <= -1 {
      MultipleAtLeast(-d, m);
    }
  }

  lemma ModUnique(x: int, m: int, q: int, r: int)
    requires m > 0 && x == q * m + r && 0 <= r < m
    ensures x % m == r
  {
    var d := q - x / m;
    assert d * m == q * m - (x / m) * m;
    assert d * m == x % m - r;
    SmallMultiple(d, m);
  }

  /** `x & (Capacity - 1)` is `x % Capacity`, because the capacity is a power of two. */
  lemma {:induction false} MaskIsMod(x: nat, k: nat)
    ensures BitAnd(x, Pow2(k) - 1) == x % Pow2(k)
  {
    if k > 0 {
      MaskIsMod(x / 2, k - 1);
      HalveMod(x, Pow2(k - 1));
      assert (Pow2(k) - 1) / 2 == Pow2(k - 1) - 1 && (Pow2(k) - 1) % 2 == 1;
      if x / 2 == 0 {
        MaskZero(Pow2(k - 1) - 1);
      }
    }
  }

  lemma MaskZero(y: nat)
    ensures BitAnd(0, y) == 0
  {
  }

  ghost predicate PowerOfTwo(cap: nat) {
    exists k: nat :: cap == Pow2(k)
  }

  /** The index after this one, as the code computes it. */
  function Following(index: nat, cap: nat): nat
    requires cap >= 1
  {
    BitAnd(index + 1, cap - 1)
  }

  lemma FollowingWraps(n: nat, cap: nat)
    requires cap >= 2 && PowerOfTwo(cap)
    ensures Following(n % cap, cap) == (n + 1) % cap
  {
    var k: nat :| cap == Pow2(k);
    MaskIsMod(n % cap + 1, k);
    ModStep(n, cap);
  }

  // ---- Wrapped indexes ----

  lemma ModStep(n: nat, cap: nat)
    requires cap >= 2
    ensures (n % cap + 1) % cap == (n + 1) % cap
  {
    var q, r := n / cap, n % cap;
    if r + 1 < cap {
      ModUnique(n + 1, cap, q, r + 1);
      ModUnique(r + 1, cap, 0, r + 1);
    } else {
      assert (q + 1) * cap == q * cap + cap;
      ModUnique(n + 1, cap, q + 1, 0);
      ModUnique(r + 1, cap, 1, 0);
    }
  }

  /** Two counts less than one lap apart share a slot only if they are equal. */
  lemma ModApart(a: nat, b: nat, cap: nat)
    requires cap >= 2 && a <= b < a + cap
    ensures a % cap == b % cap <==> a == b
  {
    var d := b / cap - a / cap;
    assert d * cap == (b / cap) * cap - (a / cap) * cap;
    assert d * cap == (b - b % cap) - (a - a % cap);
    if a % cap == b % cap {
      SmallMultiple(d, cap);
    }
  }

  // ---- The step system ----

  datatype Producer<T> =
    | PIdle
    | PHead(item: T, head: nat)                          // own index loaded
    | PTail(item: T, head: nat, tail: nat, seen: nat)  // other index loaded; not yet compared
    | PFull(seen: nat)                             // returns false
    | PReady(item: T, head: nat)                         // there is room
    | PWritten(item: T, head: nat)                       // slot written, index not yet published

  datatype Consumer<T> =
    | CIdle
    | CTail(tail: nat)
    | CHead(tail: nat, head: nat, seen: nat)
    | CEmpty(seen: nat)
    | CReady(tail: nat)
    | CRead(item: T, tail: nat)                          // slot read, index not yet published

  datatype Queue<T> = Queue(
    cap: nat,
    head: nat,
    tail: nat,
    buffer: seq<T>,
    producer: Producer<T>,
    consumer: Consumer<T>,
    pushed: seq<T>,
    popped: seq<T>,
    tailSeen: nat,   // how much of the other side each side has certainly seen
    headSeen: nat)

  ghost predicate Init<T>(s: Queue<T>) {
    && s.cap >= 2 && PowerOfTwo(s.cap) && |s.buffer| == s.cap
    && s.head == 0 && s.tail == 0 && s.producer.PIdle? && s.consumer.CIdle?
    && s.pushed == [] && s.popped == [] && s.tailSeen == 0 && s.headSeen == 0
  }

  datatype Step<T> =
    | PushStart(item: T) | PushLoadTail(seen: nat) | PushCheck | PushWrite | PushStore | PushFail
    | PopStart | PopLoadHead(seen: nat) | PopCheck | PopRead | PopStore | PopFail

  /** The index value published after n operations. */
  function Wrapped(n: nat, cap: nat): nat
    requires cap > 0
  {
    n % cap
  }

  ghost predicate Next<T>(s: Queue<T>, step: Step<T>, s': Queue<T>)
    requires s.cap >= 2
  {
    match step
    case PushStart(item) =>
      s.producer.PIdle? && s' == s.(producer := PHead(item, s.head))
    case PushLoadTail(seen) =>
      && s.producer.PHead? && s.tailSeen <= seen <= |s.popped|
      && s' == s.(producer := PTail(s.producer.item, s.producer.head, Wrapped(seen, s.cap), seen), tailSeen := seen)
    case PushCheck =>
      && s.producer.PTail?
      && s' == s.(producer := if Following(s.producer.head, s.cap) == s.producer.tail then PFull(s.producer.seen)
                              else PReady(s.producer.item, s.producer.head))
    case PushFail =>
      s.producer.PFull? && s' == s.(producer := PIdle)
    case PushWrite =>
      && s.producer.PReady? && s.producer.head < |s.buffer|
      && s' == s.(buffer := s.buffer[s.producer.head := s.producer.item],
                  producer := PWritten(s.producer.item, s.producer.head))
    case PushStore =>
      && s.producer.PWritten?
      && s' == s.(head := Following(s.producer.head, s.cap), pushed := s.pushed + [s.producer.item], producer := PIdle)
    case PopStart =>
      s.consumer.CIdle? && s' == s.(consumer := CTail(s.tail))
    case PopLoadHead(seen) =>
      && s.consumer.CTail? && s.headSeen <= seen <= |s.pushed|
      && s' == s.(consumer := CHead(s.consumer.tail, Wrapped(seen, s.cap), seen), headSeen := seen)
    case PopCheck =>
      && s.consumer.CHead?
      && s' == s.(consumer := if s.consumer.tail == s.consumer.head then CEmpty(s.consumer.seen)
                              else CReady(s.consumer.tail))
    case PopFail =>
      s.consumer.CEmpty? && s' == s.(consumer := CIdle)
    case PopRead =>
      && s.consumer.CReady? && s.consumer.tail < |s.buffer|
      && s' == s.(consumer := CRead(s.buffer[s.consumer.tail], s.consumer.tail))
    case PopStore =>
      && s.consumer.CRead?
      && s' == s.(tail := Following(s.consumer.tail, s.cap), popped := s.popped + [s.consumer.item], consumer := CIdle)
  }

  // ---- The invariant ----

  ghost predicate Counts<T>(s: Queue<T>) {
    && s.cap >= 2 && PowerOfTwo(s.cap) && |s.buffer| == s.cap
    && s.head == |s.pushed| % s.cap && s.tail == |s.popped| % s.cap
    && |s.popped| <= |s.pushed| <= |s.popped| + s.cap - 1
    && s.tailSeen <= |s.popped| && s.headSeen <= |s.pushed|
    && |s.pushed| - s.tailSeen <= s.cap - 1 && |s.popped| <= s.headSeen
  }

  /** Every unread item is in its slot; what was read is what was written. */
  ghost predicate Contents<T>(s: Queue<T>)
    requires s.cap >= 2 && |s.buffer| == s.cap
  {
    && s.popped <= s.pushed
    && forall i :: |s.popped| <= i < |s.pushed| ==> s.buffer[i % s.cap] == s.pushed[i]
  }

  ghost predicate ProducerOk<T>(s: Queue<T>)
    requires s.cap >= 2 && |s.buffer| == s.cap
  {
    match s.producer
    case PIdle => true
    case PHead(_, head) => head == s.head
    case PTail(_, head, tail, seen) => head == s.head && seen == s.tailSeen && tail == seen % s.cap
    case PFull(seen) => seen == s.tailSeen && |s.pushed| - seen == s.cap - 1
    case PReady(_, head) => head == s.head && |s.pushed| - s.tailSeen < s.cap - 1
    case PWritten(item, head) =>
      head == s.head && |s.pushed| - s.tailSeen < s.cap - 1 && head < |s.buffer| && s.buffer[head] == item
  }

  ghost predicate ConsumerOk<T>(s: Queue<T>)
    requires s.cap >= 2 && |s.buffer| == s.cap
  {
    match s.consumer
    case CIdle => true
    case CTail(tail) => tail == s.tail
    case CHead(tail, head, seen) => tail == s.tail && seen == s.headSeen && head == seen % s.cap
    case CEmpty(seen) => seen == s.headSeen && |s.popped| == seen
    case CReady(tail) => tail == s.tail && |s.popped| < s.headSeen
    case CRead(item, tail) =>
      tail == s.tail && |s.popped| < s.headSeen && |s.popped| < |s.pushed| && item == s.pushed[|s.popped|]
  }

  ghost predicate Inv<T>(s: Queue<T>) {
    Counts(s) && Contents(s) && ProducerOk(s) && ConsumerOk(s)
  }

  lemma InitInv<T>(s: Queue<T>)
    requires Init(s)
    ensures Inv(s)
  {
  }

  /** The write slot holds no unread item. */
  lemma WriteSlotFree<T>(s: Queue<T>, i: nat)
    requires Counts(s) && |s.pushed| - s.tailSeen < s.cap - 1 && |s.popped| <= i < |s.pushed|
    ensures i % s.cap != |s.pushed| % s.cap
  {
    ModApart(i, |s.pushed|, s.cap);
  }

  /** Steps that move no index and no item. */
  lemma QuietInv<T>(s: Queue<T>, step: Step<T>, s': Queue<T>)
    requires Inv(s) && Next(s, step, s')
    requires step.PushStart? || step.PushLoadTail? || step.PushFail?
          || step.PopStart? || step.PopLoadHead? || step.PopFail?
    ensures Inv(s') && s'.cap == s.cap
  {
    hide PowerOfTwo, Following;
  }

  lemma CheckInv<T>(s: Queue<T>, step: Step<T>, s': Queue<T>)
    requires Inv(s) && Next(s, step, s') && (step.PushCheck? || step.PopCheck?)
    ensures Inv(s') && s'.cap == s.cap
  {
    hide PowerOfTwo, Following;
    if step.PushCheck? {
      FullTest(s);
    } else {
      EmptyTest(s);
    }
  }

  lemma WriteInv<T>(s: Queue<T>, s': Queue<T>)
    requires Inv(s) && Next(s, PushWrite, s')
    ensures Inv(s') && s'.cap == s.cap
  {
    hide PowerOfTwo, Following;
    forall i | |s.popped| <= i < |s.pushed|
      ensures s'.buffer[i % s.cap] == s.pushed[i]
    {
      WriteSlotFree(s, i);
    }
  }

  lemma PushStoreInv<T>(s: Queue<T>, s': Queue<T>)
    requires Inv(s) && Next(s, PushStore, s')
    ensures Inv(s') && s'.cap == s.cap
  {
    hide PowerOfTwo, Following;
    FollowingWraps(|s.pushed|, s.cap);
  }

  lemma ReadInv<T>(s: Queue<T>, s': Queue<T>)
    requires Inv(s) && Next(s, PopRead, s')
    ensures Inv(s') && s'.cap == s.cap
  {
    hide PowerOfTwo, Following;
  }

  lemma PopStoreInv<T>(s: Queue<T>, s': Queue<T>)
    requires Inv(s) && Next(s, PopStore, s')
    ensures Inv(s') && s'.cap == s.cap
  {
    hide PowerOfTwo, Following;
    FollowingWraps(|s.popped|, s.cap);
  }

  lemma NextInv<T>(s: Queue<T>, step: Step<T>, s': Queue<T>)
    requires Inv(s) && Next(s, step, s')
    ensures Inv(s') && s'.cap == s.cap
  {
    hide Contents, ProducerOk, ConsumerOk, Next, PowerOfTwo;
    match step
    case PushCheck => CheckInv(s, step, s');
    case PopCheck => CheckInv(s, step, s');
    case PushWrite => WriteInv(s, s');
    case PushStore => PushStoreInv(s, s');
    case PopRead => ReadInv(s, s');
    case PopStore => PopStoreInv(s, s');
    case _ => QuietInv(s, step, s');
  }

  /** The comparison against a snapshot says "full" exactly when the snapshot was one lap behind. */
  lemma FullTest<T>(s: Queue<T>)
    requires Counts(s) && ProducerOk(s) && s.producer.PTail?
    ensures Following(s.producer.head, s.cap) == s.producer.tail <==> |s.pushed| - s.producer.seen == s.cap - 1
  {
    hide PowerOfTwo, Following;
    TellsApart(s.producer.seen, |s.pushed|, s.cap);
  }

  /** Equal indexes mean empty, adjacent ones full, for counts less than one lap apart. */
  lemma TellsApart(a: nat, b: nat, cap: nat)
    requires cap >= 2 && PowerOfTwo(cap) && a <= b <= a + cap - 1
    ensures b % cap == a % cap <==> a == b
    ensures Following(b % cap, cap) == a % cap <==> b - a == cap - 1
  {
    hide PowerOfTwo, Following;
    ModApart(a, b, cap);
    FollowingWraps(b, cap);
    if b - a == cap - 1 {
      LapApart(a, b + 1, cap);
    } else {
      ModApart(a, b + 1, cap);
    }
  }

  lemma LapApart(a: nat, b: nat, cap: nat)
    requires cap >= 2 && b == a + cap
    ensures a % cap == b % cap
  {
    var q, r := a / cap, a % cap;
    assert (q + 1) * cap == q * cap + cap;
    ModUnique(b, cap, q + 1, r);
  }

  lemma EmptyTest<T>(s: Queue<T>)
    requires Counts(s) && ConsumerOk(s) && s.consumer.CHead?
    ensures s.consumer.tail == s.consumer.head <==> |s.popped| == s.consumer.seen
  {
    ModApart(|s.popped|, s.consumer.seen, s.cap);
  }

  // ---- Every interleaving ----

  /** A run of the two processes. */
  ghost predicate Execution<T>(states: seq<Queue<T>>, steps: seq<Step<T>>) {
    && |states| == |steps| + 1
    && Init(states[0])
    && forall i :: 0 <= i < |steps| ==> states[i].cap >= 2 && Next(states[i], steps[i], states[i + 1])
  }

  lemma {:induction false} ExecutionInv<T>(states: seq<Queue<T>>, steps: seq<Step<T>>, n: nat)
    requires Execution(states, steps) && n < |states|
    ensures Inv(states[n]) && states[n].cap == states[0].cap
  {
    hide Inv, Next, Init;
    if n == 0 {
      InitInv(states[0]);
    } else {
      ExecutionInv(states, steps, n - 1);
      NextInv(states[n - 1], steps[n - 1], states[n]);
    }
  }

  /** Linear FIFO: in every interleaving the popped sequence is a prefix of the pushed one, and at
      most Capacity - 1 items are in flight. */
  lemma LinearFifo<T>(states: seq<Queue<T>>, steps: seq<Step<T>>, n: nat)
    requires Execution(states, steps) && n < |states|
    ensures states[n].popped <= states[n].pushed
    ensures |states[n].pushed| - |states[n].popped| <= states[n].cap - 1
  {
    ExecutionInv(states, steps, n);
  }

  /** Slot exclusion: a pending write and a pending read never meet, a write never lands on an
      unread item, and a read always finds the item pushed at that count. */
  lemma SlotExclusion<T>(states: seq<Queue<T>>, steps: seq<Step<T>>, n: nat)
    requires Execution(states, steps) && n < |states|
    ensures states[n].cap >= 2
    ensures var s := states[n];
            && (s.producer.PReady? || s.producer.PWritten? ==>
                  forall i :: |s.popped| <= i < |s.pushed| ==> i % s.cap != s.producer.head)
            && (s.consumer.CReady? ==>
                  |s.popped| < |s.pushed| && s.consumer.tail < |s.buffer|
                  && s.buffer[s.consumer.tail] == s.pushed[|s.popped|])
            && ((s.producer.PReady? || s.producer.PWritten?) && (s.consumer.CReady? || s.consumer.CRead?) ==>
                  s.producer.head != s.consumer.tail)
  {
    ExecutionInv(states, steps, n);
    var s := states[n];
    if s.producer.PReady? || s.producer.PWritten? {
      forall i | |s.popped| <= i < |s.pushed|
        ensures i % s.cap != s.producer.head
      {
        WriteSlotFree(s, i);
      }
    }
  }

  /** "Full" was true at a fresh load: the comparison that follows a load of the current index finds the
      queue full exactly when it was full at that moment. A stale load answers for the value it returned. */
  lemma FullVerdictAtLoad<T>(s: Queue<T>, seen: nat, s': Queue<T>)
    requires Inv(s) && Next(s, PushLoadTail(seen), s')
    ensures Following(s'.producer.head, s.cap) == s'.producer.tail <==> |s.pushed| - seen == s.cap - 1
    ensures seen == |s.popped| ==>
              (Following(s'.producer.head, s.cap) == s'.producer.tail <==> |s.pushed| - |s.popped| == s.cap - 1)
  {
    hide PowerOfTwo, Following;
    NextInv(s, PushLoadTail(seen), s');
    FullTest(s');
  }

  lemma EmptyVerdictAtLoad<T>(s: Queue<T>, seen: nat, s': Queue<T>)
    requires Inv(s) && Next(s, PopLoadHead(seen), s')
    ensures s'.consumer.tail == s'.consumer.head <==> |s.popped| == seen
    ensures seen == |s.pushed| ==> (s'.consumer.tail == s'.consumer.head <==> s.popped == s.pushed)
  {
    hide PowerOfTwo, Following;
    NextInv(s, PopLoadHead(seen), s');
    EmptyTest(s');
  }

  /** Later states have pushed and popped at least as much. */
  lemma {:induction false} Monotone<T>(states: seq<Queue<T>>, steps: seq<Step<T>>, i: nat, j: nat)
    requires Execution(states, steps) && i <= j < |states|
    ensures states[i].pushed <= states[j].pushed && states[i].popped <= states[j].popped
    decreases j
  {
    if i < j {
      Monotone(states, steps, i, j - 1);
      StepGrows(states[j - 1], steps[j - 1], states[j]);
    }
  }

  /** Published indexes are the wrapped counts. */
  lemma IndexFacts<T>(states: seq<Queue<T>>, steps: seq<Step<T>>, i: nat)
    requires Execution(states, steps) && i < |states|
    ensures var s := states[i];
            && s.cap == states[0].cap >= 2 && PowerOfTwo(s.cap)
            && s.head == |s.pushed| % s.cap && s.tail == |s.popped| % s.cap
            && |s.popped| <= |s.pushed| <= |s.popped| + s.cap - 1
  {
    hide Next, Contents, ProducerOk, ConsumerOk, PowerOfTwo, Execution;
    ExecutionInv(states, steps, i);
  }

  lemma StepGrows<T>(s: Queue<T>, step: Step<T>, s': Queue<T>)
    requires s.cap >= 2 && Next(s, step, s')
    ensures s.pushed <= s'.pushed && s.popped <= s'.popped
  {
    hide BitAnd;
  }

  /** Masked, wrapping subtraction of two published indexes is the difference of their counts if and
      only if that difference is between 0 and Capacity - 1. */
  lemma MaskedDifference(b: nat, a: nat, k: nat)
    requires 1 <= k <= 64
    ensures BitAnd((b % Pow2(k) - a % Pow2(k)) % Pow2(64), Pow2(k) - 1) == b - a <==> 0 <= b - a < Pow2(k)
  {
    hide BitAnd;
    var cap, x := Pow2(k), b % Pow2(k) - a % Pow2(k);
    assert cap == 2 * Pow2(k - 1);
    MaskIsMod(x % Pow2(64), k);
    WordMod(x, k);
    if 0 <= b - a < cap {
      DiffMod(a, b, cap);
    }
  }

  /** size() loads the head and then the tail. Its answer is the number of items pushed by the first
      load and not popped by the second if and only if the consumer has not overtaken the loaded
      head in between; with nothing in between it is the number of items in flight. */
  lemma Sizes<T>(states: seq<Queue<T>>, steps: seq<Step<T>>, i: nat, j: nat, k: nat)
    requires Execution(states, steps) && i <= j < |states| && states[0].cap == Pow2(k) && 1 <= k <= 64
    ensures states[0].cap >= 2 && states[i].head == |states[i].pushed| % Pow2(k)
    ensures BitAnd((states[i].head - states[j].tail) % Pow2(64), Pow2(k) - 1) == |states[i].pushed| - |states[j].popped|
       <==> |states[j].popped| <= |states[i].pushed|
    ensures i == j ==> |states[j].popped| <= |states[i].pushed|
  {
    hide Execution, PowerOfTwo, BitAnd, Pow2;
    IndexFacts(states, steps, i);
    IndexFacts(states, steps, j);
    Monotone(states, steps, i, j);
    MaskedDifference(|states[i].pushed|, |states[j].popped|, k);
  }

  /** The other order of loads: with the tail first, the answer is right if and only if fewer than
      Capacity items were pushed between the loads on top of those in flight. */
  lemma SizesTailFirst<T>(states: seq<Queue<T>>, steps: seq<Step<T>>, i: nat, j: nat, k: nat)
    requires Execution(states, steps) && j <= i < |states| && states[0].cap == Pow2(k) && 1 <= k <= 64
    ensures BitAnd((states[i].head - states[j].tail) % Pow2(64), Pow2(k) - 1) == |states[i].pushed| - |states[j].popped|
       <==> |states[i].pushed| - |states[j].popped| < Pow2(k)
  {
    hide Execution, PowerOfTwo, BitAnd, Pow2;
    IndexFacts(states, steps, i);
    IndexFacts(states, steps, j);
    Monotone(states, steps, j, i);
    MaskedDifference(|states[i].pushed|, |states[j].popped|, k);
  }

  /** The counts are a whole number of laps apart. */
  predicate LapsApart(a: int, b: int, cap: nat)
    requires cap > 0
  {
    (a - b) % cap == 0
  }

  lemma SameSlotIff(a: nat, b: nat, cap: nat)
    requires cap >= 2
    ensures a % cap == b % cap <==> LapsApart(a, b, cap)
  {
    var q := a / cap - b / cap;
    assert q * cap == (a / cap) * cap - (b / cap) * cap;
    assert a - b == q * cap + (a % cap - b % cap);
    if a % cap == b % cap {
      ModUnique(a - b, cap, q, 0);
    } else if LapsApart(a, b, cap) {
      var d := (a - b) / cap - q;
      assert d * cap == ((a - b) / cap) * cap - q * cap;
      SmallMultiple(d, cap);
    }
  }

  lemma SmallLaps(d: int, cap: nat)
    requires cap >= 2
    ensures d < cap && d + cap > 0 ==> (d % cap == 0 <==> d == 0)
  {
    if d < cap && d + cap > 0 && d % cap == 0 {
      assert d == (d / cap) * cap;
      SmallMultiple(d / cap, cap);
    }
  }

  /** empty() and full() compare a head and a tail loaded at any two moments: the answer is yes if and
      only if items pushed by the one and items popped by the other are whole laps apart, counting one
      more item for full. */
  lemma EmptyAndFull<T>(states: seq<Queue<T>>, steps: seq<Step<T>>, i: nat, j: nat)
    requires Execution(states, steps) && i < |states| && j < |states|
    ensures states[0].cap >= 2
    ensures states[i].head == states[j].tail <==> LapsApart(|states[i].pushed|, |states[j].popped|, states[0].cap)
    ensures Following(states[i].head, states[0].cap) == states[j].tail
       <==> LapsApart(|states[i].pushed| + 1, |states[j].popped|, states[0].cap)
  {
    hide Execution, PowerOfTwo, BitAnd, Following, LapsApart;
    IndexFacts(states, steps, i);
    IndexFacts(states, steps, j);
    SameSlotIff(|states[i].pushed|, |states[j].popped|, states[0].cap);
    SameSlotIff(|states[i].pushed| + 1, |states[j].popped|, states[0].cap);
    FollowingWraps(|states[i].pushed|, states[0].cap);
  }

  /** Head first, as full() loads. empty() tells whether everything pushed by the head load was popped by
      the tail load, and full() whether the ring was full at the head load and nothing has been popped
      since, if and only if the consumer did not go whole laps past the loaded head, or past the one
      after it, in between. */
  lemma AnswersHeadFirst<T>(states: seq<Queue<T>>, steps: seq<Step<T>>, i: nat, j: nat)
    requires Execution(states, steps) && i <= j < |states|
    ensures states[0].cap >= 2
    ensures var cap, a, b := states[0].cap, |states[j].popped|, |states[i].pushed|;
            && ((states[i].head == states[j].tail <==> a == b) <==> !(a > b && LapsApart(a, b, cap)))
            && ((Following(states[i].head, cap) == states[j].tail
                 <==> |states[i].pushed| - |states[i].popped| == cap - 1 && states[j].popped == states[i].popped)
                <==> !(a > b && LapsApart(a, b + 1, cap)))
  {
    hide Execution, PowerOfTwo, BitAnd, Following;
    IndexFacts(states, steps, i);
    IndexFacts(states, steps, j);
    Monotone(states, steps, i, j);
    EmptyAndFull(states, steps, i, j);
    var cap, a, b := states[0].cap, |states[j].popped|, |states[i].pushed|;
    LapsSwap(a, b, cap);
    LapsSwap(a, b + 1, cap);
    SmallLaps(b - a, cap);
    FullLaps(b + 1 - a, cap);
    assert a == |states[i].popped| ==> states[j].popped == states[i].popped;
  }

  lemma LapsSwap(a: int, b: int, cap: nat)
    requires cap >= 2
    ensures LapsApart(a, b, cap) <==> LapsApart(b, a, cap)
  {
    var q := (a - b) / cap;
    if LapsApart(a, b, cap) {
      assert b - a == (-q) * cap;
      ModUnique(b - a, cap, -q, 0);
    } else if LapsApart(b, a, cap) {
      var p := (b - a) / cap;
      assert a - b == (-p) * cap;
      ModUnique(a - b, cap, -p, 0);
    }
  }

  lemma FullLaps(d: int, cap: nat)
    requires cap >= 2
    ensures 0 < d <= cap ==> (d % cap == 0 <==> d == cap)
  {
    if d == cap {
      ModUnique(d, cap, 1, 0);
    } else {
      SmallLaps(d, cap);
    }
  }

  /** Tail first, as empty() may load: it tells whether the ring was empty at the tail load and nothing
      has been pushed since, if and only if the producer did not go whole laps past the loaded tail. */
  lemma AnswerTailFirst<T>(states: seq<Queue<T>>, steps: seq<Step<T>>, i: nat, j: nat)
    requires Execution(states, steps) && j <= i < |states|
    ensures states[0].cap >= 2
    ensures var cap, a, b := states[0].cap, |states[j].popped|, |states[i].pushed|;
            (states[i].head == states[j].tail
             <==> states[j].popped == states[j].pushed && states[i].pushed == states[j].pushed)
            <==> !(b > a && LapsApart(b, a, cap))
  {
    hide Execution, PowerOfTwo, BitAnd, Following;
    IndexFacts(states, steps, i);
    IndexFacts(states, steps, j);
    LinearFifo(states, steps, j);
    Monotone(states, steps, j, i);
    EmptyAndFull(states, steps, i, j);
    var cap, a, b := states[0].cap, |states[j].popped|, |states[i].pushed|;
    assert a == b ==> states[j].popped == states[j].pushed && states[i].pushed == states[j].pushed;
  }

  // ---- Executions on which the answers are wrong ----

  /** Both sides between calls. */
  predicate Idle<T>(s: Queue<T>) {
    s.producer.PIdle? && s.consumer.CIdle?
  }

  function InFlight<T>(s: Queue<T>): int {
    |s.pushed| - |s.popped|
  }

  lemma Extend<T>(states: seq<Queue<T>>, steps: seq<Step<T>>, more: seq<Queue<T>>, moves: seq<Step<T>>)
    requires Execution(states, steps) && |more| == |moves|
    requires forall i | 0 <= i < |moves| ::
               var s := ([states[|steps|]] + more)[i]; s.cap >= 2 && Next(s, moves[i], more[i])
    ensures Execution(states + more, steps + moves)
  {
    hide Next, Init;
    var states', steps' := states + more, steps + moves;
    forall i | 0 <= i < |steps'|
      ensures states'[i].cap >= 2 && Next(states'[i], steps'[i], states'[i + 1])
    {
      if i >= |steps| {
        assert ([states[|steps|]] + more)[i - |steps|] == states'[i];
      }
    }
  }

  /** A push, run without interruption on a ring with room, extends an execution. */
  lemma PushOne<T>(states: seq<Queue<T>>, steps: seq<Step<T>>, item: T)
    returns (states': seq<Queue<T>>, steps': seq<Step<T>>)
    requires Execution(states, steps) && Idle(states[|steps|]) && InFlight(states[|steps|]) < states[|steps|].cap - 1
    ensures Execution(states', steps') && states <= states' && Idle(states'[|steps'|])
    ensures var s, s' := states[|steps|], states'[|steps'|];
            && s'.pushed == s.pushed + [item] && s'.popped == s.popped && s'.cap == s.cap
            && forall i | |states| <= i < |states'| :: InFlight(s) <= InFlight(states'[i]) <= InFlight(s) + 1
  {
    hide Execution, PowerOfTwo, Following, Contents;
    ExecutionShape(states, steps);
    ExecutionInv(states, steps, |steps|);
    var s := states[|steps|];
    TellsApart(|s.popped|, |s.pushed|, s.cap);
    var s1 := s.(producer := PHead(item, s.head));
    var s2 := s1.(producer := PTail(item, s.head, Wrapped(|s.popped|, s.cap), |s.popped|), tailSeen := |s.popped|);
    var s3 := s2.(producer := PReady(item, s.head));
    var s4 := s3.(buffer := s.buffer[s.head := item], producer := PWritten(item, s.head));
    var s5 := s4.(head := Following(s.head, s.cap), pushed := s.pushed + [item], producer := PIdle);
    var more := [s1, s2, s3, s4, s5];
    var moves := [PushStart(item), PushLoadTail(|s.popped|), PushCheck, PushWrite, PushStore];
    Extend(states, steps, more, moves);
    states', steps' := states + more, steps + moves;
    ExecutionShape(states', steps');
  }

  /** So does a pop on a ring with an item. */
  lemma PopOne<T>(states: seq<Queue<T>>, steps: seq<Step<T>>)
    returns (states': seq<Queue<T>>, steps': seq<Step<T>>)
    requires Execution(states, steps) && Idle(states[|steps|]) && InFlight(states[|steps|]) > 0
    ensures Execution(states', steps') && states <= states' && Idle(states'[|steps'|])
    ensures var s, s' := states[|steps|], states'[|steps'|];
            && s'.pushed == s.pushed && |s'.popped| == |s.popped| + 1 && s'.cap == s.cap
            && forall i | |states| <= i < |states'| :: InFlight(s) - 1 <= InFlight(states'[i]) <= InFlight(s)
  {
    hide Execution, PowerOfTwo, Following, Contents;
    ExecutionShape(states, steps);
    ExecutionInv(states, steps, |steps|);
    var s := states[|steps|];
    ModApart(|s.popped|, |s.pushed|, s.cap);
    var s1 := s.(consumer := CTail(s.tail));
    var s2 := s1.(consumer := CHead(s.tail, Wrapped(|s.pushed|, s.cap), |s.pushed|), headSeen := |s.pushed|);
    var s3 := s2.(consumer := CReady(s.tail));
    var s4 := s3.(consumer := CRead(s.buffer[s.tail], s.tail));
    var s5 := s4.(tail := Following(s.tail, s.cap), popped := s.popped + [s.buffer[s.tail]], consumer := CIdle);
    var more := [s1, s2, s3, s4, s5];
    var moves := [PopStart, PopLoadHead(|s.pushed|), PopCheck, PopRead, PopStore];
    Extend(states, steps, more, moves);
    states', steps' := states + more, steps + moves;
    ExecutionShape(states', steps');
  }

  /** n pushes, each followed by a pop: the ring goes round and never changes much. */
  lemma {:induction false} Churn<T>(states: seq<Queue<T>>, steps: seq<Step<T>>, item: T, n: nat)
    returns (states': seq<Queue<T>>, steps': seq<Step<T>>)
    requires Execution(states, steps) && Idle(states[|steps|]) && InFlight(states[|steps|]) < states[|steps|].cap - 1
    ensures Execution(states', steps') && states <= states' && Idle(states'[|steps'|])
    ensures var s, s' := states[|steps|], states'[|steps'|];
            && |s'.pushed| == |s.pushed| + n && |s'.popped| == |s.popped| + n && s'.cap == s.cap
            && forall i | |states| <= i < |states'| :: InFlight(s) <= InFlight(states'[i]) <= InFlight(s) + 1
    decreases n
  {
    hide Execution;
    states', steps' := states, steps;
    ExecutionShape(states, steps);
    if n > 0 {
      ExecutionInv(states, steps, |steps|);
      var states1, steps1 := PushOne(states, steps, item);
      ExecutionShape(states1, steps1);
      var states2, steps2 := PopOne(states1, steps1);
      ExecutionShape(states2, steps2);
      states', steps' := Churn(states2, steps2, item, n - 1);
      ExecutionShape(states', steps');
    }
  }

  /** An execution of no steps, on an empty ring. */
  lemma Start<T>(cap: nat, item: T) returns (s: Queue<T>)
    requires cap >= 2 && PowerOfTwo(cap)
    ensures Execution([s], []) && Idle(s) && s.cap == cap && s.pushed == [] && s.popped == []
  {
    s := Queue(cap, 0, 0, seq(cap, _ => item), PIdle, CIdle, [], [], 0, 0);
  }

  /** At every capacity: one item pushed and popped between the loads, and full() says yes of a ring that
      is empty at both loads and never held more than that item. */
  lemma FullOfEmpty<T>(cap: nat, item: T) returns (states: seq<Queue<T>>, steps: seq<Step<T>>)
    requires cap >= 2 && PowerOfTwo(cap)
    ensures Execution(states, steps) && states[0].cap == cap
    ensures InFlight(states[0]) == 0 && InFlight(states[|steps|]) == 0
    ensures forall i | 0 <= i < |states| :: InFlight(states[i]) <= 1
    ensures Following(states[0].head, cap) == states[|steps|].tail
  {
    hide Execution, PowerOfTwo, Following;
    var s := Start(cap, item);
    states, steps := Churn([s], [], item, 1);
    ExecutionShape(states, steps);
    EmptyAndFull(states, steps, 0, |steps|);
  }

  /** At every capacity above 2: with the loads far enough apart, empty() says yes of a ring that holds
      an item at every moment from the first load to the last, whichever index is loaded first. */
  lemma EmptyOfBusy<T>(cap: nat, item: T)
    returns (states: seq<Queue<T>>, steps: seq<Step<T>>, i: nat, j: nat)
    requires cap >= 3 && PowerOfTwo(cap)
    ensures Execution(states, steps) && states[0].cap == cap && i <= j <= |steps|
    ensures forall n | i <= n < |states| :: InFlight(states[n]) >= 1
    ensures states[i].head == states[|steps|].tail && states[j].head == states[i].tail
  {
    hide Execution, PowerOfTwo, Following;
    var s := Start(cap, item);
    var states1, steps1 := PushOne([s], [], item);
    ExecutionShape(states1, steps1);
    var states2, steps2 := Churn(states1, steps1, item, cap - 1);
    ExecutionShape(states2, steps2);
    states, steps := Churn(states2, steps2, item, 2);
    ExecutionShape(states, steps);
    i, j := |steps1|, |steps2|;
    EmptyAndFull(states, steps, i, |steps|);
    EmptyAndFull(states, steps, j, i);
    ModUnique(-(cap as int), cap, -1, 0);
    ModUnique(cap, cap, 1, 0);
  }

  lemma ExecutionShape<T>(states: seq<Queue<T>>, steps: seq<Step<T>>)
    requires Execution(states, steps)
    ensures |states| == |steps| + 1
  {
  }

  lemma {:induction false} Pow2Splits(k: nat, n: nat)
    requires k <= n
    ensures Pow2(n) == Pow2(n - k) * Pow2(k)
  {
    if k > 0 {
      Pow2Splits(k - 1, n - 1);
      assert Pow2(n) == 2 * (Pow2(n - k) * Pow2(k - 1)) == Pow2(n - k) * Pow2(k);
    }
  }

  /** Reducing to a 64-bit word first does not change the remainder by a smaller power of two. */
  lemma WordMod(x: int, k: nat)
    requires k <= 64
    ensures (x % Pow2(64)) % Pow2(k) == x % Pow2(k)
  {
    hide Pow2;
    var w, c, m := Pow2(64), Pow2(k), Pow2(64 - k);
    Pow2Splits(k, 64);
    var q, y := x / w, x % w;
    assert x == q * (m * c) + y;
    assert q * (m * c) == (q * m) * c;
    var q', r := y / c, y % c;
    assert x == (q * m + q') * c + r by {
      assert (q * m + q') * c == (q * m) * c + q' * c;
    }
    ModUnique(x, c, q * m + q', r);
  }

  lemma DiffMod(a: nat, b: nat, cap: nat)
    requires cap >= 2 && a <= b < a + cap
    ensures (b % cap - a % cap) % cap == b - a
  {
    var qa, qb := a / cap, b / cap;
    assert a == qa * cap + a % cap && b == qb * cap + b % cap;
    assert b % cap - a % cap == (qa - qb) * cap + (b - a) by {
      assert (qa - qb) * cap == qa * cap - qb * cap;
    }
    ModUnique(b % cap - a % cap, cap, qa - qb, b - a);
  }

  // ---- The ring object, as one side runs it without interruption ----

  class SpscQueue<T(0)> {
    const buffer: array<T>
    var head: nat
    var tail: nat
    ghost var pushed: seq<T>
    ghost var popped: seq<T>

    ghost predicate Valid()
      reads this, buffer
    {
      && buffer.Length >= 2 && PowerOfTwo(buffer.Length)
      && head == |pushed| % buffer.Length && tail == |popped| % buffer.Length
      && popped <= pushed && |pushed| - |popped| <= buffer.Length - 1
      && forall i :: |popped| <= i < |pushed| ==> buffer[i % buffer.Length] == pushed[i]
    }

    constructor (capacity: nat)
      requires capacity >= 2 && PowerOfTwo(capacity)
      ensures Valid() && fresh(buffer) && buffer.Length == capacity && pushed == [] && popped == []
    {
      buffer := new T[capacity];
      head, tail, pushed, popped := 0, 0, [], [];
    }

    /** Appends the item unless Capacity - 1 items are in flight. */
    method TryPush(item: T) returns (ok: bool)
      requires Valid()
      modifies this, buffer
      ensures Valid() && popped == old(popped)
      ensures ok <==> old(|pushed| - |popped|) < buffer.Length - 1
      ensures pushed == if ok then old(pushed) + [item] else old(pushed)
    {
      hide PowerOfTwo, Following;
      ghost var n, a, cap := |pushed|, |popped|, buffer.Length;
      FollowingWraps(n, cap);
      TellsApart(a, n, cap);
      var nextHead := Following(head, buffer.Length);
      if nextHead == tail {
        return false;
      }
      forall i | a <= i < n
        ensures i % cap != n % cap
      {
        ModApart(i, n, cap);
      }
      buffer[head] := item;
      head := nextHead;
      pushed := pushed + [item];
      return true;
    }

    /** Removes the oldest item, if there is one. */
    method TryPop(item: T) returns (ok: bool, out: T)
      requires Valid()
      modifies this
      ensures Valid() && pushed == old(pushed)
      ensures ok <==> old(popped) != old(pushed)
      ensures popped == if ok then old(popped) + [out] else old(popped)
      ensures out == if ok then old(pushed)[|old(popped)|] else item
    {
      hide PowerOfTwo, Following;
      ModApart(|popped|, |pushed|, buffer.Length);
      FollowingWraps(|popped|, buffer.Length);
      if tail == head {
        assert popped == pushed[..|popped|] == pushed;
        return false, item;
      }
      out := buffer[tail];
      tail := Following(tail, buffer.Length);
      popped := popped + [out];
      return true, out;
    }
  }
}
