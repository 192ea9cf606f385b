/** The lock-free bounded queue as a state machine: every atomic load, compare-and-swap
    and store of `Push` and `Pop` is one step, and any number of threads interleave. */
module QueueProtocol {
  import opened Bits

  type Tid = nat

  /** What a slot's `Data` holds: a default-constructed or moved-from object, or a value. */
  datatype Cell<+V> = Blank | Holds(value: V)

  /** Where a thread is inside a call; `next` is the C++ local of that name. */
  datatype Pc<+V> =
    | Idle
    | PushStart(v: V)               // first load of `_nextEnqueue`
    | PushLoad(v: V, next: nat)     // load of the slot's `Index`
    | PushCas(v: V, next: nat)      // `Index` was `next`: compare-and-swap of `_nextEnqueue`
    | PushReload(v: V, next: nat)   // `Index` was above `next`: load `_nextEnqueue` again
    | PushWrite(v: V, next: nat)    // the ticket `next` is won: write `Data`
    | PushPublish(v: V, next: nat)  // store `next + 1` into `Index`
    | PushReturn(ok: bool, v: V, next: nat)
    | PopStart
    | PopLoad(next: nat)
    | PopCas(next: nat)
    | PopReload(next: nat)
    | PopRead(next: nat)                  // the ticket `next` is won: move `Data` out
    | PopRelease(next: nat, out: Cell<V>) // store `next + _capacity` into `Index`
    | PopReturn(ok: bool, out: Cell<V>, next: nat)

  /** `index` and `data` are the two members of the slots. The remaining fields record
      history and are never read by a step's decision: `log[k]` is the value of the Push that
      won ticket `k`; `pusher` and `popper` say which thread has won a ticket that it has
      not yet published or released; `ticket[i]` is the ticket slot `i` currently serves;
      `delivered[k]` is what the Pop that won ticket `k` handed to its caller. */
  datatype State<+V> = State(
    cap: nat,
    enq: nat,
    deq: nat,
    index: seq<nat>,
    data: seq<Cell<V>>,
    threads: map<Tid, Pc<V>>,
    log: seq<V>,
    ticket: seq<nat>,
    pusher: map<nat, Tid>,
    popper: map<nat, Tid>,
    delivered: map<nat, Cell<V>>)

  /** A thread enters `Push` or `Pop`, or performs its next atomic step. `weak` asks a
      compare-and-swap that could succeed to fail spuriously. */
  datatype Action<+V> =
    | CallPush(t: Tid, v: V)
    | CallPop(t: Tid)
    | Step(t: Tid, weak: bool)

  function SlotOf(cap: nat, k: nat): (i: nat)
    requires cap > 0
    ensures i < cap
  {
    BitAnd(k, cap - 1)
  }

  /** The constructor: slot `i` starts with `Index` equal to `i`. */
  function Init<V>(cap: nat): State<V> {
    State(cap, 0, 0, seq(cap, i => i), seq(cap, i => Blank), map[],
          [], seq(cap, i => i), map[], map[], map[])
  }

  ghost predicate Shape<V>(s: State<V>) {
    && s.cap > 0
    && |s.index| == |s.data| == |s.ticket| == s.cap
    && |s.log| == s.enq
  }

  predicate CanCall<V>(s: State<V>, t: Tid) {
    t in s.threads ==> s.threads[t].Idle? || s.threads[t].PushReturn? || s.threads[t].PopReturn?
  }

  /** The branch taken after loading `Index` in the loop of `Push`. */
  function PushDecide<V>(v: V, next: nat, index: nat): Pc<V> {
    if next == index then PushCas(v, next)
    else if next > index then PushReturn(false, v, next)
    else PushReload(v, next)
  }

  /** The branch taken after loading `Index` in the loop of `Pop`. */
  function PopDecide<V>(next: nat, index: nat): Pc<V> {
    if next + 1 == index then PopCas(next)
    else if next + 1 > index then PopReturn(false, Blank, next)
    else PopReload(next)
  }

  function Goto<V>(s: State<V>, t: Tid, pc: Pc<V>): (s': State<V>)
    requires Shape(s)
    ensures Shape(s') && s'.cap == s.cap
  {
    s.(threads := s.threads[t := pc])
  }

  /** Line 153 by a winner: the ticket is `enq`, and its value is recorded. */
  function WinPush<V>(s: State<V>, t: Tid, v: V): (s': State<V>)
    requires Shape(s)
    ensures Shape(s') && s'.cap == s.cap
  {
    s.(enq := s.enq + 1, log := s.log + [v], pusher := s.pusher[s.enq := t],
       threads := s.threads[t := PushWrite(v, s.enq)])
  }

  function WriteData<V>(s: State<V>, t: Tid, v: V, next: nat): (s': State<V>)
    requires Shape(s)
    ensures Shape(s') && s'.cap == s.cap
  {
    s.(data := s.data[SlotOf(s.cap, next) := Holds(v)],
       threads := s.threads[t := PushPublish(v, next)])
  }

  function Publish<V>(s: State<V>, t: Tid, v: V, next: nat): (s': State<V>)
    requires Shape(s)
    ensures Shape(s') && s'.cap == s.cap
  {
    s.(index := s.index[SlotOf(s.cap, next) := next + 1],
       pusher := s.pusher - {next},
       threads := s.threads[t := PushReturn(true, v, next)])
  }

  function WinPop<V>(s: State<V>, t: Tid): (s': State<V>)
    requires Shape(s)
    ensures Shape(s') && s'.cap == s.cap
  {
    s.(deq := s.deq + 1, popper := s.popper[s.deq := t],
       threads := s.threads[t := PopRead(s.deq)])
  }

  function ReadData<V>(s: State<V>, t: Tid, next: nat): (s': State<V>)
    requires Shape(s)
    ensures Shape(s') && s'.cap == s.cap
  {
    var i := SlotOf(s.cap, next);
    s.(data := s.data[i := Blank], threads := s.threads[t := PopRelease(next, s.data[i])])
  }

  function Release<V>(s: State<V>, t: Tid, next: nat, out: Cell<V>): (s': State<V>)
    requires Shape(s)
    ensures Shape(s') && s'.cap == s.cap
  {
    var i := SlotOf(s.cap, next);
    s.(index := s.index[i := next + s.cap],
       ticket := s.ticket[i := next + s.cap],
       popper := s.popper - {next},
       delivered := s.delivered[next := out],
       threads := s.threads[t := PopReturn(true, out, next)])
  }

  /** One atomic step of thread `t`. */
  function StepThread<V>(s: State<V>, t: Tid, weak: bool): (s': State<V>)
    requires Shape(s) && t in s.threads
    ensures Shape(s') && s'.cap == s.cap
    ensures t in s'.threads && s'.threads == s.threads[t := s'.threads[t]]
  {
    match s.threads[t]
    case PushStart(v) => Goto(s, t, PushLoad(v, s.enq))
    case PushLoad(v, next) => Goto(s, t, PushDecide(v, next, s.index[SlotOf(s.cap, next)]))
    case PushCas(v, next) =>
      if s.enq == next && !weak then WinPush(s, t, v) else Goto(s, t, PushLoad(v, s.enq))
    case PushReload(v, _) => Goto(s, t, PushLoad(v, s.enq))
    case PushWrite(v, next) => WriteData(s, t, v, next)
    case PushPublish(v, next) => Publish(s, t, v, next)
    case PopStart => Goto(s, t, PopLoad(s.deq))
    case PopLoad(next) => Goto(s, t, PopDecide(next, s.index[SlotOf(s.cap, next)]))
    case PopCas(next) =>
      if s.deq == next && !weak then WinPop(s, t) else Goto(s, t, PopLoad(s.deq))
    case PopReload(_) => Goto(s, t, PopLoad(s.deq))
    case PopRead(next) => ReadData(s, t, next)
    case PopRelease(next, out) => Release(s, t, next, out)
    case _ => s
  }

  /** An action that the thread cannot take leaves the state alone. */
  function Apply<V>(s: State<V>, a: Action<V>): (s': State<V>)
    requires Shape(s)
    ensures Shape(s') && s'.cap == s.cap
  {
    match a
    case CallPush(t, v) => if CanCall(s, t) then Goto(s, t, PushStart(v)) else s
    case CallPop(t) => if CanCall(s, t) then Goto(s, t, PopStart) else s
    case Step(t, weak) => if t in s.threads then StepThread(s, t, weak) else s
  }

  /** The state after any interleaving `acts` of calls and steps. */
  function Exec<V>(s: State<V>, acts: seq<Action<V>>): (s': State<V>)
    requires Shape(s)
    ensures Shape(s') && s'.cap == s.cap
  {
    if acts == [] then s
    else Apply(Exec(s, acts[..|acts| - 1]), acts[|acts| - 1])
  }

  // ---------------------------------------------------------------------
  // The inductive invariant
  // ---------------------------------------------------------------------

  /** The life of a ticket. */
  datatype Status = Free | ClaimedByPush | Published | ClaimedByPop | Released

  function StatusOf<V>(s: State<V>, k: nat): Status {
    if k >= s.enq then Free
    else if k in s.pusher then ClaimedByPush
    else if k >= s.deq then Published
    else if k in s.popper then ClaimedByPop
    else Released
  }

  /** `Index` of the slot serving ticket `k`, which is not yet released. */
  function IndexFor(k: nat, st: Status): nat {
    match st
    case Free | ClaimedByPush => k
    case _ => k + 1
  }

  ghost predicate SlotOk<V>(s: State<V>, i: nat)
    requires Shape(s) && i < s.cap
  {
    var k := s.ticket[i];
    && SlotOf(s.cap, k) == i
    && k < s.deq + s.cap
    && s.enq <= k + s.cap
    && StatusOf(s, k) != Released
    && s.index[i] == IndexFor(k, StatusOf(s, k))
    && (StatusOf(s, k) == Published ==> s.data[i] == Holds(s.log[k]))
  }

  /** `next` has been released or is in the slot with its data published. */
  ghost predicate WasPublished<V>(s: State<V>, k: nat) {
    k < s.enq && k !in s.pusher
  }

  ghost predicate PushOwns<V>(s: State<V>, t: Tid, v: V, next: nat)
    requires Shape(s)
  {
    && next in s.pusher && s.pusher[next] == t
    && s.deq <= next < s.enq && s.log[next] == v
    && s.ticket[SlotOf(s.cap, next)] == next
  }

  ghost predicate PopOwns<V>(s: State<V>, t: Tid, next: nat)
    requires Shape(s)
  {
    && next in s.popper && s.popper[next] == t
    && next < s.deq && WasPublished(s, next)
    && s.ticket[SlotOf(s.cap, next)] == next
  }

  ghost predicate ThreadOk<V>(s: State<V>, t: Tid)
    requires Shape(s) && t in s.threads
  {
    match s.threads[t]
    case PushLoad(v, next) => next <= s.enq
    case PushCas(v, next) => next <= s.enq && next <= s.ticket[SlotOf(s.cap, next)]
    case PushReload(v, next) => next < s.enq
    case PushWrite(v, next) => PushOwns(s, t, v, next)
    case PushPublish(v, next) => PushOwns(s, t, v, next) && s.data[SlotOf(s.cap, next)] == Holds(v)
    case PopLoad(next) => next <= s.deq
    case PopCas(next) => next <= s.deq && WasPublished(s, next)
    case PopReload(next) => next < s.deq
    case PopRead(next) =>
      PopOwns(s, t, next) && s.data[SlotOf(s.cap, next)] == Holds(s.log[next])
    case PopRelease(next, out) => PopOwns(s, t, next) && out == Holds(s.log[next])
    case PushReturn(ok, v, next) => ok ==> next < s.enq && s.log[next] == v
    case PopReturn(ok, out, next) =>
      ok ==> next < s.enq && next in s.delivered && s.delivered[next] == out == Holds(s.log[next])
    case _ => true
  }

  ghost predicate PusherOk<V>(s: State<V>, k: nat)
    requires k in s.pusher
  {
    var t := s.pusher[k];
    && s.deq <= k < s.enq && t in s.threads
    && (s.threads[t].PushWrite? || s.threads[t].PushPublish?) && s.threads[t].next == k
  }

  ghost predicate PopperOk<V>(s: State<V>, k: nat)
    requires k in s.popper
  {
    var t := s.popper[k];
    && k < s.deq && t in s.threads
    && (s.threads[t].PopRead? || s.threads[t].PopRelease?) && s.threads[t].next == k
  }

  ghost predicate DeliveredOk<V>(s: State<V>, k: nat)
    requires Shape(s)
  {
    && (k in s.delivered <==> k < s.deq && k !in s.popper)
    && (k in s.delivered ==> k < s.enq && s.delivered[k] == Holds(s.log[k]))
  }

  ghost predicate Inv<V>(s: State<V>) {
    && Shape(s) && IsPow2(s.cap) && s.cap >= 2
    && s.deq <= s.enq
    && (forall i | 0 <= i < s.cap :: SlotOk(s, i))
    && (forall t | t in s.threads :: ThreadOk(s, t))
    && (forall k | k in s.pusher :: PusherOk(s, k))
    && (forall k | k in s.popper :: PopperOk(s, k))
    && (forall k: nat :: DeliveredOk(s, k))
  }

  // ---------------------------------------------------------------------
  // Slots and tickets
  // ---------------------------------------------------------------------

  lemma SlotOfIsMod(cap: nat, k: nat)
    requires IsPow2(cap)
    ensures SlotOf(cap, k) == k % cap
  {
    var n: nat :| cap == Pow2(n);
    MaskIsMod(k, n, cap);
  }

  /** Two tickets of one slot are a whole number of capacities apart. */
  lemma SameSlot(cap: nat, a: nat, b: nat)
    requires IsPow2(cap) && SlotOf(cap, a) == SlotOf(cap, b) && a < b
    ensures a + cap <= b
  {
    SlotOfIsMod(cap, a);
    SlotOfIsMod(cap, b);
    SameRemainder(cap, a, b);
  }

  lemma NextLap(cap: nat, k: nat)
    requires IsPow2(cap)
    ensures SlotOf(cap, k + cap) == SlotOf(cap, k)
  {
    SlotOfIsMod(cap, k);
    SlotOfIsMod(cap, k + cap);
    AddDivisor(cap, k);
  }

  lemma FirstLap(cap: nat, k: nat)
    requires IsPow2(cap) && k < cap
    ensures SlotOf(cap, k) == k
  {
    SlotOfIsMod(cap, k);
    DivModUnique(k, cap, 0, k);
  }

  // ---------------------------------------------------------------------
  // What a load of Index tells about a ticket
  // ---------------------------------------------------------------------

  /** The ticket of a slot as a position in the lap structure. */
  lemma TicketLap<V>(s: State<V>, next: nat)
    requires Inv(s)
    ensures var k := s.ticket[SlotOf(s.cap, next)];
            k == next || k + s.cap <= next || next + s.cap <= k
  {
    var i := SlotOf(s.cap, next);
    assert SlotOk(s, i);
    var k := s.ticket[i];
    if k < next {
      SameSlot(s.cap, k, next);
    } else if next < k {
      SameSlot(s.cap, next, k);
    }
  }

  /** `Index == next`: ticket `next` is the slot's own and has not been published. */
  lemma IndexEqualsNext<V>(s: State<V>, next: nat)
    requires Inv(s) && s.index[SlotOf(s.cap, next)] == next
    ensures s.ticket[SlotOf(s.cap, next)] == next
    ensures StatusOf(s, next) == Free || StatusOf(s, next) == ClaimedByPush
  {
    TicketLap(s, next);
    assert SlotOk(s, SlotOf(s.cap, next));
  }

  /** `Index == next + 1`: ticket `next` has been published. */
  lemma IndexEqualsNextPlusOne<V>(s: State<V>, next: nat)
    requires Inv(s) && s.index[SlotOf(s.cap, next)] == next + 1
    ensures s.ticket[SlotOf(s.cap, next)] == next && WasPublished(s, next)
  {
    TicketLap(s, next);
    assert SlotOk(s, SlotOf(s.cap, next));
  }

  /** `Index > next`: some thread has already won the enqueue of ticket `next`. */
  lemma IndexAboveNext<V>(s: State<V>, next: nat)
    requires Inv(s) && s.index[SlotOf(s.cap, next)] > next
    ensures next < s.enq
  {
    TicketLap(s, next);
    assert SlotOk(s, SlotOf(s.cap, next));
  }

  /** `Index > next + 1`: some thread has already won the dequeue of ticket `next`. */
  lemma IndexAboveNextPlusOne<V>(s: State<V>, next: nat)
    requires Inv(s) && s.index[SlotOf(s.cap, next)] > next + 1
    ensures next < s.deq
  {
    TicketLap(s, next);
    assert SlotOk(s, SlotOf(s.cap, next));
  }
}
