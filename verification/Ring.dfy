/** The access-log ring: one producer and one consumer, each load, each half of
    a slot copy and each store a step of its own, interleaved in any order.
    Loads of the other side's counter may return an older value, but never one
    older than the last value seen. */
module Ring {
  import opened Hir

  const CAPACITY := 512

  /** A slot is copied in two steps, so a torn copy would show. */
  datatype Entry = Entry(lo: int, hi: int)

  /** Where the producer is inside `push`. */
  datatype Producer =
    | Resting
    | LoadedWrite(entry: Entry, wp: u32)
    | LoadedBoth(entry: Entry, wp: u32, rp: u32)
    | HalfWritten(entry: Entry, wp: u32)
    | Written(entry: Entry, wp: u32)

  /** Where the consumer is inside `pop`. */
  datatype Consumer =
    | Waiting
    | LoadedRead(rp: u32)
    | LoadedAll(rp: u32, wp: u32)
    | HalfRead(rp: u32, lo: int)
    | ReadAll(rp: u32, entry: Entry)

  /** The shared ring, both sides, the counter values each side has last seen of
      the other (unwrapped), and what was accepted, popped and dropped so far. */
  datatype Sys = Sys(slots: seq<Entry>, writePos: u32, readPos: u32, producer: Producer, consumer: Consumer,
                     seenRead: nat, seenWrite: nat, accepted: seq<Entry>, popped: seq<Entry>, dropped: nat)

  datatype Action =
    | BeginPush(entry: Entry)
    | LoadReadPos(value: nat)
    | CheckAndWriteLo
    | WriteHi
    | StoreWritePos
    | BeginPop
    | LoadWritePos(value: nat)
    | CheckAndReadLo
    | ReadHi
    | StoreReadPos

  function Wrap(n: int): u32 { n % TWO_32 }
  function Slot(pos: u32): nat { pos % CAPACITY }

  predicate Enabled(s: Sys, a: Action) {
    match a
    case BeginPush(_) => s.producer.Resting?
    case LoadReadPos(v) => s.producer.LoadedWrite? && s.seenRead <= v <= |s.popped|
    case CheckAndWriteLo => s.producer.LoadedBoth?
    case WriteHi => s.producer.HalfWritten?
    case StoreWritePos => s.producer.Written?
    case BeginPop => s.consumer.Waiting?
    case LoadWritePos(v) => s.consumer.LoadedRead? && s.seenWrite <= v <= |s.accepted|
    case CheckAndReadLo => s.consumer.LoadedAll?
    case ReadHi => s.consumer.HalfRead?
    case StoreReadPos => s.consumer.ReadAll?
  }

  predicate Full(wp: u32, rp: u32) { Wrap(wp - rp) >= CAPACITY }

  function Apply(s: Sys, a: Action): Sys
    requires Enabled(s, a) && |s.slots| == CAPACITY
  {
    match a
    case BeginPush(e) => s.(producer := LoadedWrite(e, s.writePos))
    case LoadReadPos(v) => s.(producer := LoadedBoth(s.producer.entry, s.producer.wp, Wrap(v)), seenRead := v)
    case CheckAndWriteLo =>
      var LoadedBoth(e, wp, rp) := s.producer;
      if Full(wp, rp) then s.(producer := Resting, dropped := s.dropped + 1)
      else s.(slots := s.slots[Slot(wp) := s.slots[Slot(wp)].(lo := e.lo)], producer := HalfWritten(e, wp))
    case WriteHi =>
      var HalfWritten(e, wp) := s.producer;
      s.(slots := s.slots[Slot(wp) := s.slots[Slot(wp)].(hi := e.hi)], producer := Written(e, wp))
    case StoreWritePos =>
      var Written(e, wp) := s.producer;
      s.(writePos := Wrap(wp + 1), producer := Resting, accepted := s.accepted + [e])
    case BeginPop => s.(consumer := LoadedRead(s.readPos))
    case LoadWritePos(v) => s.(consumer := LoadedAll(s.consumer.rp, Wrap(v)), seenWrite := v)
    case CheckAndReadLo =>
      var LoadedAll(rp, wp) := s.consumer;
      if rp == wp then s.(consumer := Waiting) else s.(consumer := HalfRead(rp, s.slots[Slot(rp)].lo))
    case ReadHi =>
      var HalfRead(rp, lo) := s.consumer;
      s.(consumer := ReadAll(rp, Entry(lo, s.slots[Slot(rp)].hi)))
    case StoreReadPos =>
      var ReadAll(rp, e) := s.consumer;
      s.(readPos := Wrap(rp + 1), consumer := Waiting, popped := s.popped + [e])
  }

  predicate Initial(s: Sys) {
    && |s.slots| == CAPACITY && s.writePos == s.readPos == 0 && s.producer.Resting? && s.consumer.Waiting?
    && s.seenRead == s.seenWrite == s.dropped == 0 && s.accepted == s.popped == []
  }

  // ----- invariant -----

  ghost predicate ProducerOk(s: Sys) {
    var w := |s.accepted|;
    match s.producer
    case Resting => true
    case LoadedWrite(_, wp) => wp == Wrap(w)
    case LoadedBoth(_, wp, rp) => wp == Wrap(w) && rp == Wrap(s.seenRead)
    case HalfWritten(e, wp) => wp == Wrap(w) && w < s.seenRead + CAPACITY && |s.slots| == CAPACITY && s.slots[w % CAPACITY].lo == e.lo
    case Written(e, wp) => wp == Wrap(w) && w < s.seenRead + CAPACITY && |s.slots| == CAPACITY && s.slots[w % CAPACITY] == e
  }

  ghost predicate ConsumerOk(s: Sys) {
    var w, r := |s.accepted|, |s.popped|;
    match s.consumer
    case Waiting => true
    case LoadedRead(rp) => rp == Wrap(r)
    case LoadedAll(rp, wp) => rp == Wrap(r) && wp == Wrap(s.seenWrite)
    case HalfRead(rp, lo) => rp == Wrap(r) && r < s.seenWrite <= w && lo == s.accepted[r].lo
    case ReadAll(rp, e) => rp == Wrap(r) && r < s.seenWrite <= w && e == s.accepted[r]
  }

  /** Unread entries are in their slots; popped entries are the first accepted. */
  ghost predicate Inv(s: Sys) {
    var w, r := |s.accepted|, |s.popped|;
    && |s.slots| == CAPACITY && s.writePos == Wrap(w) && s.readPos == Wrap(r)
    && s.seenRead <= r <= s.seenWrite <= w <= s.seenRead + CAPACITY
    && s.popped <= s.accepted
    && (forall i {:trigger s.accepted[i]} :: r <= i < w ==> s.slots[i % CAPACITY] == s.accepted[i])
    && ProducerOk(s) && ConsumerOk(s)
  }

  // ----- wrapped counters -----

  lemma SlotOfWrapped(n: nat)
    ensures Slot(Wrap(n)) == n % CAPACITY
  {
    assert n == (n / TWO_32) * TWO_32 + n % TWO_32;
    assert (n / TWO_32) * TWO_32 == ((n / TWO_32) * 8388608) * CAPACITY;
  }

  lemma WrappedDifference(a: nat, b: nat)
    requires b <= a <= b + CAPACITY
    ensures Wrap(Wrap(a) - Wrap(b)) == a - b
    ensures Wrap(a) == Wrap(b) <==> a == b
  {
  }

  lemma WrappedNext(n: nat)
    ensures Wrap(Wrap(n) + 1) == Wrap(n + 1)
  {
  }

  lemma DifferentSlots(i: nat, w: nat)
    requires i < w < i + CAPACITY
    ensures i % CAPACITY != w % CAPACITY
  {
  }

  // ----- every step keeps the invariant -----

  lemma LoadStep(s: Sys, a: Action)
    requires Inv(s) && Enabled(s, a) && (a.BeginPush? || a.LoadReadPos? || a.BeginPop? || a.LoadWritePos?)
    ensures Inv(Apply(s, a))
  {
    hide Wrap;
    var s' := Apply(s, a);
    forall i | |s'.popped| <= i < |s'.accepted| ensures s'.slots[i % CAPACITY] == s'.accepted[i] { assert s.accepted[i] == s'.accepted[i]; }
  }

  /** Writing the slot of position w leaves the unread slots alone. */
  lemma OtherSlots(s: Sys, e: Entry, i: nat)
    requires Inv(s) && |s.popped| <= i < |s.accepted| < s.seenRead + CAPACITY
    ensures s.slots[|s.accepted| % CAPACITY := e][i % CAPACITY] == s.slots[i % CAPACITY] == s.accepted[i]
  {
    DifferentSlots(i, |s.accepted|);
  }

  lemma WriteStep(s: Sys, a: Action)
    requires Inv(s) && Enabled(s, a) && (a.CheckAndWriteLo? || a.WriteHi?)
    ensures Inv(Apply(s, a))
  {
    var w := |s.accepted|;
    SlotOfWrapped(w);
    WrappedDifference(w, s.seenRead);
    var s' := Apply(s, a);
    hide Wrap;
    forall i | |s'.popped| <= i < |s'.accepted| ensures s'.slots[i % CAPACITY] == s'.accepted[i] {
      assert s.accepted[i] == s'.accepted[i];
      if s'.slots != s.slots { OtherSlots(s, s'.slots[w % CAPACITY], i); }
    }
  }

  lemma AcceptStep(s: Sys)
    requires Inv(s) && Enabled(s, StoreWritePos)
    ensures Inv(Apply(s, StoreWritePos))
  {
    var w := |s.accepted|;
    WrappedNext(w);
    var s' := Apply(s, StoreWritePos);
    hide Wrap;
    forall i | |s'.popped| <= i < |s'.accepted| ensures s'.slots[i % CAPACITY] == s'.accepted[i] {
      if i < w { assert s.accepted[i] == s'.accepted[i]; }
    }
  }

  lemma ReadStep(s: Sys, a: Action)
    requires Inv(s) && Enabled(s, a) && (a.CheckAndReadLo? || a.ReadHi?)
    ensures Inv(Apply(s, a))
  {
    var r := |s.popped|;
    SlotOfWrapped(r);
    if r < s.seenWrite { assert s.slots[r % CAPACITY] == s.accepted[r]; }
    if a.CheckAndReadLo? { WrappedDifference(s.seenWrite, r); }
    var s' := Apply(s, a);
    hide Wrap;
    forall i | |s'.popped| <= i < |s'.accepted| ensures s'.slots[i % CAPACITY] == s'.accepted[i] { assert s.accepted[i] == s'.accepted[i]; }
  }

  lemma ReleaseStep(s: Sys)
    requires Inv(s) && Enabled(s, StoreReadPos)
    ensures Inv(Apply(s, StoreReadPos))
  {
    var r := |s.popped|;
    WrappedNext(r);
    assert s.accepted[..r + 1] == s.accepted[..r] + [s.accepted[r]];
    var s' := Apply(s, StoreReadPos);
    hide Wrap;
    forall i | |s'.popped| <= i < |s'.accepted| ensures s'.slots[i % CAPACITY] == s'.accepted[i] { assert s.accepted[i] == s'.accepted[i]; }
  }

  lemma StepKeeps(s: Sys, a: Action)
    requires Inv(s) && Enabled(s, a)
    ensures Inv(Apply(s, a))
  {
    hide Inv, Apply;
    match a
    case CheckAndWriteLo => WriteStep(s, a);
    case WriteHi => WriteStep(s, a);
    case StoreWritePos => AcceptStep(s);
    case CheckAndReadLo => ReadStep(s, a);
    case ReadHi => ReadStep(s, a);
    case StoreReadPos => ReleaseStep(s);
    case _ => LoadStep(s, a);
  }

  // ----- every run -----

  ghost predicate IsRun(states: seq<Sys>, actions: seq<Action>) {
    && |states| == |actions| + 1 && Initial(states[0])
    && forall i {:trigger actions[i]} :: 0 <= i < |actions| ==>
         |states[i].slots| == CAPACITY && Enabled(states[i], actions[i]) && states[i + 1] == Apply(states[i], actions[i])
  }

  lemma {:induction false} RunKeeps(states: seq<Sys>, actions: seq<Action>, n: nat)
    requires IsRun(states, actions) && n < |states|
    ensures Inv(states[n])
  {
    if n > 0 {
      RunKeeps(states, actions, n - 1);
      var a := actions[n - 1];
      StepKeeps(states[n - 1], a);
    }
  }

  /** At every point of every run: what was popped is a prefix of what was
      accepted, at most a ring's worth is unread, and the unread entries are
      intact in their slots, in order. */
  lemma BoundedFifo(states: seq<Sys>, actions: seq<Action>, n: nat)
    requires IsRun(states, actions) && n < |states|
    ensures var s := states[n];
      && s.popped <= s.accepted && |s.accepted| - |s.popped| <= 512 == |s.slots|
      && forall i {:trigger s.accepted[i]} :: |s.popped| <= i < |s.accepted| ==> s.slots[i % CAPACITY] == s.accepted[i]
  {
    RunKeeps(states, actions, n);
  }

  /** Neither an unread slot nor the one the consumer is copying out of changes. */
  ghost predicate KeepsUnread(s: Sys, s': Sys) {
    && |s.slots| == CAPACITY && |s'.slots| == CAPACITY
    && (forall i {:trigger s.accepted[i]} :: |s.popped| <= i < |s.accepted| ==> s'.slots[i % CAPACITY] == s.slots[i % CAPACITY])
    && (s.consumer.HalfRead? ==> s'.slots[Slot(s.consumer.rp)] == s.slots[Slot(s.consumer.rp)])
  }

  /** A slot copy never touches an unread slot. */
  lemma NeverOverwrites(states: seq<Sys>, actions: seq<Action>, n: nat)
    requires IsRun(states, actions) && n < |actions| && (actions[n].CheckAndWriteLo? || actions[n].WriteHi?)
    ensures KeepsUnread(states[n], states[n + 1])
  {
    hide Apply, Inv, Enabled, Initial, KeepsUnread;
    RunKeeps(states, actions, n);
    assert Enabled(states[n], actions[n]) && states[n + 1] == Apply(states[n], actions[n]);
    CopyKeepsUnread(states[n], actions[n]);
  }

  lemma CopyKeepsUnread(s: Sys, a: Action)
    requires Inv(s) && Enabled(s, a) && (a.CheckAndWriteLo? || a.WriteHi?)
    ensures KeepsUnread(s, Apply(s, a))
  {
    var s' := Apply(s, a);
    var w, r := |s.accepted|, |s.popped|;
    SlotOfWrapped(w);
    SlotOfWrapped(r);
    WrappedDifference(w, s.seenRead);
    hide Wrap, Slot;
    forall i | r <= i < w ensures s'.slots[i % CAPACITY] == s.slots[i % CAPACITY] {
      if s'.slots != s.slots { OtherSlots(s, s'.slots[w % CAPACITY], i); }
    }
    if s.consumer.HalfRead? { assert s.accepted[r].lo == s.consumer.lo; }
  }

  /** An entry is dropped exactly when the ring is full as far as the producer
      has seen, and a pop gives up exactly when it has seen nothing unread. */
  lemma DropsOnlyWhenFull(states: seq<Sys>, actions: seq<Action>, n: nat)
    requires IsRun(states, actions) && n < |actions|
    ensures var s, s' := states[n], states[n + 1];
      && (s'.dropped > s.dropped <==> actions[n].CheckAndWriteLo? && |s.accepted| == s.seenRead + CAPACITY)
      && (actions[n].CheckAndReadLo? ==> (s'.consumer.Waiting? <==> s.seenWrite == |s.popped|))
  {
    RunKeeps(states, actions, n);
    var s, a := states[n], actions[n];
    assert states[n + 1] == Apply(s, a);
    WrappedDifference(|s.accepted|, s.seenRead);
    WrappedDifference(s.seenWrite, |s.popped|);
  }

  // ----- what a load decides -----

  lemma LoadedFits(s: Sys, v: nat, pushing: bool)
    requires Inv(s) && Enabled(s, if pushing then LoadReadPos(v) else LoadWritePos(v))
    ensures if pushing then s.producer.wp == Wrap(|s.accepted|) && v <= |s.accepted| <= v + CAPACITY
            else s.consumer.rp == Wrap(|s.popped|) && |s.popped| <= v <= |s.popped| + CAPACITY
  {
  }

  /** Between its load and its check the producer keeps what it loaded, and
      nothing is accepted. */
  lemma {:induction false} LoadedReadStays(states: seq<Sys>, actions: seq<Action>, n: nat, v: nat, m: nat)
    requires IsRun(states, actions) && n < m < |states| && actions[n] == LoadReadPos(v)
    requires forall i {:trigger actions[i]} :: n < i < m ==> !actions[i].CheckAndWriteLo?
    ensures states[m].producer.LoadedBoth? && states[m].producer.rp == Wrap(v) && states[m].producer.wp == Wrap(|states[m].accepted|)
    ensures |states[m].accepted| == |states[n].accepted| && v <= |states[n].accepted| <= v + CAPACITY
  {
    RunKeeps(states, actions, n);
    hide Wrap, Inv;
    var s, a := states[m - 1], actions[m - 1];
    assert Enabled(s, a) && states[m] == Apply(s, a);
    if m > n + 1 {
      LoadedReadStays(states, actions, n, v, m - 1);
    } else {
      LoadedFits(s, v, true);
    }
  }

  /** Whatever happens in between: with v the value that its load returned, a
      push drops its entry exactly when the ring is full by v, and otherwise
      writes it. */
  lemma LoadDecidesPush(states: seq<Sys>, actions: seq<Action>, n: nat, v: nat, m: nat)
    requires IsRun(states, actions) && n < m < |actions| && actions[n] == LoadReadPos(v) && actions[m].CheckAndWriteLo?
    requires forall i {:trigger actions[i]} :: n < i < m ==> !actions[i].CheckAndWriteLo?
    ensures states[m + 1].dropped == states[m].dropped + (if |states[m].accepted| - v == 512 then 1 else 0)
    ensures states[m + 1].producer.HalfWritten? <==> |states[m].accepted| - v < 512
  {
    LoadedReadStays(states, actions, n, v, m);
    WrappedDifference(|states[m].accepted|, v);
    assert states[m + 1] == Apply(states[m], actions[m]);
  }

  lemma {:induction false} LoadedWriteStays(states: seq<Sys>, actions: seq<Action>, n: nat, v: nat, m: nat)
    requires IsRun(states, actions) && n < m < |states| && actions[n] == LoadWritePos(v)
    requires forall i {:trigger actions[i]} :: n < i < m ==> !actions[i].CheckAndReadLo?
    ensures states[m].consumer.LoadedAll? && states[m].consumer.wp == Wrap(v) && states[m].consumer.rp == Wrap(|states[m].popped|)
    ensures |states[m].popped| == |states[n].popped| <= v <= |states[n].popped| + CAPACITY
  {
    RunKeeps(states, actions, n);
    hide Wrap, Inv;
    var s, a := states[m - 1], actions[m - 1];
    assert Enabled(s, a) && states[m] == Apply(s, a);
    if m > n + 1 {
      LoadedWriteStays(states, actions, n, v, m - 1);
    } else {
      LoadedFits(s, v, false);
    }
  }

  /** A pop gives up exactly when there is nothing unread by the value that its
      load returned. */
  lemma LoadDecidesPop(states: seq<Sys>, actions: seq<Action>, n: nat, v: nat, m: nat)
    requires IsRun(states, actions) && n < m < |actions| && actions[n] == LoadWritePos(v) && actions[m].CheckAndReadLo?
    requires forall i {:trigger actions[i]} :: n < i < m ==> !actions[i].CheckAndReadLo?
    ensures states[m + 1].consumer.Waiting? <==> v == |states[m].popped|
    ensures states[m + 1].consumer.HalfRead? <==> v > |states[m].popped|
  {
    LoadedWriteStays(states, actions, n, v, m);
    WrappedDifference(v, |states[m].popped|);
    assert states[m + 1] == Apply(states[m], actions[m]);
  }

  /** Neither side ever waits for the other: each has a step to take in every state,
      and a load may return anything from the last value seen to the present one. */
  lemma WaitFree(states: seq<Sys>, actions: seq<Action>, n: nat, v: nat) returns (push: Action, pop: Action)
    requires IsRun(states, actions) && n < |states|
    ensures Enabled(states[n], push) && (push.BeginPush? || push.LoadReadPos? || push.CheckAndWriteLo? || push.WriteHi? || push.StoreWritePos?)
    ensures Enabled(states[n], pop) && (pop.BeginPop? || pop.LoadWritePos? || pop.CheckAndReadLo? || pop.ReadHi? || pop.StoreReadPos?)
    ensures push.LoadReadPos? && states[n].seenRead <= v <= |states[n].popped| ==> push.value == v
    ensures pop.LoadWritePos? && states[n].seenWrite <= v <= |states[n].accepted| ==> pop.value == v
  {
    RunKeeps(states, actions, n);
    var s := states[n];
    push := match s.producer
      case Resting => BeginPush(Entry(0, 0))
      case LoadedWrite(_, _) => LoadReadPos(if s.seenRead <= v <= |s.popped| then v else |s.popped|)
      case LoadedBoth(_, _, _) => CheckAndWriteLo
      case HalfWritten(_, _) => WriteHi
      case Written(_, _) => StoreWritePos;
    pop := match s.consumer
      case Waiting => BeginPop
      case LoadedRead(_) => LoadWritePos(if s.seenWrite <= v <= |s.accepted| then v else |s.accepted|)
      case LoadedAll(_, _) => CheckAndReadLo
      case HalfRead(_, _) => ReadHi
      case ReadAll(_, _) => StoreReadPos;
  }

  // ----- what is accepted -----

  /** The entry of the last push begun. */
  function LastPushed(actions: seq<Action>, n: nat): Option<Entry>
    requires n <= |actions|
  {
    if n == 0 then None
    else if actions[n - 1].BeginPush? then Some(actions[n - 1].entry)
    else LastPushed(actions, n - 1)
  }

  /** The entries of the pushes that got as far as storing the position. */
  function Log(actions: seq<Action>, n: nat): seq<Entry>
    requires n <= |actions|
  {
    if n == 0 then []
    else
      var last := LastPushed(actions, n - 1);
      Log(actions, n - 1) + if actions[n - 1].StoreWritePos? && last.Some? then [last.value] else []
  }

  function Begun(actions: seq<Action>, n: nat): nat
    requires n <= |actions|
  {
    if n == 0 then 0 else Begun(actions, n - 1) + if actions[n - 1].BeginPush? then 1 else 0
  }

  /** What is accepted are the entries handed to `push`, in order, each begun push
      being accepted, dropped or under way. */
  lemma {:induction false} AcceptedArePushed(states: seq<Sys>, actions: seq<Action>, n: nat)
    requires IsRun(states, actions) && n < |states|
    ensures states[n].accepted == Log(actions, n)
    ensures !states[n].producer.Resting? ==> LastPushed(actions, n) == Some(states[n].producer.entry)
    ensures Begun(actions, n) == |states[n].accepted| + states[n].dropped + if states[n].producer.Resting? then 0 else 1
  {
    if n > 0 {
      AcceptedArePushed(states, actions, n - 1);
      var a := actions[n - 1];
      assert states[n] == Apply(states[n - 1], a);
    }
  }
}
