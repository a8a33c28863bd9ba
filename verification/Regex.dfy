/** Compiled regular expressions shared between threads: the lifetime of one
    handle under any interleaving of scanning threads and one freeing thread,
    and the per-thread cache of scratch spaces. */
module Regex {
  import opened Hir

  // ----- the handle -----

  /** A scanning thread: outside, inside the locked part of `begin_regex_scan`,
      scanning, or inside the locked part of `end_regex_scan`. */
  datatype Scanner = Outside | Beginning | Scanning | Ending

  /** The freeing thread: `Checking` holds the mutex with `closing` set,
      `Sleeping` waits for the condition, `Taken` owns the database. */
  datatype Freer = NotYet | Checking | Sleeping | Taken | Released | Gone

  datatype Owner = Thread(t: nat) | TheFreer

  /** The handle's fields, its mutex and condition, and where everyone is. */
  datatype Handle = Handle(active: nat, closing: bool, hasDb: bool, mutex: Option<Owner>, signaled: bool,
                           threads: seq<Scanner>, freer: Freer)

  datatype Action =
    | LockBegin(t: nat)
    | FinishBegin(t: nat)
    | LockEnd(t: nat)
    | FinishEnd(t: nat)
    | LockFree
    | CheckFree
    | Wake
    | ReleaseDb
    | FreeHandle

  predicate Enabled(h: Handle, a: Action) {
    match a
    case LockBegin(t) => t < |h.threads| && h.threads[t].Outside? && h.mutex.None?
    case FinishBegin(t) => t < |h.threads| && h.threads[t].Beginning?
    case LockEnd(t) => t < |h.threads| && h.threads[t].Scanning? && h.mutex.None?
    case FinishEnd(t) => t < |h.threads| && h.threads[t].Ending?
    case LockFree => h.freer.NotYet? && h.mutex.None?
    case CheckFree => h.freer.Checking?
    case Wake => h.freer.Sleeping? && h.mutex.None?
    case ReleaseDb => h.freer.Taken?
    case FreeHandle => h.freer.Released?
  }

  function Apply(h: Handle, a: Action): Handle
    requires Enabled(h, a)
  {
    match a
    case LockBegin(t) => h.(mutex := Some(Thread(t)), threads := h.threads[t := Beginning])
    case FinishBegin(t) =>
      if h.closing || !h.hasDb then h.(mutex := None, threads := h.threads[t := Outside])
      else h.(active := h.active + 1, mutex := None, threads := h.threads[t := Scanning])
    case LockEnd(t) => h.(mutex := Some(Thread(t)), threads := h.threads[t := Ending])
    case FinishEnd(t) =>
      var left := if h.active > 0 then h.active - 1 else 0;
      h.(active := left, signaled := h.signaled || (h.closing && left == 0), mutex := None, threads := h.threads[t := Outside])
    case LockFree => h.(closing := true, mutex := Some(TheFreer), freer := Checking)
    case CheckFree =>
      if h.active > 0 then h.(freer := Sleeping, signaled := false, mutex := None)
      else h.(freer := Taken, hasDb := false, mutex := None)
    case Wake => h.(freer := Checking, mutex := Some(TheFreer))
    case ReleaseDb => h.(freer := Released)
    case FreeHandle => h.(freer := Gone)
  }

  predicate Initial(h: Handle) {
    && h.active == 0 && !h.closing && h.hasDb && h.mutex.None? && !h.signaled && h.freer.NotYet?
    && forall t {:trigger h.threads[t]} :: 0 <= t < |h.threads| ==> h.threads[t].Outside?
  }

  /** Between begin and end. */
  predicate Inside(s: Scanner) { s.Scanning? || s.Ending? }

  function CountInside(threads: seq<Scanner>, k: nat): nat
    requires k <= |threads|
  {
    if k == 0 then 0 else CountInside(threads, k - 1) + if Inside(threads[k - 1]) then 1 else 0
  }

  function Scans(h: Handle): nat { CountInside(h.threads, |h.threads|) }

  lemma {:induction false} CountAfter(threads: seq<Scanner>, t: nat, s: Scanner, k: nat)
    requires t < |threads| && k <= |threads|
    ensures CountInside(threads[t := s], k)
         == CountInside(threads, k) + if t >= k || Inside(threads[t]) == Inside(s) then 0 else if Inside(s) then 1 else -1
  {
    if k > 0 { CountAfter(threads, t, s, k - 1); }
  }

  lemma {:induction false} CountOne(threads: seq<Scanner>, t: nat, k: nat)
    requires t < k <= |threads| && Inside(threads[t])
    ensures CountInside(threads, k) > 0
  {
    if t < k - 1 { CountOne(threads, t, k - 1); }
  }

  predicate Locked(h: Handle, t: nat)
    requires t < |h.threads|
  {
    (h.threads[t].Beginning? || h.threads[t].Ending?) <==> h.mutex == Some(Thread(t))
  }

  /** The mutex is held by whoever is in a locked part; the counter counts the
      scans; past the check there are none left; and a sleeper that could go on
      has been signaled. */
  ghost predicate Inv(h: Handle) {
    && (forall t {:trigger h.threads[t]} :: 0 <= t < |h.threads| ==> Locked(h, t))
    && (h.freer.Checking? <==> h.mutex == Some(TheFreer))
    && (h.mutex.Some? && h.mutex.value.Thread? ==> h.mutex.value.t < |h.threads|)
    && h.active == Scans(h)
    && (h.closing <==> !h.freer.NotYet?)
    && (h.hasDb <==> h.freer.NotYet? || h.freer.Checking? || h.freer.Sleeping?)
    && (!h.hasDb ==> h.active == 0)
    && (h.freer.Sleeping? && h.active == 0 ==> h.signaled)
  }

  predicate InLockedPart(s: Scanner) { s.Beginning? || s.Ending? }

  /** One thread moves into a locked part, taking the mutex, or out of one,
      giving it back; the counter follows. */
  lemma ThreadMoves(h: Handle, h': Handle, t: nat, s: Scanner)
    requires Inv(h) && t < |h.threads| && h'.threads == h.threads[t := s]
    requires if InLockedPart(s) then h.mutex.None? && h'.mutex == Some(Thread(t)) else h.mutex == Some(Thread(t)) && h'.mutex.None?
    requires h'.closing == h.closing && h'.hasDb == h.hasDb && h'.freer == h.freer
    requires h'.active == h.active + if Inside(h.threads[t]) == Inside(s) then 0 else if Inside(s) then 1 else -1
    requires (h'.active > h.active ==> h.hasDb && !h.closing) && (h.signaled ==> h'.signaled)
    requires h'.active < h.active && h.closing && h'.active == 0 ==> h'.signaled
    ensures Inv(h')
  {
    CountAfter(h.threads, t, s, |h.threads|);
    forall k | 0 <= k < |h'.threads| ensures Locked(h', k) { assert Locked(h, k); }
    assert Scans(h) == CountInside(h.threads, |h.threads|) && Scans(h') == CountInside(h.threads[t := s], |h.threads|);
    assert h'.freer.Checking? <==> h'.mutex == Some(TheFreer);
  }

  lemma ThreadStep(h: Handle, a: Action)
    requires Inv(h) && Enabled(h, a) && (a.LockBegin? || a.FinishBegin? || a.LockEnd? || a.FinishEnd?)
    ensures Inv(Apply(h, a))
  {
    hide Scans;
    var h' := Apply(h, a);
    assert Locked(h, a.t);
    match a
    case LockBegin(t) => ThreadMoves(h, h', t, Beginning);
    case FinishBegin(t) => ThreadMoves(h, h', t, if h.closing || !h.hasDb then Outside else Scanning);
    case LockEnd(t) => ThreadMoves(h, h', t, Ending);
    case FinishEnd(t) =>
      SomeInside(h, t);
      ThreadMoves(h, h', t, Outside);
  }

  lemma FreerStep(h: Handle, a: Action)
    requires Inv(h) && Enabled(h, a) && (a.LockFree? || a.CheckFree? || a.Wake? || a.ReleaseDb? || a.FreeHandle?)
    ensures Inv(Apply(h, a))
  {
    hide Scans;
    var h' := Apply(h, a);
    SameScans(h', h);
    forall k | 0 <= k < |h'.threads| ensures Locked(h', k) { assert Locked(h, k); }
  }

  lemma StepKeeps(h: Handle, a: Action)
    requires Inv(h) && Enabled(h, a)
    ensures Inv(Apply(h, a))
  {
    hide Inv, Apply, Enabled;
    match a
    case LockBegin(_) => ThreadStep(h, a);
    case FinishBegin(_) => ThreadStep(h, a);
    case LockEnd(_) => ThreadStep(h, a);
    case FinishEnd(_) => ThreadStep(h, a);
    case _ => FreerStep(h, a);
  }

  lemma SameScans(a: Handle, b: Handle)
    requires a.threads == b.threads
    ensures Scans(a) == Scans(b)
  {
  }

  lemma SomeInside(h: Handle, t: nat)
    requires t < |h.threads| && Inside(h.threads[t])
    ensures Scans(h) > 0
  {
    CountOne(h.threads, t, |h.threads|);
  }

  ghost predicate IsRun(states: seq<Handle>, actions: seq<Action>) {
    && |states| == |actions| + 1 && Initial(states[0])
    && forall i {:trigger actions[i]} :: 0 <= i < |actions| ==>
         Enabled(states[i], actions[i]) && states[i + 1] == Apply(states[i], actions[i])
  }

  lemma {:induction false} NoneInside(threads: seq<Scanner>, k: nat)
    requires k <= |threads| && forall t {:trigger threads[t]} :: 0 <= t < |threads| ==> threads[t].Outside?
    ensures CountInside(threads, k) == 0
  {
    if k > 0 { NoneInside(threads, k - 1); }
  }

  lemma InitialInv(h: Handle)
    requires Initial(h)
    ensures Inv(h)
  {
    NoneInside(h.threads, |h.threads|);
    assert Scans(h) == 0;
    forall t | 0 <= t < |h.threads| ensures Locked(h, t) { assert h.threads[t].Outside?; }
  }

  lemma {:induction false} RunKeeps(states: seq<Handle>, actions: seq<Action>, n: nat)
    requires IsRun(states, actions) && n < |states|
    ensures Inv(states[n])
  {
    hide Inv, Apply, Enabled;
    if n == 0 {
      InitialInv(states[0]);
    } else {
      RunKeeps(states, actions, n - 1);
      var a := actions[n - 1];
      StepKeeps(states[n - 1], a);
    }
  }

  /** On every run: the counter is the number of threads between begin and end;
      the database is given back, and the handle freed, only with no thread
      there; and no thread gets there once closing is set. */
  lemma LifetimeSafe(states: seq<Handle>, actions: seq<Action>, n: nat)
    requires IsRun(states, actions) && n < |states|
    ensures states[n].active == Scans(states[n])
    ensures states[n].freer.Taken? || states[n].freer.Released? || states[n].freer.Gone? ==>
              forall t {:trigger states[n].threads[t]} :: 0 <= t < |states[n].threads| ==> !Inside(states[n].threads[t])
    ensures n < |actions| && states[n].closing ==> states[n + 1].closing && Scans(states[n + 1]) <= Scans(states[n])
  {
    RunKeeps(states, actions, n);
    var h := states[n];
    forall t | 0 <= t < |h.threads| && Inside(h.threads[t]) ensures Scans(h) > 0 { CountOne(h.threads, t, |h.threads|); }
    if n < |actions| {
      RunKeeps(states, actions, n + 1);
      var a := actions[n];
    }
  }

  /** The freer is never left asleep with nothing to wait for. */
  lemma NoLostWakeup(states: seq<Handle>, actions: seq<Action>, n: nat)
    requires IsRun(states, actions) && n < |states| && states[n].freer.Sleeping?
    ensures states[n].signaled || Scans(states[n]) > 0
  {
    RunKeeps(states, actions, n);
  }

  // ----- what each step achieves -----

  /** A caller that asks for a scan gets it exactly when freeing has not begun, and
      then there is one scan more. */
  lemma AdmittedExactly(states: seq<Handle>, actions: seq<Action>, n: nat)
    requires IsRun(states, actions) && n < |actions| && actions[n].FinishBegin?
    ensures var h, h', t := states[n], states[n + 1], actions[n].t;
      && t < |h'.threads| && h'.threads[t] == (if h.freer.NotYet? then Scanning else Outside)
      && Scans(h') == Scans(h) + if h.freer.NotYet? then 1 else 0
  {
    RunKeeps(states, actions, n);
    RunKeeps(states, actions, n + 1);
    assert states[n + 1] == Apply(states[n], actions[n]);
  }

  /** The end of a scan leaves one scan fewer. */
  lemma EndsOne(states: seq<Handle>, actions: seq<Action>, n: nat)
    requires IsRun(states, actions) && n < |actions| && actions[n].FinishEnd?
    ensures var h, h', t := states[n], states[n + 1], actions[n].t;
      t < |h'.threads| && h'.threads[t].Outside? && Scans(h') == Scans(h) - 1
  {
    RunKeeps(states, actions, n);
    RunKeeps(states, actions, n + 1);
    var h, a := states[n], actions[n];
    assert states[n + 1] == Apply(h, a);
    SomeInside(h, a.t);
  }

  /** The freeing thread takes the database exactly when no scan is left. */
  lemma TakenExactly(states: seq<Handle>, actions: seq<Action>, n: nat)
    requires IsRun(states, actions) && n < |actions| && actions[n].CheckFree?
    ensures states[n + 1].freer == if Scans(states[n]) == 0 then Taken else Sleeping
  {
    RunKeeps(states, actions, n);
    assert states[n + 1] == Apply(states[n], actions[n]);
  }

  /** Until the handle is gone someone can always take a step. */
  lemma NeverStuck(states: seq<Handle>, actions: seq<Action>, n: nat) returns (a: Action)
    requires IsRun(states, actions) && n < |states| && !states[n].freer.Gone?
    ensures Enabled(states[n], a)
  {
    RunKeeps(states, actions, n);
    var h := states[n];
    if h.mutex.Some? {
      if h.mutex.value.TheFreer? { return CheckFree; }
      var t := h.mutex.value.t;
      assert Locked(h, t);
      return if h.threads[t].Beginning? then FinishBegin(t) else FinishEnd(t);
    }
    return match h.freer
      case NotYet => LockFree
      case Sleeping => Wake
      case Taken => ReleaseDb
      case _ => FreeHandle;
  }

  // ----- callers and the end of the handle -----

  ghost predicate SomeBeginning(h: Handle) { exists t {:trigger h.threads[t]} :: 0 <= t < |h.threads| && h.threads[t].Beginning? }

  /** A thread is in the locked part of `begin_regex_scan` on a freed handle. */
  ghost predicate UsesFreed(h: Handle) { h.freer.Gone? && SomeBeginning(h) }

  /** The handle is freed with its mutex free, and nobody asks for it afterwards. */
  ghost predicate Disciplined(states: seq<Handle>, actions: seq<Action>)
    requires |states| == |actions| + 1
  {
    forall n {:trigger actions[n]} :: 0 <= n < |actions| ==>
      (actions[n].FreeHandle? ==> states[n].mutex.None?) && (actions[n].LockBegin? ==> !states[n].freer.Gone?)
  }

  /** Past the check, whoever holds the mutex is a caller about to be refused. */
  lemma OnlyBeginners(h: Handle)
    requires Inv(h) && (h.freer.Released? || h.freer.Gone?)
    ensures SomeBeginning(h) <==> h.mutex.Some?
  {
    forall t | 0 <= t < |h.threads| ensures !h.threads[t].Ending? {
      if h.threads[t].Ending? { SomeInside(h, t); }
    }
    if h.mutex.Some? {
      var t := h.mutex.value.t;
      assert Locked(h, t);
      assert h.threads[t].Beginning?;
    }
    if SomeBeginning(h) {
      var t :| 0 <= t < |h.threads| && h.threads[t].Beginning?;
      assert Locked(h, t);
    }
  }

  lemma {:induction false} DisciplineKeeps(states: seq<Handle>, actions: seq<Action>, n: nat)
    requires IsRun(states, actions) && Disciplined(states, actions) && n < |states|
    ensures !UsesFreed(states[n])
  {
    if n > 0 {
      DisciplineKeeps(states, actions, n - 1);
      var h, a := states[n - 1], actions[n - 1];
      RunKeeps(states, actions, n - 1);
      if a.FreeHandle? {
        OnlyBeginners(h);
        assert states[n].threads == h.threads;
      } else if h.freer.Gone? {
        OnlyBeginners(h);
        NoBeginAppears(h, a);
      }
    }
  }

  lemma NoBeginAppears(h: Handle, a: Action)
    requires Enabled(h, a) && !a.LockBegin? && !SomeBeginning(h)
    ensures !SomeBeginning(Apply(h, a))
  {
    forall t | 0 <= t < |h.threads| ensures !Apply(h, a).threads[t].Beginning? { assert !h.threads[t].Beginning?; }
  }

  /** A run never uses the handle after it is freed exactly when the handle is
      freed with its mutex free and no scan is begun afterwards. */
  lemma FreedExactly(states: seq<Handle>, actions: seq<Action>)
    requires IsRun(states, actions)
    ensures (forall n {:trigger states[n]} :: 0 <= n < |states| ==> !UsesFreed(states[n])) <==> Disciplined(states, actions)
  {
    if Disciplined(states, actions) {
      forall n {:trigger states[n]} | 0 <= n < |states| ensures !UsesFreed(states[n]) { DisciplineKeeps(states, actions, n); }
    } else {
      var n :| 0 <= n < |actions| && !((actions[n].FreeHandle? ==> states[n].mutex.None?) && (actions[n].LockBegin? ==> !states[n].freer.Gone?));
      RunKeeps(states, actions, n);
      var h, h' := states[n], states[n + 1];
      if actions[n].FreeHandle? {
        OnlyBeginners(h);
        assert h'.threads == h.threads;
      } else {
        assert h'.threads[actions[n].t].Beginning?;
      }
      assert UsesFreed(h');
    }
  }

  /** The source does not keep to that by itself: a caller that begins after the
      check is let in by the mutex, and the handle is freed under it. */
  lemma FreedUnderCaller() returns (states: seq<Handle>, actions: seq<Action>)
    ensures IsRun(states, actions) && UsesFreed(states[|states| - 1])
  {
    actions := [LockFree, CheckFree, LockBegin(0), ReleaseDb, FreeHandle];
    var h0 := Handle(0, false, true, None, false, [Outside], NotYet);
    var h1 := Apply(h0, actions[0]);
    var h2 := Apply(h1, actions[1]);
    var h3 := Apply(h2, actions[2]);
    var h4 := Apply(h3, actions[3]);
    var h5 := Apply(h4, actions[4]);
    states := [h0, h1, h2, h3, h4, h5];
    assert h5.threads[0].Beginning?;
  }

  lemma {:induction false} ClosedQuietly(states: seq<Handle>, actions: seq<Action>, n: nat)
    requires IsRun(states, actions) && n < |states|
    requires forall k {:trigger actions[k]} :: 0 <= k < |actions| && actions[k].LockBegin? ==> !states[k].closing
    ensures states[n].closing ==> !SomeBeginning(states[n])
  {
    if n > 0 {
      ClosedQuietly(states, actions, n - 1);
      var h, a := states[n - 1], actions[n - 1];
      RunKeeps(states, actions, n - 1);
      if states[n].closing {
        if a.LockFree? {
          forall t | 0 <= t < |h.threads| ensures !h.threads[t].Beginning? { assert Locked(h, t); }
        } else {
          NoBeginAppears(h, a);
        }
      }
    }
  }

  /** It is enough that no scan begins once freeing has started. */
  lemma QuietFreeIsSafe(states: seq<Handle>, actions: seq<Action>)
    requires IsRun(states, actions)
    requires forall k {:trigger actions[k]} :: 0 <= k < |actions| && actions[k].LockBegin? ==> !states[k].closing
    ensures Disciplined(states, actions)
  {
    forall n {:trigger actions[n]} | 0 <= n < |actions|
      ensures (actions[n].FreeHandle? ==> states[n].mutex.None?) && (actions[n].LockBegin? ==> !states[n].freer.Gone?)
    {
      RunKeeps(states, actions, n);
      if actions[n].FreeHandle? {
        ClosedQuietly(states, actions, n);
        OnlyBeginners(states[n]);
      }
    }
  }

  // ----- the scratch cache -----

  datatype Slot = Slot(handle: nat, generation: nat, scratch: nat)

  /** The map is the exact inverse of the slots. */
  ghost predicate Inverse(slots: seq<Slot>, index: map<nat, nat>) {
    && (forall i {:trigger slots[i]} :: 0 <= i < |slots| ==> slots[i].generation in index && index[slots[i].generation] == i)
    && (forall g {:trigger index[g]} :: g in index ==> index[g] < |slots| && slots[index[g]].generation == g)
  }

  function SwapRemove(slots: seq<Slot>, i: nat): seq<Slot>
    requires i < |slots|
  {
    slots[i := slots[|slots| - 1]][..|slots| - 1]
  }

  function Reindex(slots: seq<Slot>, index: map<nat, nat>, i: nat): map<nat, nat>
    requires i < |slots|
  {
    var rest := index - {slots[i].generation};
    if i == |slots| - 1 then rest else rest[slots[|slots| - 1].generation := i]
  }

  lemma SwapRemoveKeeps(slots: seq<Slot>, index: map<nat, nat>, i: nat)
    requires Inverse(slots, index) && i < |slots|
    ensures Inverse(SwapRemove(slots, i), Reindex(slots, index, i))
    ensures Reindex(slots, index, i).Keys == index.Keys - {slots[i].generation}
    ensures forall g {:trigger Reindex(slots, index, i)[g]} :: g in Reindex(slots, index, i) ==>
              SwapRemove(slots, i)[Reindex(slots, index, i)[g]] == slots[index[g]]
  {
    var last := |slots| - 1;
    var slots', index' := SwapRemove(slots, i), Reindex(slots, index, i);
    forall k | 0 <= k < |slots'| ensures slots'[k].generation in index' && index'[slots'[k].generation] == k {
      assert slots'[k] == slots[if k == i then last else k];
      assert index[slots[k].generation] == k && index[slots[last].generation] == last && index[slots[i].generation] == i;
    }
    assert slots[last].generation in index && slots[i].generation in index;
    forall g | g in index' ensures index'[g] < |slots'| && slots'[index'[g]] == slots[index[g]] {
      assert index[g] < |slots|;
      assert index[slots[last].generation] == last && index[slots[i].generation] == i;
    }
  }

  /** Scratch spaces held and given back are all different, and made before `next`. */
  ghost predicate Apart(slots: seq<Slot>, freed: seq<nat>, next: nat) {
    && (forall i {:trigger slots[i]} :: 0 <= i < |slots| ==> slots[i].scratch < next && slots[i].scratch !in freed)
    && (forall i, j {:trigger slots[i], slots[j]} :: 0 <= i < j < |slots| ==> slots[i].scratch != slots[j].scratch)
    && (forall i, j {:trigger freed[i], freed[j]} :: 0 <= i < j < |freed| ==> freed[i] != freed[j])
    && (forall i {:trigger freed[i]} :: 0 <= i < |freed| ==> freed[i] < next)
  }

  /** What is held for each generation. */
  ghost function HeldBy(slots: seq<Slot>, index: map<nat, nat>): map<nat, Slot>
    requires Inverse(slots, index)
  {
    map g | g in index :: slots[index[g]]
  }

  lemma RemovedApart(slots: seq<Slot>, freed: seq<nat>, next: nat, i: nat)
    requires Apart(slots, freed, next) && i < |slots|
    ensures Apart(SwapRemove(slots, i), freed + [slots[i].scratch], next)
  {
    var slots', freed', last := SwapRemove(slots, i), freed + [slots[i].scratch], |slots| - 1;
    forall k | 0 <= k < |slots'| ensures slots'[k].scratch < next && slots'[k].scratch !in freed' {
      assert slots'[k] == slots[if k == i then last else k];
    }
    forall j, k | 0 <= j < k < |slots'| ensures slots'[j].scratch != slots'[k].scratch {
      assert slots'[k] == slots[if k == i then last else k] && slots'[j] == slots[if j == i then last else j];
    }
  }

  lemma RemovedHeld(slots: seq<Slot>, index: map<nat, nat>, i: nat)
    requires Inverse(slots, index) && i < |slots|
    ensures Inverse(SwapRemove(slots, i), Reindex(slots, index, i))
    ensures HeldBy(SwapRemove(slots, i), Reindex(slots, index, i)) == HeldBy(slots, index) - {slots[i].generation}
  {
    SwapRemoveKeeps(slots, index, i);
  }

  lemma AddedHeld(slots: seq<Slot>, index: map<nat, nat>, s: Slot)
    requires Inverse(slots, index) && s.generation !in index
    ensures Inverse(slots + [s], index[s.generation := |slots|])
    ensures HeldBy(slots + [s], index[s.generation := |slots|]) == HeldBy(slots, index)[s.generation := s]
  {
  }

  class ScratchCache {
    var slots: seq<Slot>
    var index: map<nat, nat>
    var freed: seq<nat>
    var nextScratch: nat

    ghost predicate Valid()
      reads this
    {
      Inverse(slots, index) && Apart(slots, freed, nextScratch)
    }

    ghost function Held(): map<nat, Slot>
      requires Valid()
      reads this
    {
      HeldBy(slots, index)
    }

    constructor ()
      ensures Valid() && Held() == map[] && freed == []
    {
      slots, index, freed, nextScratch := [], map[], [], 0;
    }

    /** The last slot moves into the gap. */
    method RemoveAt(i: nat)
      requires Valid()
      modifies this
      ensures Valid()
      ensures i >= |old(slots)| ==> slots == old(slots) && index == old(index) && freed == old(freed)
      ensures i < |old(slots)| ==> Held() == old(Held()) - {old(slots)[i].generation} && freed == old(freed) + [old(slots)[i].scratch]
    {
      hide Inverse, Apart, HeldBy;
      if i >= |slots| { return; }
      RemovedHeld(slots, index, i);
      RemovedApart(slots, freed, nextScratch, i);
      ghost var was, before := slots, index;
      var generation := slots[i].generation;
      freed := freed + [slots[i].scratch];
      index := index - {generation};
      var count := |slots| - 1;
      if i != count {
        slots := slots[i := slots[count]];
        index := index[slots[i].generation := i];
      }
      slots := slots[..count];
      assert slots == SwapRemove(was, i) && index == Reindex(was, before, i);
    }

    /** The scratch space for the handle's generation, made on first use.
        `allocOk` and `roomOk` say whether the two allocations succeed. */
    method Get(handle: nat, generation: nat, allocOk: bool, roomOk: bool) returns (scratch: Option<nat>)
      requires Valid()
      modifies this
      ensures Valid()
      ensures generation in old(Held()) ==>
                scratch == Some(old(Held())[generation].scratch) && Held() == old(Held()) && freed == old(freed)
      ensures generation !in old(Held()) && allocOk && roomOk ==>
                && scratch == Some(old(nextScratch)) && freed == old(freed)
                && Held() == old(Held())[generation := Slot(handle, generation, old(nextScratch))]
      ensures generation !in old(Held()) && !(allocOk && roomOk) ==>
                scratch.None? && Held() == old(Held()) && freed == old(freed) + if allocOk then [old(nextScratch)] else []
    {
      hide Inverse, Apart;
      InBounds(slots, index);
      if generation in index { return Some(slots[index[generation]].scratch); }
      if !allocOk { return None; }
      var made := nextScratch;
      MadeApart(slots, freed, made, Slot(handle, generation, made));
      nextScratch := nextScratch + 1;
      if !roomOk {
        freed := freed + [made];
        return None;
      }
      AddedHeld(slots, index, Slot(handle, generation, made));
      slots := slots + [Slot(handle, generation, made)];
      index := index[generation := |slots| - 1];
      return Some(made);
    }

    /** Removes the handle's own entry and no other. */
    method PruneHandle(handle: nat, generation: nat)
      requires Valid()
      modifies this
      ensures Valid()
      ensures generation in old(Held()) && old(Held())[generation].handle == handle ==>
                Held() == old(Held()) - {generation} && freed == old(freed) + [old(Held())[generation].scratch]
      ensures !(generation in old(Held()) && old(Held())[generation].handle == handle) ==> Held() == old(Held()) && freed == old(freed)
    {
      hide Apart;
      if generation in index && index[generation] < |slots| && slots[index[generation]].handle == handle {
        RemoveAt(index[generation]);
      }
    }
  }

  lemma InBounds(slots: seq<Slot>, index: map<nat, nat>)
    requires Inverse(slots, index)
    ensures forall g {:trigger index[g]} :: g in index ==> index[g] < |slots|
  {
  }

  lemma MadeApart(slots: seq<Slot>, freed: seq<nat>, next: nat, s: Slot)
    requires Apart(slots, freed, next) && s.scratch == next
    ensures Apart(slots + [s], freed, next + 1) && Apart(slots, freed + [next], next + 1)
  {
  }
}
