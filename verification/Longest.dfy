/** Longest-prefix selection among registered entries, whatever their keys are
    made of, and looking it up key by key. */
module Longest {
  import opened Hir

  /** A registered key; slot 0 serves any method. */
  datatype Entry<T> = Entry(key: seq<T>, slot: nat)

  predicate ForMethod<T>(e: Entry<T>, slot: nat) { e.slot == 0 || e.slot == slot }

  predicate Matches<T(==)>(e: Entry<T>, q: seq<T>, slot: nat) { ForMethod(e, slot) && e.key <= q }

  /** A longer key wins; on keys of one length the method's own entry. */
  predicate Beats<T>(a: Entry<T>, b: Entry<T>) { |a.key| > |b.key| || (|a.key| == |b.key| && a.slot != 0 && b.slot == 0) }

  /** Entry i is taken before entry j when both match: it beats it, or it is not
      beaten and was registered first. */
  predicate Precedes<T>(es: seq<Entry<T>>, i: nat, j: nat)
    requires i < |es| && j < |es|
  {
    Beats(es[i], es[j]) || (i < j && !Beats(es[j], es[i]))
  }

  lemma OneOrder<T>(es: seq<Entry<T>>, i: nat, j: nat)
    requires i < |es| && j < |es| && i != j
    ensures Precedes(es, i, j) <==> !Precedes(es, j, i)
  {
  }

  function SelectTo<T(==)>(es: seq<Entry<T>>, n: nat, q: seq<T>, slot: nat): (r: Option<nat>)
    requires n <= |es|
    ensures r.Some? ==> r.value < n
  {
    if n == 0 then None
    else
      var best := SelectTo(es, n - 1, q, slot);
      if Matches(es[n - 1], q, slot) && (best.None? || Beats(es[n - 1], es[best.value])) then Some(n - 1) else best
  }

  /** The position of the entry selected for a request. */
  function Select<T(==)>(es: seq<Entry<T>>, q: seq<T>, slot: nat): (r: Option<nat>)
    ensures r.Some? ==> r.value < |es|
  {
    SelectTo(es, |es|, q, slot)
  }

  /** Entry i matches and precedes every other entry that matches. */
  ghost predicate Best<T>(es: seq<Entry<T>>, n: nat, q: seq<T>, slot: nat, i: nat)
    requires n <= |es|
  {
    i < n && Matches(es[i], q, slot)
    && forall j {:trigger es[j]} :: 0 <= j < n && j != i && Matches(es[j], q, slot) ==> Precedes(es, i, j)
  }

  ghost predicate NoneMatches<T>(es: seq<Entry<T>>, n: nat, q: seq<T>, slot: nat)
    requires n <= |es|
  {
    forall j {:trigger es[j]} :: 0 <= j < n ==> !Matches(es[j], q, slot)
  }

  lemma {:induction false} SelectsBest<T>(es: seq<Entry<T>>, n: nat, q: seq<T>, slot: nat)
    requires n <= |es|
    ensures var r := SelectTo(es, n, q, slot); if r.None? then NoneMatches(es, n, q, slot) else Best(es, n, q, slot, r.value)
  {
    if n > 0 {
      hide Matches;
      SelectsBest(es, n - 1, q, slot);
      var last := es[n - 1];
    }
  }

  /** There is one best entry, and it is the one selected. */
  lemma BestIsSelected<T>(es: seq<Entry<T>>, q: seq<T>, slot: nat, i: nat)
    requires Best(es, |es|, q, slot, i)
    ensures Select(es, q, slot) == Some(i)
  {
    hide Matches;
    SelectsBest(es, |es|, q, slot);
  }

  // ----- looking keys up -----

  /** The first entry with this key and slot: the first registration wins. */
  function First<T(==)>(es: seq<Entry<T>>, n: nat, key: seq<T>, slot: nat): (r: Option<nat>)
    requires n <= |es|
    ensures r.Some? ==> r.value < n && es[r.value] == Entry(key, slot)
    ensures forall j {:trigger es[j]} :: 0 <= j < n && es[j] == Entry(key, slot) ==> r.Some? && r.value <= j
  {
    if n == 0 then None
    else
      var before := First(es, n - 1, key, slot);
      if before.None? && es[n - 1] == Entry(key, slot) then Some(n - 1) else before
  }

  /** What a node for this key answers: the method's own entry or the one for
      any method. */
  function AtKey<T(==)>(es: seq<Entry<T>>, key: seq<T>, slot: nat): Option<nat> {
    var own := First(es, |es|, key, slot);
    if slot != 0 && own.Some? then own else First(es, |es|, key, 0)
  }

  lemma AtKeyAnswers<T>(es: seq<Entry<T>>, key: seq<T>, slot: nat, j: nat)
    requires j < |es| && es[j].key == key && ForMethod(es[j], slot)
    ensures AtKey(es, key, slot).Some?
    ensures var i := AtKey(es, key, slot).value; i < |es| && es[i].key == key && ForMethod(es[i], slot) && (i == j || Precedes(es, i, j))
  {
    assert es[j] == Entry(key, es[j].slot);
  }

  /** The deepest key along the request that answers gives the selection. */
  lemma DeepestIsSelected<T>(es: seq<Entry<T>>, q: seq<T>, slot: nat, depth: nat)
    requires depth <= |q| && AtKey(es, q[..depth], slot).Some?
    requires forall d {:trigger q[..d]} :: depth < d <= |q| ==> AtKey(es, q[..d], slot).None?
    ensures Select(es, q, slot) == AtKey(es, q[..depth], slot)
  {
    hide AtKey, First;
    var i := AtKey(es, q[..depth], slot).value;
    AtKeyIs(es, q[..depth], slot);
    forall j {:trigger es[j]} | 0 <= j < |es| && j != i && Matches(es[j], q, slot) ensures Precedes(es, i, j) {
      var d := |es[j].key|;
      assert es[j].key == q[..d];
      AtKeyAnswers(es, q[..d], slot, j);
      assert d <= depth;
    }
    BestIsSelected(es, q, slot, i);
  }

  lemma AtKeyIs<T>(es: seq<Entry<T>>, key: seq<T>, slot: nat)
    requires AtKey(es, key, slot).Some?
    ensures var i := AtKey(es, key, slot).value; i < |es| && es[i].key == key && ForMethod(es[i], slot)
  {
  }

  lemma NoKeyNoSelection<T>(es: seq<Entry<T>>, q: seq<T>, slot: nat)
    requires forall d {:trigger q[..d]} :: 0 <= d <= |q| ==> AtKey(es, q[..d], slot).None?
    ensures Select(es, q, slot).None?
  {
    hide AtKey, First;
    SelectsBest(es, |es|, q, slot);
    var r := Select(es, q, slot);
    if r.Some? {
      var d := |es[r.value].key|;
      assert es[r.value].key == q[..d];
      AtKeyAnswers(es, q[..d], slot, r.value);
    }
  }
}
