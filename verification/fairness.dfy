/**
 * The fairness ledger: accumulated wait-time credit per intersection, kept in
 * first-seen order, and its ranking by descending credit.
 */
module Fairness {
  import opened OrderedMaps

  type Ledger<K> = OrderedMap<K, real>

  /** The credit recorded for `k`; a key never seen has credit 0. */
  function Credit<K(==)>(ledger: Ledger<K>, k: K): real {
    Get(ledger, k, 0.0)
  }

  /** `update_fairness`: add `added` to the credit of `k`, creating the entry at the end when new. */
  function UpdateFairness<K(==,!new)>(ledger: Ledger<K>, k: K, added: real): (r: Ledger<K>)
    ensures Credit(r, k) == Credit(ledger, k) + added
    ensures forall k2 | k2 != k :: Credit(r, k2) == Credit(ledger, k2)
    ensures HasKey(ledger, k) ==> |r| == |ledger|
    ensures !HasKey(ledger, k) ==> r == ledger + [(k, added)]
    ensures forall i | 0 <= i < |ledger| :: r[i].0 == ledger[i].0
    ensures DistinctKeys(ledger) ==> DistinctKeys(r)
  {
    var v := Credit(ledger, k) + added;
    var r := Put(ledger, k, v);
    GetPut(ledger, k, v, k, 0.0);
    PutDistinct(ledger, k, v);
    assert forall k2 | k2 != k :: Credit(r, k2) == Credit(ledger, k2) by {
      PutFrame(ledger, k, v, 0.0);
    }
    r
  }

  /** An update keeps the ledger's key order and appends a key seen for the first time. */
  lemma UpdateFairnessKeys<K(!new)>(ledger: Ledger<K>, k: K, added: real)
    ensures KeysOf(UpdateFairness(ledger, k, added)) == if k in KeysOf(ledger) then KeysOf(ledger) else KeysOf(ledger) + [k]
  {
    var r := UpdateFairness(ledger, k, added);
    KeysOfHasKey(ledger, k);
    if HasKey(ledger, k) {
      KeysOfSame(r, ledger);
    } else {
      KeysOfIndex(ledger);
      KeysOfIndex(r);
      assert KeysOf(r)[|ledger|] == k;
    }
  }

  /** Several updates to the same key, applied in order. */
  function UpdateRepeatedly<K(==,!new)>(ledger: Ledger<K>, k: K, amounts: seq<real>): Ledger<K>
    decreases |amounts|
  {
    if |amounts| == 0 then ledger
    else UpdateRepeatedly(UpdateFairness(ledger, k, amounts[0]), k, amounts[1..])
  }

  function Sum(amounts: seq<real>): real
    decreases |amounts|
  {
    if |amounts| == 0 then 0.0 else amounts[0] + Sum(amounts[1..])
  }

  /** After updates `a1 .. an` to one key, its credit has grown by exactly `a1 + .. + an`. */
  lemma {:induction false} RepeatedUpdatesSum<K(!new)>(ledger: Ledger<K>, k: K, amounts: seq<real>)
    ensures Credit(UpdateRepeatedly(ledger, k, amounts), k) == Credit(ledger, k) + Sum(amounts)
    decreases |amounts|
  {
    if |amounts| > 0 {
      RepeatedUpdatesSum(UpdateFairness(ledger, k, amounts[0]), k, amounts[1..]);
    }
  }

  /** Ordered by non-increasing credit. */
  predicate SortedByCredit<K>(entries: seq<(K, real)>) {
    forall i, j | 0 <= i < j < |entries| :: entries[i].1 >= entries[j].1
  }

  /** A sorted sequence stays sorted without its first entry. */
  lemma TailSorted<K>(entries: seq<(K, real)>)
    requires |entries| > 0 && SortedByCredit(entries)
    ensures SortedByCredit(entries[1..])
  {
    var tail := entries[1..];
    forall i, j | 0 <= i < j < |tail| ensures tail[i].1 >= tail[j].1 {
      assert tail[i] == entries[i + 1] && tail[j] == entries[j + 1];
    }
  }

  /** An entry with at least the credit of a sorted sequence's head can go in front of it. */
  lemma ConsSorted<K>(e: (K, real), rest: seq<(K, real)>)
    requires SortedByCredit(rest) && (|rest| > 0 ==> e.1 >= rest[0].1)
    ensures SortedByCredit([e] + rest)
  {
    var r := [e] + rest;
    forall i, j | 0 <= i < j < |r| ensures r[i].1 >= r[j].1 {
      assert r[j] == rest[j - 1];
      if i > 0 {
        assert r[i] == rest[i - 1];
      } else if j > 1 {
        assert rest[0].1 >= rest[j - 1].1;
      }
    }
  }

  /** Place `x` after every entry of strictly greater credit and before all others. */
  function Insert<K>(x: (K, real), entries: seq<(K, real)>): (r: seq<(K, real)>)
    requires SortedByCredit(entries)
    ensures SortedByCredit(r)
    ensures multiset(r) == multiset(entries) + multiset{x}
    ensures |r| == |entries| + 1
    ensures |entries| == 0 || x.1 >= entries[0].1 ==> r[0] == x
    ensures |entries| > 0 && x.1 < entries[0].1 ==> r[0] == entries[0]
  {
    if |entries| == 0 || x.1 >= entries[0].1 then
      ConsSorted(x, entries);
      [x] + entries
    else
      var tail := entries[1..];
      TailSorted(entries);
      var rest := Insert(x, tail);
      assert |tail| > 0 ==> entries[0].1 >= tail[0].1;
      ConsSorted(entries[0], rest);
      assert multiset([entries[0]] + rest) == multiset(entries) + multiset{x} by {
        assert entries == [entries[0]] + tail;
      }
      [entries[0]] + rest
  }

  /** `get_fair_signal_plan`: the ledger's entries, highest credit first, by a stable sort. */
  function FairSignalPlan<K>(ledger: Ledger<K>): (r: seq<(K, real)>)
    ensures SortedByCredit(r)
    ensures multiset(r) == multiset(ledger)
    ensures |r| == |ledger|
    decreases |ledger|
  {
    if |ledger| == 0 then []
    else
      assert ledger == [ledger[0]] + ledger[1..];
      Insert(ledger[0], FairSignalPlan(ledger[1..]))
  }

  /** The entries of credit exactly `c`, in their order. */
  function WithCredit<K>(entries: seq<(K, real)>, c: real): seq<(K, real)>
    decreases |entries|
  {
    if |entries| == 0 then []
    else (if entries[0].1 == c then [entries[0]] else []) + WithCredit(entries[1..], c)
  }

  /** `WithCredit` of a sequence with a given first entry. */
  lemma WithCreditCons<K>(e: (K, real), entries: seq<(K, real)>, c: real)
    ensures WithCredit([e] + entries, c) == (if e.1 == c then [e] else []) + WithCredit(entries, c)
  {
    assert ([e] + entries)[1..] == entries;
  }

  /** Two prefixes of which at least one is empty may be swapped. */
  lemma SwapPrefixes<T>(a: seq<T>, b: seq<T>, rest: seq<T>)
    requires a == [] || b == []
    ensures a + (b + rest) == b + (a + rest)
  {
  }

  /** Inserting `x` adds it to the entries of its own credit, ahead of the equal ones. */
  lemma {:induction false} InsertKeepsTies<K>(x: (K, real), entries: seq<(K, real)>, c: real)
    requires SortedByCredit(entries)
    ensures WithCredit(Insert(x, entries), c) == (if x.1 == c then [x] else []) + WithCredit(entries, c)
    decreases |entries|
  {
    if |entries| == 0 || x.1 >= entries[0].1 {
      WithCreditCons(x, entries, c);
    } else {
      var tail := entries[1..];
      TailSorted(entries);
      InsertKeepsTies(x, tail, c);
      assert Insert(x, entries) == [entries[0]] + Insert(x, tail);
      WithCreditCons(entries[0], Insert(x, tail), c);
      WithCreditCons(entries[0], tail, c);
      assert entries == [entries[0]] + tail;
      SwapPrefixes(if entries[0].1 == c then [entries[0]] else [], if x.1 == c then [x] else [], WithCredit(tail, c));
    }
  }

  /** Stability: entries of equal credit come out in the ledger's insertion order. */
  lemma {:induction false} FairSignalPlanStable<K>(ledger: Ledger<K>, c: real)
    ensures WithCredit(FairSignalPlan(ledger), c) == WithCredit(ledger, c)
    decreases |ledger|
  {
    if |ledger| > 0 {
      FairSignalPlanStable(ledger[1..], c);
      InsertKeepsTies(ledger[0], FairSignalPlan(ledger[1..]), c);
    }
  }
}
