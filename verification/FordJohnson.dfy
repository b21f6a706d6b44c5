/** The sort of cpp_5-9/cpp9/ex02/PmergeMe.cpp. Its vector and deque versions are
    the same code; this is both. It always permutes its input, and it sorts exactly
    the inputs that `Sortable` describes. */
module FordJohnson {

  // ----- the Jacobsthal numbers -----

  function J(n: nat): nat {
    if n < 2 then n else J(n - 1) + 2 * J(n - 2)
  }

  method Jacobsthal(n: nat) returns (curr: nat)
    ensures curr == J(n)
  {
    if n == 0 { return 0; }
    if n == 1 { return 1; }

    var prev := 0;
    curr := 1;
    for i := 2 to n + 1
      invariant prev == J(i - 2) && curr == J(i - 1)
    {
      var next := curr + 2 * prev;
      prev := curr;
      curr := next;
    }
  }

  function Pow2(n: nat): nat { if n == 0 then 1 else 2 * Pow2(n - 1) }

  /** 3·J(n) = 2^n − (−1)^n. */
  lemma {:induction false} ClosedForm(n: nat)
    ensures 3 * J(n) == Pow2(n) - (if n % 2 == 0 then 1 else -1)
  {
    if n >= 2 {
      ClosedForm(n - 1);
      ClosedForm(n - 2);
      assert Pow2(n) == 2 * Pow2(n - 1) && Pow2(n - 1) == 2 * Pow2(n - 2);
      assert n % 2 == (n - 2) % 2 != (n - 1) % 2;
    }
  }

  lemma {:induction false} StrictlyIncreasing(m: nat, n: nat)
    requires 2 <= m < n
    ensures 0 < J(m) < J(n)
    decreases n
  {
    if n == 3 {
      assert J(2) == 1 && J(3) == 3;
    } else if m < n - 1 {
      StrictlyIncreasing(m, n - 1);
      StrictlyIncreasing(n - 2, n - 1);
    } else {
      StrictlyIncreasing(m - 1, m);
    }
  }

  /** The indices come out as one descending run, from len - 1 down to the largest
      Jacobsthal number below len. */
  predicate LastGroup(indices: seq<nat>, len: nat, k: nat) {
    && 2 <= k && J(k) < len <= J(k + 1)
    && |indices| == len - J(k)
    && forall t :: 0 <= t < |indices| ==> indices[t] == len - 1 - t
  }

  /** There is one such run. */
  lemma OneRun(s: seq<nat>, t: seq<nat>, len: nat, j: nat, k: nat)
    requires LastGroup(s, len, j) && LastGroup(t, len, k)
    ensures s == t
  {
    if j < k {
      if j + 1 < k { StrictlyIncreasing(j + 1, k); }
    } else if k < j {
      if k + 1 < j { StrictlyIncreasing(k + 1, j); }
    }
  }

  ghost predicate IsRun(indices: seq<nat>, len: nat) {
    if len < 2 then indices == [] else exists k: nat :: LastGroup(indices, len, k)
  }

  /** The Jacobsthal indices of a length. */
  ghost function Run(len: nat): (indices: seq<nat>) {
    if indices: seq<nat> :| IsRun(indices, len) then indices else []
  }

  lemma RunIsUnique(indices: seq<nat>, len: nat)
    requires IsRun(indices, len)
    ensures indices == Run(len)
  {
    var run := Run(len);
    assert IsRun(run, len);
    if len >= 2 {
      var j: nat :| LastGroup(indices, len, j);
      var k: nat :| LastGroup(run, len, k);
      OneRun(indices, run, len, j, k);
    }
  }

  method GenerateJacobsthalSequence(len: nat) returns (indices: seq<nat>)
    ensures len < 2 ==> indices == []
    ensures len >= 2 ==> exists k: nat :: LastGroup(indices, len, k)
    ensures indices == Run(len) && Distinct(indices)
  {
    indices := [];
    if len == 0 {
      RunIsUnique(indices, len);
      return;
    }

    var jacobIdx := 3;
    var prevJacob := Jacobsthal(jacobIdx - 1);
    var currJacob := Jacobsthal(jacobIdx);
    assert prevJacob == 1;

    while prevJacob < len
      invariant 3 <= jacobIdx && prevJacob == J(jacobIdx - 1) && currJacob == J(jacobIdx)
      invariant prevJacob < len ==> indices == []
      invariant len == 1 ==> indices == []
      invariant len >= 2 && len <= prevJacob ==> LastGroup(indices, len, jacobIdx - 2)
      decreases len - prevJacob
    {
      StrictlyIncreasing(jacobIdx - 1, jacobIdx);
      var start := if currJacob < len then prevJacob else len;
      var i := start;
      while i > prevJacob
        invariant prevJacob <= i <= start && |indices| == start - i
        invariant forall t :: 0 <= t < |indices| ==> indices[t] == start - 1 - t
      {
        indices := indices + [i - 1];
        i := i - 1;
      }

      jacobIdx := jacobIdx + 1;
      prevJacob := currJacob;
      currJacob := Jacobsthal(jacobIdx);
      if len <= prevJacob { assert LastGroup(indices, len, jacobIdx - 2); }
    }
    RunIsUnique(indices, len);
  }

  // ----- sorted sequences and insertion -----

  predicate Sorted(s: seq<int>) {
    forall i, j :: 0 <= i < j < |s| ==> s[i] <= s[j]
  }

  /** pos separates what is at most v from what exceeds v. */
  predicate Separates(s: seq<int>, v: int, pos: nat) {
    && pos <= |s|
    && (forall i :: 0 <= i < pos ==> s[i] <= v)
    && (forall i :: pos <= i < |s| ==> v < s[i])
  }

  /** The binary search of std::upper_bound, in the len elements from pos on. */
  function SearchFrom(s: seq<int>, v: int, pos: nat, len: nat): (r: nat)
    requires pos + len <= |s|
    ensures pos <= r <= pos + len
    decreases len
  {
    var half := len / 2;
    if len == 0 then pos
    else if v < s[pos + half] then SearchFrom(s, v, pos, half)
    else SearchFrom(s, v, pos + half + 1, len - half - 1)
  }

  function UpperBoundAt(s: seq<int>, v: int): (r: nat)
    ensures r <= |s|
  {
    SearchFrom(s, v, 0, |s|)
  }

  predicate Below(s: seq<int>, v: int, pos: nat)
    requires pos <= |s|
  {
    forall i :: 0 <= i < pos ==> s[i] <= v
  }

  predicate Above(s: seq<int>, v: int, pos: nat) { forall i :: pos <= i < |s| ==> v < s[i] }

  lemma Halves(s: seq<int>, v: int, mid: nat)
    requires Sorted(s) && mid < |s|
    ensures v < s[mid] ==> Above(s, v, mid)
    ensures v >= s[mid] ==> Below(s, v, mid + 1)
  {
  }

  /** On a sorted range the position separates. */
  lemma {:induction false} SearchSeparates(s: seq<int>, v: int, pos: nat, len: nat)
    requires Sorted(s) && pos + len <= |s| && Below(s, v, pos) && Above(s, v, pos + len)
    ensures Separates(s, v, SearchFrom(s, v, pos, len))
    decreases len
  {
    if len == 0 {
      SearchEnd(s, v, pos);
      hide Sorted, SearchFrom;
    } else {
      hide *;
      SearchStep(s, v, pos, len);
      var mid := pos + len / 2;
      Halves(s, v, mid);
      if v < s[mid] {
        SearchSeparates(s, v, pos, len / 2);
      } else {
        SearchSeparates(s, v, mid + 1, len - len / 2 - 1);
      }
    }
  }

  lemma UpperBoundSeparates(s: seq<int>, v: int)
    ensures Sorted(s) ==> Separates(s, v, UpperBoundAt(s, v))
  {
    if Sorted(s) { SearchSeparates(s, v, 0, |s|); }
  }

  /** std::upper_bound: on an unsorted range only the bounds of the position hold, but
      it is the same position in every container. */
  method UpperBound(s: seq<int>, v: int) returns (pos: nat)
    ensures pos == UpperBoundAt(s, v) <= |s|
    ensures Sorted(s) ==> Separates(s, v, pos)
  {
    pos := 0;
    var len := |s|;
    assert SearchFrom(s, v, 0, |s|) == UpperBoundAt(s, v);
    hide *;
    while len > 0
      invariant 0 <= len
      invariant pos + len <= |s| && SearchFrom(s, v, pos, len) == UpperBoundAt(s, v)
    {
      SearchStep(s, v, pos, len);
      var half := len / 2;
      if v < s[pos + half] {
        len := half;
      } else {
        pos := pos + half + 1;
        len := len - half - 1;
      }
    }
    SearchEnd(s, v, pos);
    UpperBoundSeparates(s, v);
  }

  lemma SearchEnd(s: seq<int>, v: int, pos: nat)
    requires pos <= |s|
    ensures SearchFrom(s, v, pos, 0) == pos
  {
  }

  lemma SearchStep(s: seq<int>, v: int, pos: nat, len: nat)
    requires pos + len <= |s| && len > 0
    ensures var half := len / 2;
            SearchFrom(s, v, pos, len) == if v < s[pos + half] then SearchFrom(s, v, pos, half)
                                          else SearchFrom(s, v, pos + half + 1, len - half - 1)
  {
  }

  function InsertAt(s: seq<int>, pos: nat, v: int): (r: seq<int>)
    requires pos <= |s|
    ensures multiset(r) == multiset(s) + multiset{v}
  {
    assert s == s[..pos] + s[pos..];
    s[..pos] + [v] + s[pos..]
  }

  /** Inserting neither repairs nor spoils the order: an unsorted sequence stays
      unsorted wherever the value goes. */
  lemma InsertKeepsOrder(s: seq<int>, pos: nat, v: int)
    requires pos <= |s|
    requires Sorted(s) ==> Separates(s, v, pos)
    ensures Sorted(InsertAt(s, pos, v)) <==> Sorted(s)
  {
    var r := InsertAt(s, pos, v);
    if Sorted(r) {
      forall i, j | 0 <= i < j < |s| ensures s[i] <= s[j] {
        assert s[i] == r[if i < pos then i else i + 1];
        assert s[j] == r[if j < pos then j else j + 1];
      }
    }
  }

  function Inserted(chain: seq<int>, value: int): seq<int> { InsertAt(chain, UpperBoundAt(chain, value), value) }

  lemma InsertedKeeps(chain: seq<int>, value: int)
    ensures multiset(Inserted(chain, value)) == multiset(chain) + multiset{value}
    ensures Sorted(Inserted(chain, value)) <==> Sorted(chain)
  {
    if Sorted(chain) { SearchSeparates(chain, value, 0, |chain|); }
    hide Sorted, Separates, SearchFrom, InsertAt;
    InsertKeepsOrder(chain, UpperBoundAt(chain, value), value);
  }

  /** upper_bound and insert, as the code always uses them together. */
  method InsertSorted(chain: seq<int>, value: int) returns (r: seq<int>)
    ensures r == Inserted(chain, value)
    ensures multiset(r) == multiset(chain) + multiset{value}
    ensures Sorted(r) <==> Sorted(chain)
  {
    InsertedKeeps(chain, value);
    hide Sorted, Separates, UpperBoundAt, InsertAt;
    var pos := UpperBound(chain, value);
    r := InsertAt(chain, pos, value);
  }

  // ----- inserting the pending elements -----

  /** The pending elements below n whose index is in s, or not in s. */
  function Chosen(pend: seq<int>, s: set<nat>, n: nat): multiset<int>
    requires n <= |pend|
  {
    if n == 0 then multiset{}
    else if n - 1 in s then Chosen(pend, s, n - 1) + multiset{pend[n - 1]}
    else Chosen(pend, s, n - 1)
  }

  function Others(pend: seq<int>, s: set<nat>, n: nat): multiset<int>
    requires n <= |pend|
  {
    if n == 0 then multiset{}
    else if n - 1 in s then Others(pend, s, n - 1)
    else Others(pend, s, n - 1) + multiset{pend[n - 1]}
  }

  lemma {:induction false} ChooseOneMore(pend: seq<int>, s: set<nat>, i: nat, n: nat)
    requires n <= |pend| && i !in s
    ensures i < n ==> Chosen(pend, s + {i}, n) == Chosen(pend, s, n) + multiset{pend[i]}
    ensures i >= n ==> Chosen(pend, s + {i}, n) == Chosen(pend, s, n)
  {
    if n > 0 { ChooseOneMore(pend, s, i, n - 1); }
  }

  lemma {:induction false} ChosenAndOthers(pend: seq<int>, s: set<nat>, n: nat)
    requires n <= |pend|
    ensures multiset(pend[..n]) == Chosen(pend, s, n) + Others(pend, s, n)
  {
    if n > 0 {
      ChosenAndOthers(pend, s, n - 1);
      assert pend[..n] == pend[..n - 1] + [pend[n - 1]];
    }
  }

  lemma {:induction false} NoneChosen(pend: seq<int>, n: nat)
    requires n <= |pend|
    ensures Chosen(pend, {}, n) == multiset{}
  {
    if n > 0 { NoneChosen(pend, n - 1); }
  }

  predicate Distinct(s: seq<nat>) {
    forall i, j :: 0 <= i < j < |s| ==> s[i] != s[j]
  }

  /** The chain and the indices inserted, after the indices from i on. */
  function ChosenFrom(chain: seq<int>, pend: seq<int>, jacobSeq: seq<nat>, i: nat, inserted: set<nat>): (seq<int>, set<nat>)
    requires i <= |jacobSeq|
    decreases |jacobSeq| - i
  {
    if i == |jacobSeq| || jacobSeq[i] >= |pend| then (chain, inserted)
    else ChosenFrom(Inserted(chain, pend[jacobSeq[i]]), pend, jacobSeq, i + 1, inserted + {jacobSeq[i]})
  }

  lemma {:induction false} ChosenFromKeeps(chain: seq<int>, pend: seq<int>, jacobSeq: seq<nat>, i: nat,
                                           inserted: set<nat>, start: multiset<int>)
    requires Distinct(jacobSeq) && i <= |jacobSeq|
    requires forall x :: x in inserted ==> x in jacobSeq[..i]
    requires multiset(chain) == start + Chosen(pend, inserted, |pend|)
    ensures var (mainChain, all) := ChosenFrom(chain, pend, jacobSeq, i, inserted);
            && multiset(mainChain) == start + Chosen(pend, all, |pend|)
            && (Sorted(mainChain) <==> Sorted(chain))
    decreases |jacobSeq| - i
  {
    if i < |jacobSeq| && jacobSeq[i] < |pend| {
      var idx := jacobSeq[i];
      assert idx !in jacobSeq[..i];
      assert jacobSeq[..i + 1] == jacobSeq[..i] + [idx];
      hide Chosen, Sorted, Inserted, Distinct;
      ChooseOneMore(pend, inserted, idx, |pend|);
      InsertedKeeps(chain, pend[idx]);
      ChosenFromKeeps(Inserted(chain, pend[idx]), pend, jacobSeq, i + 1, inserted + {idx}, start);
    }
  }

  /** The pass over the Jacobsthal indices. */
  method InsertChosen(chain: seq<int>, pend: seq<int>, jacobSeq: seq<nat>)
    returns (mainChain: seq<int>, inserted: set<nat>)
    requires Distinct(jacobSeq)
    ensures (mainChain, inserted) == ChosenFrom(chain, pend, jacobSeq, 0, {})
    ensures multiset(mainChain) == multiset(chain) + Chosen(pend, inserted, |pend|)
    ensures Sorted(mainChain) <==> Sorted(chain)
  {
    mainChain := chain;
    inserted := {};
    var i := 0;
    hide *;
    while i < |jacobSeq| && jacobSeq[i] < |pend|
      invariant i <= |jacobSeq|
      invariant ChosenFrom(mainChain, pend, jacobSeq, i, inserted) == ChosenFrom(chain, pend, jacobSeq, 0, {})
    {
      ChosenStep(mainChain, pend, jacobSeq, i, inserted);
      var idx := jacobSeq[i];
      mainChain := InsertSorted(mainChain, pend[idx]);
      inserted := inserted + {idx};
      i := i + 1;
    }
    ChosenEnd(mainChain, pend, jacobSeq, i, inserted);
    ChosenKeeps(chain, pend, jacobSeq);
  }

  lemma ChosenKeeps(chain: seq<int>, pend: seq<int>, jacobSeq: seq<nat>)
    requires Distinct(jacobSeq)
    ensures var (mainChain, all) := ChosenFrom(chain, pend, jacobSeq, 0, {});
            && multiset(mainChain) == multiset(chain) + Chosen(pend, all, |pend|)
            && (Sorted(mainChain) <==> Sorted(chain))
  {
    hide *;
    NoneChosen(pend, |pend|);
    ChosenFromKeeps(chain, pend, jacobSeq, 0, {}, multiset(chain));
  }

  lemma ChosenStep(chain: seq<int>, pend: seq<int>, jacobSeq: seq<nat>, i: nat, inserted: set<nat>)
    requires i < |jacobSeq| && jacobSeq[i] < |pend|
    ensures ChosenFrom(chain, pend, jacobSeq, i, inserted)
            == ChosenFrom(Inserted(chain, pend[jacobSeq[i]]), pend, jacobSeq, i + 1, inserted + {jacobSeq[i]})
  {
    hide Inserted;
  }

  lemma ChosenEnd(chain: seq<int>, pend: seq<int>, jacobSeq: seq<nat>, i: nat, inserted: set<nat>)
    requires i <= |jacobSeq| && (i < |jacobSeq| ==> jacobSeq[i] >= |pend|)
    ensures ChosenFrom(chain, pend, jacobSeq, i, inserted) == (chain, inserted)
  {
    hide Inserted;
  }

  /** The chain after the elements from k on that are not yet inserted. */
  function OthersFrom(chain: seq<int>, pend: seq<int>, inserted: set<nat>, k: nat): seq<int>
    requires k <= |pend|
    decreases |pend| - k
  {
    if k == |pend| then chain
    else OthersFrom(if k in inserted then chain else Inserted(chain, pend[k]), pend, inserted, k + 1)
  }

  lemma {:induction false} OthersFromKeeps(chain: seq<int>, pend: seq<int>, inserted: set<nat>, k: nat, start: multiset<int>)
    requires k <= |pend| && multiset(chain) == start + Others(pend, inserted, k)
    ensures var r := OthersFrom(chain, pend, inserted, k);
            && multiset(r) == start + Others(pend, inserted, |pend|)
            && (Sorted(r) <==> Sorted(chain))
    decreases |pend| - k
  {
    if k < |pend| {
      InsertedKeeps(chain, pend[k]);
      hide Sorted, Inserted;
      OthersFromKeeps(if k in inserted then chain else Inserted(chain, pend[k]), pend, inserted, k + 1, start);
    }
  }

  function WithPending(chain: seq<int>, pend: seq<int>, jacobSeq: seq<nat>): seq<int> {
    var (mainChain, inserted) := ChosenFrom(chain, pend, jacobSeq, 0, {});
    OthersFrom(mainChain, pend, inserted, 0)
  }

  /** Both passes together insert every pending index once, so the result is a
      permutation; and it is sorted exactly if the main chain was. */
  lemma WithPendingKeeps(chain: seq<int>, pend: seq<int>, jacobSeq: seq<nat>)
    requires Distinct(jacobSeq)
    ensures multiset(WithPending(chain, pend, jacobSeq)) == multiset(chain) + multiset(pend)
    ensures Sorted(WithPending(chain, pend, jacobSeq)) <==> Sorted(chain)
  {
    var (mainChain, inserted) := ChosenFrom(chain, pend, jacobSeq, 0, {});
    ChosenKeeps(chain, pend, jacobSeq);
    assert Others(pend, inserted, 0) == multiset{};
    hide Chosen, Others, Sorted, Inserted, Distinct, OthersFrom, ChosenFrom;
    OthersFromKeeps(mainChain, pend, inserted, 0, multiset(mainChain));
    ChosenAndOthers(pend, inserted, |pend|);
    assert pend[..|pend|] == pend;
  }

  method InsertPending(chain: seq<int>, pend: seq<int>, jacobSeq: seq<nat>) returns (mainChain: seq<int>)
    requires Distinct(jacobSeq)
    ensures mainChain == WithPending(chain, pend, jacobSeq)
    ensures multiset(mainChain) == multiset(chain) + multiset(pend)
    ensures Sorted(mainChain) <==> Sorted(chain)
  {
    WithPendingKeeps(chain, pend, jacobSeq);
    mainChain := chain;
    hide Sorted, Inserted, Distinct;
    if pend == [] {
      NothingPending(chain, jacobSeq);
      return;
    }

    var inserted;
    hide Chosen;
    mainChain, inserted := InsertChosen(chain, pend, jacobSeq);
    hide ChosenFrom;
    for k := 0 to |pend|
      invariant OthersFrom(mainChain, pend, inserted, k) == WithPending(chain, pend, jacobSeq)
    {
      if k !in inserted {
        mainChain := InsertSorted(mainChain, pend[k]);
      }
    }
  }

  lemma NothingPending(chain: seq<int>, jacobSeq: seq<nat>)
    ensures WithPending(chain, [], jacobSeq) == chain
  {
  }

  // ----- the small case -----

  /** b with its element i moved to the front of position j + 1. */
  function Moved(b: seq<int>, j: int, i: nat): (r: seq<int>)
    requires -1 <= j < i < |b|
    ensures |r| == |b|
  {
    InsertAt(b[..i], j + 1, b[i]) + b[i + 1..]
  }

  lemma MovedAt(b: seq<int>, j: int, i: nat)
    requires -1 <= j < i < |b|
    ensures forall k :: 0 <= k <= j || i < k < |b| ==> Moved(b, j, i)[k] == b[k]
    ensures forall k :: j + 1 < k <= i ==> Moved(b, j, i)[k] == b[k - 1]
    ensures Moved(b, j, i)[j + 1] == b[i]
  {
  }

  lemma MovedPermutes(b: seq<int>, j: int, i: nat)
    requires -1 <= j < i < |b|
    ensures multiset(Moved(b, j, i)) == multiset(b)
  {
    assert b == b[..i] + [b[i]] + b[i + 1..];
  }

  lemma MovedSorted(b: seq<int>, j: int, i: nat)
    requires -1 <= j < i < |b| && Sorted(b[..i])
    requires forall k :: j < k < i ==> b[k] > b[i]
    requires j >= 0 ==> b[j] <= b[i]
    ensures Sorted(Moved(b, j, i)[..i + 1])
  {
    var p := b[..i];
    assert forall k :: 0 <= k <= j ==> p[k] <= p[j];
    InsertKeepsOrder(p, j + 1, b[i]);
    assert Moved(b, j, i)[..i + 1] == InsertAt(p, j + 1, b[i]);
  }

  lemma KeyPlaced(arr: seq<int>, b: seq<int>, j: int, i: nat)
    requires -1 <= j < i < |b| == |arr|
    requires forall k :: 0 <= k <= j + 1 || i < k < |b| ==> arr[k] == b[k]
    requires forall k :: j + 1 < k <= i ==> arr[k] == b[k - 1]
    ensures arr[j + 1 := b[i]] == Moved(b, j, i)
  {
    MovedAt(b, j, i);
    hide Moved;
    var r := arr[j + 1 := b[i]];
    forall k | 0 <= k < |b| ensures r[k] == Moved(b, j, i)[k] { }
  }

  /** One round of the insertion sort: shift the larger elements, put the key. */
  method InsertKey(b: seq<int>, i: nat) returns (arr: seq<int>)
    requires i < |b| && Sorted(b[..i])
    ensures |arr| == |b| && Sorted(arr[..i + 1]) && multiset(arr) == multiset(b)
  {
    arr := b;
    var key := arr[i];
    var j := i - 1;
    hide Moved, Sorted;
    while j >= 0 && arr[j] > key
      invariant -1 <= j < i && |arr| == |b|
      invariant forall k :: 0 <= k <= j + 1 || i < k < |b| ==> arr[k] == b[k]
      invariant forall k :: j + 1 < k <= i ==> arr[k] == b[k - 1]
      invariant forall k :: j < k < i ==> b[k] > key
    {
      arr := arr[j + 1 := arr[j]];
      j := j - 1;
    }
    KeyPlaced(arr, b, j, i);
    arr := arr[j + 1 := key];
    MovedSorted(b, j, i);
    MovedPermutes(b, j, i);
  }

  method InsertionSort(s: seq<int>) returns (arr: seq<int>)
    requires |s| > 0
    ensures Sorted(arr) && multiset(arr) == multiset(s)
  {
    arr := s;
    var i := 1;
    while i < |arr|
      invariant 1 <= i <= |arr| == |s|
      invariant Sorted(arr[..i]) && multiset(arr) == multiset(s)
    {
      arr := InsertKey(arr, i);
      i := i + 1;
    }
    assert arr[..i] == arr;
  }

  // ----- the recursive case -----

  function Max(a: int, b: int): int { if a > b then a else b }
  function Min(a: int, b: int): int { if a > b then b else a }

  /** The larger and the smaller element of each pair of neighbours. */
  function Larger(s: seq<int>): (r: seq<int>)
    ensures |r| == |s| / 2
  {
    seq(|s| / 2, i requires 0 <= i < |s| / 2 => Max(s[2 * i], s[2 * i + 1]))
  }

  function Smaller(s: seq<int>): (r: seq<int>)
    ensures |r| == |s| / 2
  {
    seq(|s| / 2, i requires 0 <= i < |s| / 2 => Min(s[2 * i], s[2 * i + 1]))
  }

  function Straggler(s: seq<int>): seq<int> {
    if |s| % 2 != 0 then [s[|s| - 1]] else []
  }

  lemma FirstPair(s: seq<int>)
    requires |s| >= 2
    ensures Larger(s) == [Max(s[0], s[1])] + Larger(s[2..])
    ensures Smaller(s) == [Min(s[0], s[1])] + Smaller(s[2..])
    ensures Straggler(s) == Straggler(s[2..])
  {
  }

  lemma FirstPairElements(s: seq<int>)
    requires |s| >= 2
    ensures multiset(s) == multiset{s[0]} + multiset{s[1]} + multiset(s[2..])
    ensures multiset(Larger(s)) == multiset{Max(s[0], s[1])} + multiset(Larger(s[2..]))
    ensures multiset(Smaller(s)) == multiset{Min(s[0], s[1])} + multiset(Smaller(s[2..]))
    ensures Straggler(s) == Straggler(s[2..])
  {
    FirstPair(s);
    assert s == [s[0]] + [s[1]] + s[2..];
    hide Larger, Smaller, Straggler;
  }

  lemma Regroup(x: int, y: int, l: multiset<int>, m: multiset<int>, t: multiset<int>)
    ensures multiset{x} + multiset{y} + (l + m + t) == (multiset{Max(x, y)} + l) + (multiset{Min(x, y)} + m) + t
  {
  }

  lemma {:induction false} PairsPermute(s: seq<int>)
    ensures multiset(s) == multiset(Larger(s)) + multiset(Smaller(s)) + multiset(Straggler(s))
    decreases |s|
  {
    if |s| >= 2 {
      var t := s[2..];
      PairsPermute(t);
      hide *;
      FirstPairElements(s);
      Regroup(s[0], s[1], multiset(Larger(t)), multiset(Smaller(t)), multiset(Straggler(t)));
    } else {
      assert s == Straggler(s);
    }
  }

  /** At every level of recursion with more than 16 elements, the smaller element
      of the first pair is at most every larger-of-pair element. */
  predicate Sortable(s: seq<int>)
    decreases |s|
  {
    |s| <= 16 ||
    (Sortable(Larger(s)) && AtMostAll(Min(s[0], s[1]), Larger(s)))
  }

  predicate AtMostAll(v: int, s: seq<int>) { forall k :: 0 <= k < |s| ==> v <= s[k] }

  lemma AtMostAllPermuted(v: int, s: seq<int>, t: seq<int>)
    requires multiset(s) == multiset(t) && AtMostAll(v, s)
    ensures AtMostAll(v, t)
  {
    forall k | 0 <= k < |t| ensures v <= t[k] {
      assert t[k] in multiset(s);
    }
  }

  lemma SameBound(v: int, s: seq<int>, t: seq<int>)
    requires multiset(s) == multiset(t)
    ensures AtMostAll(v, s) <==> AtMostAll(v, t)
  {
    if AtMostAll(v, s) { AtMostAllPermuted(v, s, t); }
    if AtMostAll(v, t) { AtMostAllPermuted(v, t, s); }
  }

  lemma FrontSorted(v: int, s: seq<int>)
    ensures Sorted([v] + s) <==> Sorted(s) && AtMostAll(v, s)
  {
    var r := [v] + s;
    if Sorted(r) {
      forall k | 0 <= k < |s| ensures v <= s[k] { assert r[0] == v && r[k + 1] == s[k]; }
      forall i, j | 0 <= i < j < |s| ensures s[i] <= s[j] { assert r[i + 1] == s[i] && r[j + 1] == s[j]; }
    }
  }

  /** The pairs, larger element first, taken apart into main chain and pending. */
  method SplitPairs(arr: seq<int>) returns (mainChain: seq<int>, pend: seq<int>)
    ensures mainChain == Larger(arr) && pend == Smaller(arr)
  {
    var pairs: seq<(int, int)> := [];
    var i := 0;
    while i + 1 < |arr|
      invariant i % 2 == 0 && |pairs| == i / 2 && i <= |arr|
      invariant forall k :: 0 <= k < |pairs| ==> pairs[k] == (Larger(arr)[k], Smaller(arr)[k])
    {
      if arr[i] > arr[i + 1] {
        pairs := pairs + [(arr[i], arr[i + 1])];
      } else {
        pairs := pairs + [(arr[i + 1], arr[i])];
      }
      i := i + 2;
    }

    mainChain := [];
    pend := [];
    for k := 0 to |pairs|
      invariant mainChain == Larger(arr)[..k] && pend == Smaller(arr)[..k]
    {
      mainChain := mainChain + [pairs[k].0];
      pend := pend + [pairs[k].1];
    }
  }

  ghost function Merged(chain: seq<int>, pending: seq<int>): seq<int>
    requires pending != []
  {
    WithPending([pending[0]] + chain, pending[1..], Run(|pending| - 1))
  }

  /** The first pending element goes to the front unchecked, the others are inserted. */
  method MergePending(chain: seq<int>, pending: seq<int>) returns (mainChain: seq<int>)
    requires pending != []
    ensures mainChain == Merged(chain, pending)
    ensures multiset(mainChain) == multiset(chain) + multiset(pending)
    ensures Sorted(mainChain) <==> Sorted(chain) && AtMostAll(pending[0], chain)
  {
    FrontSorted(pending[0], chain);
    FrontMultiset(chain, pending);
    assert Merged(chain, pending) == WithPending([pending[0]] + chain, pending[1..], Run(|pending| - 1));
    hide *;
    mainChain := [pending[0]] + chain;
    var pend := pending[1..];
    var jacobSeq := GenerateJacobsthalSequence(|pend|);
    mainChain := InsertPending(mainChain, pend, jacobSeq);
  }

  lemma FrontMultiset(chain: seq<int>, pending: seq<int>)
    requires pending != []
    ensures multiset([pending[0]] + chain) + multiset(pending[1..]) == multiset(chain) + multiset(pending)
  {
    assert pending == [pending[0]] + pending[1..];
  }

  /** The sorted form of a sequence; there is one, and only one. */
  ghost function InOrder(s: seq<int>): seq<int> {
    if t: seq<int> :| Sorted(t) && multiset(t) == multiset(s) then t else s
  }

  lemma OnlyOrder(s: seq<int>, t: seq<int>)
    requires Sorted(t) && multiset(t) == multiset(s)
    ensures t == InOrder(s)
  {
    SortedUnique(t, InOrder(s));
  }

  /** The result of the sort, on any input. */
  ghost function Result(s: seq<int>): seq<int>
    decreases |s|
  {
    if |s| <= 16 then InOrder(s)
    else
      var chain := Merged(Result(Larger(s)), Smaller(s));
      if |s| % 2 == 0 then chain else Inserted(chain, s[|s| - 1])
  }

  /** fordJohnsonVector / fordJohnsonDeque: on every input a result that depends on the
      elements alone; a permutation in any case, and sorted if and only if the input
      is Sortable. */
  method Sort(s: seq<int>) returns (arr: seq<int>)
    ensures arr == Result(s)
    ensures multiset(arr) == multiset(s)
    ensures Sorted(arr) <==> Sortable(s)
    decreases |s|
  {
    arr := s;
    if |arr| <= 1 {
      OnlyOrder(s, arr);
      return;
    }

    if |arr| <= 16 {
      arr := InsertionSort(arr);
      OnlyOrder(s, arr);
      return;
    }

    var hasStraggler := |arr| % 2 != 0;
    var straggler := if hasStraggler then arr[|arr| - 1] else 0;
    var mainChain, pend := SplitPairs(arr);
    assert pend[0] == Min(s[0], s[1]);
    assert Straggler(s) == if hasStraggler then [straggler] else [];
    PairsPermute(s);
    hide Larger, Smaller, Straggler, Sorted, AtMostAll;

    mainChain := Sort(mainChain);
    SameBound(pend[0], Larger(s), mainChain);
    mainChain := MergePending(mainChain, pend);
    if hasStraggler {
      mainChain := InsertSorted(mainChain, straggler);
    }
    arr := mainChain;
  }

  // ----- the order of insertion -----

  /** The values inserted one after the other, each where upper_bound says. */
  function InsertEach(chain: seq<int>, values: seq<int>): seq<int>
    decreases |values|
  {
    if values == [] then chain else InsertEach(Inserted(chain, values[0]), values[1..])
  }

  function Reversed(s: seq<int>): seq<int> { seq(|s|, i requires 0 <= i < |s| => s[|s| - 1 - i]) }

  lemma {:induction false} InsertBoth(chain: seq<int>, a: seq<int>, b: seq<int>)
    ensures InsertEach(chain, a + b) == InsertEach(InsertEach(chain, a), b)
    decreases |a|
  {
    if a == [] {
      assert a + b == b;
    } else {
      assert (a + b)[1..] == a[1..] + b && (a + b)[0] == a[0];
      hide Inserted;
      InsertBoth(Inserted(chain, a[0]), a[1..], b);
    }
  }

  lemma InsertFirst(chain: seq<int>, v: int, values: seq<int>)
    ensures InsertEach(chain, [v] + values) == InsertEach(Inserted(chain, v), values) && InsertEach(chain, []) == chain
  {
    assert ([v] + values)[1..] == values;
    hide Inserted;
  }

  lemma ReversedSlice(s: seq<int>, lo: nat, hi: nat)
    requires lo < hi <= |s|
    ensures Reversed(s[lo..hi]) == [s[hi - 1]] + Reversed(s[lo..hi - 1])
    ensures s[lo..hi] == [s[lo]] + s[lo + 1..hi]
  {
  }

  lemma EmptySlice(s: seq<int>, n: nat)
    requires n <= |s|
    ensures s[n..n] == [] && Reversed(s[n..n]) == []
  {
  }

  lemma GroupAt(js: seq<nat>, len: nat, k: nat, i: nat)
    requires LastGroup(js, len, k) && i <= |js|
    ensures J(k) <= len - i && |js| == len - J(k) && (i < |js| ==> js[i] == len - 1 - i && J(k) < len - i)
  {
  }

  /** The first pass takes the pending elements from the last down to the one at the
      Jacobsthal number. */
  lemma {:induction false} FirstPass(chain: seq<int>, pend: seq<int>, js: seq<nat>, k: nat, i: nat, inserted: set<nat>)
    requires LastGroup(js, |pend|, k) && i <= |js|
    ensures J(k) <= |pend| - i
    ensures var (mainChain, all) := ChosenFrom(chain, pend, js, i, inserted);
            && mainChain == InsertEach(chain, Reversed(pend[J(k)..|pend| - i]))
            && forall x: nat :: x in all <==> x in inserted || J(k) <= x < |pend| - i
    decreases |js| - i
  {
    hide *;
    GroupAt(js, |pend|, k, i);
    var hi := |pend| - i;
    if i == |js| {
      EmptySlice(pend, hi);
      InsertFirst(chain, 0, []);
      ChosenEnd(chain, pend, js, i, inserted);
    } else {
      var idx := js[i];
      ReversedSlice(pend, J(k), hi);
      ChosenStep(chain, pend, js, i, inserted);
      InsertFirst(chain, pend[idx], Reversed(pend[J(k)..hi - 1]));
      FirstPass(Inserted(chain, pend[idx]), pend, js, k, i + 1, inserted + {idx});
    }
  }

  lemma OthersStep(chain: seq<int>, pend: seq<int>, inserted: set<nat>, n: nat)
    requires n < |pend|
    ensures OthersFrom(chain, pend, inserted, n)
            == OthersFrom(if n in inserted then chain else Inserted(chain, pend[n]), pend, inserted, n + 1)
    ensures OthersFrom(chain, pend, inserted, |pend|) == chain
  {
    hide Inserted;
  }

  /** The second pass takes the others from the first on. */
  lemma {:induction false} SecondPass(chain: seq<int>, pend: seq<int>, inserted: set<nat>, j: nat, n: nat)
    requires n <= j <= |pend| && forall x: nat :: x in inserted <==> j <= x < |pend|
    ensures OthersFrom(chain, pend, inserted, n) == InsertEach(chain, pend[n..j])
    decreases j - n
  {
    hide *;
    if n == j {
      EmptySlice(pend, n);
      InsertFirst(chain, 0, []);
      OthersDone(chain, pend, inserted, n);
    } else {
      ReversedSlice(pend, n, j);
      OthersStep(chain, pend, inserted, n);
      InsertFirst(chain, pend[n], pend[n + 1..j]);
      SecondPass(Inserted(chain, pend[n]), pend, inserted, j, n + 1);
    }
  }

  lemma {:induction false} OthersDone(chain: seq<int>, pend: seq<int>, inserted: set<nat>, n: nat)
    requires n <= |pend| && forall x: nat :: n <= x < |pend| ==> x in inserted
    ensures OthersFrom(chain, pend, inserted, n) == chain
    decreases |pend| - n
  {
    if n < |pend| {
      hide *;
      OthersStep(chain, pend, inserted, n);
      OthersDone(chain, pend, inserted, n + 1);
    }
  }

  lemma WholeSlices(s: seq<int>, j: nat)
    requires j <= |s|
    ensures s[j..|s| - 0] == s[j..] && s[0..j] == s[..j]
  {
  }

  lemma PassesUnfold(chain: seq<int>, pend: seq<int>, js: seq<nat>)
    ensures var (mainChain, inserted) := ChosenFrom(chain, pend, js, 0, {});
            WithPending(chain, pend, js) == OthersFrom(mainChain, pend, inserted, 0)
  {
    hide ChosenFrom, OthersFrom;
  }

  lemma BothPasses(chain: seq<int>, pend: seq<int>, k: nat)
    requires 2 <= k && J(k) < |pend| <= J(k + 1) && |pend| >= 2
    ensures WithPending(chain, pend, Run(|pend|)) == InsertEach(chain, Reversed(pend[J(k)..]) + pend[..J(k)])
  {
    hide *;
    var js := Run(|pend|);
    RunIsGroup(|pend|, k);
    FirstPass(chain, pend, js, k, 0, {});
    var (mainChain, inserted) := ChosenFrom(chain, pend, js, 0, {});
    WholeSlices(pend, J(k));
    PassesUnfold(chain, pend, js);
    SecondPass(mainChain, pend, inserted, J(k), 0);
    InsertBoth(chain, Reversed(pend[J(k)..]), pend[..J(k)]);
  }

  lemma RunIsGroup(len: nat, k: nat)
    requires 2 <= k && J(k) < len <= J(k + 1) && len >= 2
    ensures LastGroup(Run(len), len, k)
  {
    var indices: seq<nat> := seq(len - J(k), t requires 0 <= t < len - J(k) => (len - 1 - t) as nat);
    assert LastGroup(indices, len, k);
    RunIsUnique(indices, len);
  }

  /** What the sort does at a level with more than 16 elements, in order: in front goes the
      smaller element of the first pair, behind it the larger elements, sorted; then the
      other smaller elements are inserted, from the last down to the one at the largest
      Jacobsthal number below their count, and the rest from the first on; and last the
      straggler. */
  lemma InsertionOrder(s: seq<int>, k: nat)
    requires |s| > 16 && 2 <= k && J(k) < |s| / 2 - 1 <= J(k + 1)
    ensures var pend := Smaller(s)[1..];
            Result(s) == InsertEach([Smaller(s)[0]] + Result(Larger(s)),
                                    Reversed(pend[J(k)..]) + pend[..J(k)] + Straggler(s))
  {
    hide *;
    LevelUnfold(s);
    var pend, chain := Smaller(s)[1..], [Smaller(s)[0]] + Result(Larger(s));
    var order := Reversed(pend[J(k)..]) + pend[..J(k)];
    BothPasses(chain, pend, k);
    InsertBoth(chain, order, Straggler(s));
  }

  lemma ResultUnfold(s: seq<int>)
    requires |s| > 16
    ensures |Smaller(s)| == |s| / 2
    ensures var chain := Merged(Result(Larger(s)), Smaller(s));
            Result(s) == if |s| % 2 == 0 then chain else Inserted(chain, s[|s| - 1])
  {
    hide Merged, Inserted, InOrder, Larger, Smaller;
  }

  lemma MergedUnfold(chain: seq<int>, pending: seq<int>)
    requires pending != []
    ensures Merged(chain, pending) == WithPending([pending[0]] + chain, pending[1..], Run(|pending| - 1))
  {
    hide WithPending, Run;
  }

  lemma StragglerInserted(chain: seq<int>, s: seq<int>)
    requires s != []
    ensures InsertEach(chain, Straggler(s)) == if |s| % 2 == 0 then chain else Inserted(chain, s[|s| - 1])
  {
    hide Inserted, InsertEach;
    InsertFirst(chain, s[|s| - 1], []);
    InsertFirst(Inserted(chain, s[|s| - 1]), 0, []);
    assert [s[|s| - 1]] + [] == [s[|s| - 1]];
  }

  lemma LevelUnfold(s: seq<int>)
    requires |s| > 16
    ensures |Smaller(s)| == |s| / 2 >= 8
    ensures var chain := WithPending([Smaller(s)[0]] + Result(Larger(s)), Smaller(s)[1..], Run(|s| / 2 - 1));
            Result(s) == InsertEach(chain, Straggler(s))
  {
    hide *;
    ResultUnfold(s);
    MergedUnfold(Result(Larger(s)), Smaller(s));
    StragglerInserted(Merged(Result(Larger(s)), Smaller(s)), s);
  }

  // ----- consequences -----

  lemma SameFirst(s: seq<int>, t: seq<int>)
    requires s != [] && t != [] && Sorted(s) && Sorted(t) && multiset(s) == multiset(t)
    ensures s[0] == t[0]
  {
    assert s[0] in multiset(t) && t[0] in multiset(s);
  }

  lemma SameLength(s: seq<int>, t: seq<int>)
    requires multiset(s) == multiset(t)
    ensures |s| == |t|
  {
    assert |multiset(s)| == |multiset(t)|;
  }

  /** The first element and the rest of a sorted sequence are determined by its multiset. */
  lemma {:induction false} SortedUnique(s: seq<int>, t: seq<int>)
    requires Sorted(s) && Sorted(t) && multiset(s) == multiset(t)
    ensures s == t
    decreases |s|
  {
    SameLength(s, t);
    if s != [] {
      SameFirst(s, t);
      TailMultiset(s);
      TailMultiset(t);
      assert Sorted(s[1..]) && Sorted(t[1..]);
      hide Sorted;
      SortedUnique(s[1..], t[1..]);
      assert s == [s[0]] + s[1..] && t == [t[0]] + t[1..];
    }
  }

  lemma TailMultiset(s: seq<int>)
    requires s != []
    ensures multiset(s[1..]) == multiset(s) - multiset{s[0]}
  {
    assert s == [s[0]] + s[1..];
  }

  /** The program's object: the same numbers in a vector and in a deque, each sorted by
      its own version of the code. */
  class PmergeMe {
    var vectorData: seq<int>
    var dequeData: seq<int>

    constructor ()
      ensures vectorData == dequeData == []
    {
      vectorData, dequeData := [], [];
    }

    /** The loop of parseInput, for arguments that are numbers. */
    method ParseInput(numbers: seq<int>)
      modifies this
      ensures vectorData == old(vectorData) + numbers && dequeData == old(dequeData) + numbers
    {
      var i := 0;
      while i < |numbers|
        invariant i <= |numbers|
        invariant vectorData == old(vectorData) + numbers[..i] && dequeData == old(dequeData) + numbers[..i]
      {
        vectorData := vectorData + [numbers[i]];
        dequeData := dequeData + [numbers[i]];
        i := i + 1;
      }
      assert numbers[..i] == numbers;
    }

    /** Whatever the numbers, sortable or not, both containers end with the same sequence. */
    method SortBoth()
      modifies this
      ensures vectorData == Result(old(vectorData)) && dequeData == Result(old(dequeData))
      ensures multiset(vectorData) == old(multiset(vectorData)) && (Sorted(vectorData) <==> Sortable(old(vectorData)))
    {
      vectorData := Sort(vectorData);
      dequeData := Sort(dequeData);
    }
  }

  /** The vector and the deque version return the same sequence on every input. */
  method VersionsAgree(numbers: seq<int>) returns (vector: seq<int>, deque: seq<int>)
    ensures vector == deque == Result(numbers)
    ensures multiset(vector) == multiset(numbers) && (Sorted(vector) <==> Sortable(numbers))
  {
    var pm := new PmergeMe();
    pm.ParseInput(numbers);
    assert [] + numbers == numbers;
    pm.SortBoth();
    vector, deque := pm.vectorData, pm.dequeData;
  }

  /** One large first pair in front of n pairs (2, 1). */
  function LargeFirstPair(n: nat): seq<int> {
    if n == 0 then [100, 99] else LargeFirstPair(n - 1) + [2, 1]
  }

  lemma {:induction false} LargeFirstPairShape(n: nat)
    ensures var s := LargeFirstPair(n);
            |s| == 2 * n + 2 && s[0] == 100 && s[1] == 99 && (n > 0 ==> s[2 * n] == 2 && s[2 * n + 1] == 1)
  {
    if n > 0 { LargeFirstPairShape(n - 1); }
  }

  /** The documented promise to sort fails: this input has 18 elements and more. */
  lemma NotAlwaysSorted(n: nat)
    requires n >= 8
    ensures !Sortable(LargeFirstPair(n))
  {
    LargeFirstPairShape(n);
    assert Larger(LargeFirstPair(n))[n] == 2;
  }

  /** Every input of a length is sorted if and only if the length is at most 16. */
  lemma SortableLengths(len: nat)
    ensures (forall s: seq<int> :: |s| == len ==> Sortable(s)) <==> len <= 16
  {
    if len > 16 {
      var n := (len - 2) / 2;
      var s := LargeFirstPair(n) + if len % 2 == 0 then [] else [0];
      LargeFirstPairShape(n);
      assert |s| == len && s[0] == 100 && s[1] == 99 && s[2 * n] == 2 && s[2 * n + 1] == 1;
      assert Larger(s)[n] == 2 && Min(s[0], s[1]) == 99;
      assert !Sortable(s);
    }
  }

  /** An input already in order is among the sortable ones. */
  lemma {:induction false} SortedIsSortable(s: seq<int>)
    requires Sorted(s)
    ensures Sortable(s)
    decreases |s|
  {
    if |s| > 16 {
      var r := Larger(s);
      forall i, j | 0 <= i < j < |r| ensures r[i] <= r[j] {
        assert s[2 * i + 1] <= s[2 * j];
      }
      SortedIsSortable(r);
      forall k | 0 <= k < |r| ensures Min(s[0], s[1]) <= r[k] { assert s[0] <= s[2 * k + 1]; }
    }
  }
}
