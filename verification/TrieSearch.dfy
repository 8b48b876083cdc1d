/** Searching a query for all stored words: the start positions are split into chunks, one per
    thread, the chunks' answers are merged, sorted, and printed once per word. */
module TrieSearch {
  import opened Options
  import opened Tries

  const THREAD_NUM := 42

  datatype Answer = Answer(start: nat, length: nat, id: nat)

  /** The `n` letters from `p` are a stored word. */
  ghost predicate WordAt(words: map<Word, nat>, q: Word, p: nat, n: nat) {
    p + n <= |q| && q[p..p + n] in words
  }

  /** The stored words that start at `p` and have at least `n` letters, shortest first. */
  ghost function AnswersAt(words: map<Word, nat>, q: Word, p: nat, n: nat): seq<Answer>
    decreases |q| + 1 - p - n
  {
    if p + n > |q| then []
    else (if WordAt(words, q, p, n) then [Answer(p, n, words[q[p..p + n]])] else []) + AnswersAt(words, q, p, n + 1)
  }

  /** The answers for the start positions from `lo` up to `hi`. */
  ghost function AnswersBetween(words: map<Word, nat>, q: Word, lo: nat, hi: nat): seq<Answer>
    decreases hi - lo
  {
    if lo >= hi || lo >= |q| then [] else AnswersAt(words, q, lo, 1) + AnswersBetween(words, q, lo + 1, hi)
  }

  lemma {:induction false} NoneLonger(words: map<Word, nat>, q: Word, p: nat, n: nat)
    requires forall m :: n <= m ==> !WordAt(words, q, p, m)
    ensures AnswersAt(words, q, p, n) == []
    decreases |q| + 1 - p - n
  {
    if p + n <= |q| { NoneLonger(words, q, p, n + 1); }
  }

  lemma {:induction false} AnswersSplit(words: map<Word, nat>, q: Word, lo: nat, mid: nat, hi: nat)
    requires lo <= mid <= hi
    ensures AnswersBetween(words, q, lo, hi) == AnswersBetween(words, q, lo, mid) + AnswersBetween(words, q, mid, hi)
    decreases mid - lo
  {
    if lo < mid && lo < |q| { AnswersSplit(words, q, lo + 1, mid, hi); }
  }

  /** The walk from node `a` along `w` comes to index the children with a character that is no
      letter. */
  predicate RunsOff(heap: Heap, a: Addr, w: Word)
    decreases |w|
  {
    && w != [] && a in heap
    && (Letter(w[0]) ==> w[0] in heap[a].chars && RunsOff(heap, heap[a].chars[w[0]], w[1..]))
  }

  lemma {:induction false} LettersStay(heap: Heap, a: Addr, w: Word)
    requires Lower(w)
    ensures !RunsOff(heap, a, w)
    decreases |w|
  {
    if w != [] && a in heap && w[0] in heap[a].chars { LettersStay(heap, heap[a].chars[w[0]], w[1..]); }
  }

  /** No walk from a start position between `lo` and `hi` indexes outside the children. */
  ghost predicate Inside(heap: Heap, root: Addr, q: Word, lo: nat, hi: nat) {
    forall p :: lo <= p < hi && p < |q| ==> !RunsOff(heap, root, q[p..])
  }

  /** A query stays inside the nodes exactly if it consists of letters. */
  lemma InsideIffLower(heap: Heap, root: Addr, q: Word)
    requires root in heap
    ensures Inside(heap, root, q, 0, |q|) <==> Lower(q)
  {
    if Lower(q) {
      forall p | 0 <= p < |q| ensures !RunsOff(heap, root, q[p..]) { LettersStay(heap, root, q[p..]); }
    } else {
      var p :| 0 <= p < |q| && !Letter(q[p]);
      assert RunsOff(heap, root, q[p..]);
    }
  }

  /** The walk down the trie from one start position. */
  method SearchFrom(d: Dictionary, q: Word, p: nat) returns (inRange: bool, answers: seq<Answer>)
    requires d.Valid() && p <= |q|
    ensures inRange <==> !RunsOff(d.heap, d.root.value, q[p..])
    ensures inRange ==> answers == AnswersAt(d.words, q, p, 1)
  {
    hide AllOk, AnswersAt, TreeOk, Stores;
    inRange, answers := true, [];
    var node := d.Top();
    d.SoundTree({});
    var k := p;
    while k < |q|
      invariant p <= k <= |q| && node in d.heap && node in d.path && d.path[node] == q[p..k]
      invariant RunsOff(d.heap, d.root.value, q[p..]) <==> RunsOff(d.heap, node, q[k..])
      invariant answers + AnswersAt(d.words, q, p, k - p + 1) == AnswersAt(d.words, q, p, 1)
    {
      if !Letter(q[k]) {
        return false, [];
      }
      OneLetter(d, q, p, k, node);
      assert q[k..][1..] == q[k + 1..];
      if q[k] !in d.heap[node].chars {
        return;
      }
      node := d.heap[node].chars[q[k]];
      if d.heap[node].id != 0 {
        answers := answers + [Answer(p, k - p + 1, d.heap[node].id)];
      }
      k := k + 1;
    }
    NoneLonger(d.words, q, p, k - p + 1);
  }

  /** One more letter either ends the search or finds the next answer, if there is one. */
  lemma OneLetter(d: Dictionary, q: Word, p: nat, k: nat, node: Addr)
    requires d.Valid() && p <= k < |q| && node in d.heap && node in d.path && d.path[node] == q[p..k]
    ensures if q[k] !in d.heap[node].chars then AnswersAt(d.words, q, p, k - p + 1) == []
            else
              var b := d.heap[node].chars[q[k]];
              && b in d.heap && b in d.path && d.path[b] == q[p..k + 1]
              && AnswersAt(d.words, q, p, k - p + 1) ==
                 (if d.heap[b].id != 0 then [Answer(p, k - p + 1, d.heap[b].id)] else [])
                 + AnswersAt(d.words, q, p, k + 1 - p + 1)
  {
    hide AllOk, TreeOk, Stores;
    if q[k] !in d.heap[node].chars {
      DeadEnd(d, q, p, k, node);
    } else {
      d.SoundTree({});
      ChildFacts(d.heap, d.path, d.root.value, node);
      RootPath(d.heap, d.path, d.root.value);
      assert q[p..k] + [q[k]] == q[p..k + 1];
      assert p + (k - p + 1) == k + 1;
      NodeWord(d.heap, d.path, d.words, d.heap[node].chars[q[k]]);
    }
  }

  lemma NodeWord(heap: Heap, path: Paths, words: map<Word, nat>, a: Addr)
    requires path.Keys == heap.Keys && Unshared(path) && Stores(heap, path, words) && a in heap
    ensures heap[a].id == 0 ==> path[a] !in words
    ensures heap[a].id != 0 ==> path[a] in words && words[path[a]] == heap[a].id
  {
    WordsHeld(heap, path, words);
  }

  lemma DeadEnd(d: Dictionary, q: Word, p: nat, k: nat, node: Addr)
    requires d.Valid() && p <= k < |q| && node in d.heap && node in d.path
    requires d.path[node] == q[p..k] && q[k] !in d.heap[node].chars
    ensures AnswersAt(d.words, q, p, k - p + 1) == []
  {
    hide AllOk, TreeOk, Stores;
    d.SoundTree({});
    forall m: nat | k - p + 1 <= m ensures !WordAt(d.words, q, p, m) {
      if p + m <= |q| {
        var w := q[p..p + m];
        assert w[..k - p] == q[p..k] && w[k - p] == q[k];
        MissingChild(d.heap, d.path, d.root.value, d.words, node, w, k - p);
      }
    }
    NoneLonger(d.words, q, p, k - p + 1);
  }

  /** One thread's share: `count` start positions from `lo`, as far as the query goes. */
  method SearchSubstring(d: Dictionary, q: Word, lo: nat, count: nat) returns (inRange: bool, answers: seq<Answer>)
    requires d.Valid()
    ensures inRange <==> Inside(d.heap, d.root.value, q, lo, lo + count)
    ensures inRange ==> answers == AnswersBetween(d.words, q, lo, lo + count)
  {
    hide AllOk, RunsOff;
    answers := [];
    var searched, location := 0, lo;
    while searched < count && location < |q|
      invariant searched <= count && location == lo + searched
      invariant Inside(d.heap, d.root.value, q, lo, location)
      invariant answers + AnswersBetween(d.words, q, location, lo + count) == AnswersBetween(d.words, q, lo, lo + count)
    {
      var found;
      inRange, found := SearchFrom(d, q, location);
      if !inRange {
        return false, [];
      }
      answers := answers + found;
      searched, location := searched + 1, location + 1;
    }
    inRange := true;
  }

  /** The answers of the first threads, in the order of the threads. */
  ghost function Joined(local: seq<seq<Answer>>): seq<Answer> {
    if local == [] then [] else Joined(local[..|local| - 1]) + local[|local| - 1]
  }

  /** Every thread searches its share of the start positions; together they miss none. */
  method Search(d: Dictionary, q: Word) returns (inRange: bool, local: seq<seq<Answer>>)
    requires d.Valid()
    ensures inRange <==> Inside(d.heap, d.root.value, q, 0, |q|)
    ensures inRange ==> |local| <= THREAD_NUM && Joined(local) == AnswersBetween(d.words, q, 0, |q|)
  {
    hide AllOk, AnswersBetween, RunsOff;
    var share := |q| / THREAD_NUM + 1;
    local := [];
    var tid, location := 0, 0;
    AnswersNone(d.words, q, 0);
    while tid < THREAD_NUM && location < |q|
      invariant tid <= THREAD_NUM && location == tid * share && |local| == tid
      invariant Inside(d.heap, d.root.value, q, 0, location)
      invariant Joined(local) == AnswersBetween(d.words, q, 0, location)
    {
      var answers;
      inRange, answers := SearchSubstring(d, q, location, share);
      if !inRange {
        return false, [];
      }
      AnswersSplit(d.words, q, 0, location, location + share);
      assert (local + [answers])[..|local|] == local;
      local := local + [answers];
      tid, location := tid + 1, location + share;
    }
    AnswersEnd(d.words, q, 0, location);
    inRange := true;
  }

  /** The answers of all threads in one list. */
  method Merge(local: seq<seq<Answer>>) returns (merged: seq<Answer>)
    ensures merged == Joined(local)
  {
    merged := [];
    for i := 0 to |local|
      invariant merged == Joined(local[..i])
    {
      assert local[..i + 1][..i] == local[..i];
      merged := merged + local[i];
    }
    assert local[..|local|] == local;
  }

  lemma AnswersNone(words: map<Word, nat>, q: Word, lo: nat)
    ensures AnswersBetween(words, q, lo, lo) == []
  { }

  /** Positions past the end of the query contribute nothing. */
  lemma {:induction false} AnswersEnd(words: map<Word, nat>, q: Word, lo: nat, hi: nat)
    requires hi >= |q|
    ensures AnswersBetween(words, q, lo, hi) == AnswersBetween(words, q, lo, |q|)
    decreases hi - lo
  {
    if lo < |q| { AnswersEnd(words, q, lo + 1, hi); }
  }

  // ----- the order of the answers -----

  predicate Less(a: Answer, b: Answer) {
    a.start < b.start || (a.start == b.start && a.length < b.length)
  }

  ghost predicate Increasing(s: seq<Answer>) {
    forall i, k :: 0 <= i < k < |s| ==> Less(s[i], s[k])
  }

  /** What a sort by `Less` guarantees of its result. */
  ghost predicate Sorted(s: seq<Answer>) {
    forall i, k :: 0 <= i < k < |s| ==> !Less(s[k], s[i])
  }

  /** The answers are the occurrences of stored words. */
  ghost predicate IsAnswer(words: map<Word, nat>, q: Word, a: Answer) {
    a.length > 0 && WordAt(words, q, a.start, a.length) && a.id == words[q[a.start..a.start + a.length]]
  }

  lemma {:induction false} AtContents(words: map<Word, nat>, q: Word, p: nat, n: nat, a: Answer)
    requires n > 0
    ensures a in AnswersAt(words, q, p, n) <==> IsAnswer(words, q, a) && a.start == p && a.length >= n
    decreases |q| + 1 - p - n
  {
    if p + n <= |q| { AtContents(words, q, p, n + 1, a); }
  }

  lemma {:induction false} BetweenContents(words: map<Word, nat>, q: Word, lo: nat, hi: nat, a: Answer)
    ensures a in AnswersBetween(words, q, lo, hi) <==> IsAnswer(words, q, a) && lo <= a.start < hi
    decreases hi - lo
  {
    if lo < hi && lo < |q| {
      AtContents(words, q, lo, 1, a);
      BetweenContents(words, q, lo + 1, hi, a);
    }
  }

  lemma IncreasingAppend(s: seq<Answer>, t: seq<Answer>)
    requires Increasing(s) && Increasing(t) && forall a, b :: a in s && b in t ==> Less(a, b)
    ensures Increasing(s + t)
  {
    forall i, k | 0 <= i < k < |s + t| ensures Less((s + t)[i], (s + t)[k]) {
      if i < |s| <= k { assert s[i] in s && t[k - |s|] in t; }
    }
  }

  lemma {:induction false} AtIncreasing(words: map<Word, nat>, q: Word, p: nat, n: nat)
    requires n > 0
    ensures Increasing(AnswersAt(words, q, p, n))
    decreases |q| + 1 - p - n
  {
    if p + n <= |q| {
      AtIncreasing(words, q, p, n + 1);
      var rest := AnswersAt(words, q, p, n + 1);
      forall a | a in rest ensures a.start == p && a.length > n { AtContents(words, q, p, n + 1, a); }
      if WordAt(words, q, p, n) { IncreasingAppend([Answer(p, n, words[q[p..p + n]])], rest); }
    }
  }

  /** The merged answers are already strictly sorted. */
  lemma {:induction false} BetweenIncreasing(words: map<Word, nat>, q: Word, lo: nat, hi: nat)
    ensures Increasing(AnswersBetween(words, q, lo, hi))
    decreases hi - lo
  {
    if lo < hi && lo < |q| {
      AtIncreasing(words, q, lo, 1);
      BetweenIncreasing(words, q, lo + 1, hi);
      var here, rest := AnswersAt(words, q, lo, 1), AnswersBetween(words, q, lo + 1, hi);
      forall a | a in here ensures a.start == lo { AtContents(words, q, lo, 1, a); }
      forall a | a in rest ensures a.start > lo { BetweenContents(words, q, lo + 1, hi, a); }
      IncreasingAppend(here, rest);
    }
  }

  lemma SameHead(s: seq<Answer>, sorted: seq<Answer>)
    requires Increasing(s) && Sorted(sorted) && multiset(sorted) == multiset(s) && s != [] && sorted != []
    ensures sorted[0] == s[0]
  {
    assert s[0] in multiset(sorted) && sorted[0] in multiset(s);
    var i :| 0 <= i < |sorted| && sorted[i] == s[0];
    var k :| 0 <= k < |s| && s[k] == sorted[0];
  }

  lemma Tail(s: seq<Answer>)
    requires s != []
    ensures multiset(s[1..]) == multiset(s) - multiset{s[0]}
  {
    assert s == [s[0]] + s[1..];
  }

  /** So sorting changes nothing, whatever algorithm is used. */
  lemma {:induction false} SortChangesNothing(s: seq<Answer>, sorted: seq<Answer>)
    requires Increasing(s) && Sorted(sorted) && multiset(sorted) == multiset(s)
    ensures sorted == s
    decreases |s|
  {
    assert |multiset(s)| == |s| && |multiset(sorted)| == |sorted|;
    if s != [] {
      SameHead(s, sorted);
      Tail(s);
      Tail(sorted);
      assert Increasing(s[1..]) && Sorted(sorted[1..]);
      hide Increasing, Sorted;
      SortChangesNothing(s[1..], sorted[1..]);
      assert s == [s[0]] + s[1..] && sorted == [s[0]] + sorted[1..];
    }
  }

  // ----- printing -----

  function Text(q: Word, a: Answer): Word
    requires a.start + a.length <= |q|
  {
    q[a.start..a.start + a.length]
  }

  ghost predicate InQuery(q: Word, s: seq<Answer>) {
    forall i :: 0 <= i < |s| ==> s[i].start + s[i].length <= |q|
  }

  /** No earlier answer has the same id. */
  ghost predicate FirstOfId(s: seq<Answer>, k: nat)
    requires k < |s|
  {
    forall i :: 0 <= i < k ==> s[i].id != s[k].id
  }

  /** `kept` lists, in order, exactly those of the first `n` answers that repeat no id. */
  ghost predicate Kept(s: seq<Answer>, n: nat, kept: seq<nat>)
    requires n <= |s|
  {
    && (forall i :: 0 <= i < |kept| ==> kept[i] < n && FirstOfId(s, kept[i]))
    && (forall i, k :: 0 <= i < k < |kept| ==> kept[i] < kept[k])
    && (forall k: nat :: k < n && FirstOfId(s, k) ==> k in kept)
  }

  ghost predicate Prints(q: Word, s: seq<Answer>, kept: seq<nat>, out: seq<Word>)
    requires InQuery(q, s)
  {
    && |out| == |kept|
    && forall i :: 0 <= i < |kept| ==> kept[i] < |s| && out[i] == Text(q, s[kept[i]])
  }

  /** One more answer is kept exactly if its id is new. */
  lemma KeepNext(s: seq<Answer>, n: nat, kept: seq<nat>)
    requires n < |s| && Kept(s, n, kept)
    ensures Kept(s, n + 1, if FirstOfId(s, n) then kept + [n] else kept)
  {
    hide FirstOfId;
    if FirstOfId(s, n) { assert n in kept + [n]; }
  }

  ghost function IdsOf(s: seq<Answer>, n: nat): set<nat>
    requires n <= |s|
  {
    set k | 0 <= k < n :: s[k].id
  }

  lemma IdsNext(s: seq<Answer>, n: nat)
    requires n < |s|
    ensures IdsOf(s, n + 1) == IdsOf(s, n) + {s[n].id}
    ensures FirstOfId(s, n) <==> s[n].id !in IdsOf(s, n)
  { }

  lemma PrintNext(q: Word, s: seq<Answer>, kept: seq<nat>, out: seq<Word>, k: nat)
    requires InQuery(q, s) && Prints(q, s, kept, out) && k < |s|
    ensures s[k].start + s[k].length <= |q| && Prints(q, s, kept + [k], out + [Text(q, s[k])])
  { }

  lemma NothingYet(q: Word, s: seq<Answer>)
    requires InQuery(q, s)
    ensures Kept(s, 0, []) && Prints(q, s, [], []) && IdsOf(s, 0) == {} && (|s| > 0 ==> FirstOfId(s, 0))
  { }

  /** Prints each answer whose id has not been printed before. */
  method Print(q: Word, sorted: seq<Answer>) returns (out: seq<Word>)
    requires InQuery(q, sorted)
    ensures exists kept: seq<nat> :: Kept(sorted, |sorted|, kept) && Prints(q, sorted, kept, out)
  {
    hide Kept, Prints, InQuery, FirstOfId, IdsOf;
    out := [];
    ghost var kept: seq<nat> := [];
    NothingYet(q, sorted);
    if |sorted| == 0 {
      return;
    }
    PrintNext(q, sorted, kept, out, 0);
    KeepNext(sorted, 0, kept);
    var printed := {sorted[0].id};
    out, kept := out + [Text(q, sorted[0])], kept + [0];
    IdsNext(sorted, 0);
    for i := 1 to |sorted|
      invariant Kept(sorted, i, kept) && Prints(q, sorted, kept, out) && printed == IdsOf(sorted, i)
    {
      var answer := sorted[i];
      IdsNext(sorted, i);
      KeepNext(sorted, i, kept);
      PrintNext(q, sorted, kept, out, i);
      if answer.id !in printed {
        printed := printed + {answer.id};
        out, kept := out + [Text(q, answer)], kept + [i];
      }
    }
  }

  // ----- the result of a query -----

  ghost predicate OccursAt(q: Word, w: Word, p: nat) {
    p + |w| <= |q| && q[p..p + |w|] == w
  }

  /** Where a word occurs first in the query. */
  ghost predicate FirstAt(q: Word, w: Word, p: nat) {
    OccursAt(q, w, p) && forall r: nat :: r < p ==> !OccursAt(q, w, r)
  }

  ghost predicate Occurs(q: Word, w: Word) {
    exists p: nat :: OccursAt(q, w, p)
  }

  /** `out` lists the stored words that occur in the query, each once, in the order of their
      first occurrences and, for one position, of their lengths. */
  ghost predicate IsResult(words: map<Word, nat>, q: Word, out: seq<Word>) {
    && (forall w :: w in out <==> w in words && w != [] && Occurs(q, w))
    && (forall i, k :: 0 <= i < k < |out| ==> out[i] != out[k])
    && (forall i, k, p: nat, r: nat :: 0 <= i < k < |out| && FirstAt(q, out[i], p) && FirstAt(q, out[k], r) ==>
          p < r || (p == r && |out[i]| < |out[k]|))
  }

  /** The answer for an occurrence of a stored word. */
  lemma OccurrenceIsAnswer(words: map<Word, nat>, q: Word, w: Word, p: nat) returns (k: nat)
    requires w in words && w != [] && OccursAt(q, w, p)
    ensures var s := AnswersBetween(words, q, 0, |q|); k < |s| && s[k] == Answer(p, |w|, words[w])
  {
    var a := Answer(p, |w|, words[w]);
    BetweenContents(words, q, 0, |q|, a);
    k :| k < |AnswersBetween(words, q, 0, |q|)| && AnswersBetween(words, q, 0, |q|)[k] == a;
  }

  /** An earlier occurrence has an earlier answer. */
  lemma EarlierAnswer(words: map<Word, nat>, q: Word, w: Word, r: nat, k: nat) returns (i: nat)
    requires w in words && w != [] && OccursAt(q, w, r)
    requires k < |AnswersBetween(words, q, 0, |q|)| && r < AnswersBetween(words, q, 0, |q|)[k].start
    ensures i < k && AnswersBetween(words, q, 0, |q|)[i].id == words[w]
  {
    i := OccurrenceIsAnswer(words, q, w, r);
    BetweenIncreasing(words, q, 0, |q|);
    var s := AnswersBetween(words, q, 0, |q|);
    assert k < i ==> Less(s[k], s[i]);
  }

  /** An answer that repeats no id is the first occurrence of its word. */
  lemma FirstAnswer(words: map<Word, nat>, nextId: nat, q: Word, k: nat)
    requires IdsOk(words, nextId) && k < |AnswersBetween(words, q, 0, |q|)|
    requires FirstOfId(AnswersBetween(words, q, 0, |q|), k)
    ensures var a := AnswersBetween(words, q, 0, |q|)[k];
            && a.start + a.length <= |q| && Text(q, a) in words && Text(q, a) != [] && |Text(q, a)| == a.length
            && words[Text(q, a)] == a.id && FirstAt(q, Text(q, a), a.start)
  {
    var s := AnswersBetween(words, q, 0, |q|);
    var a := s[k];
    BetweenContents(words, q, 0, |q|, a);
    BetweenIncreasing(words, q, 0, |q|);
    var w := Text(q, a);
    forall r: nat | r < a.start ensures !OccursAt(q, w, r) {
      if OccursAt(q, w, r) {
        var i := EarlierAnswer(words, q, w, r, k);
      }
    }
  }

  /** The answer that repeats no id and has the id of answer `k`. */
  lemma {:induction false} Earliest(s: seq<Answer>, k: nat) returns (i: nat)
    requires k < |s|
    ensures i <= k && s[i].id == s[k].id && FirstOfId(s, i)
  {
    if FirstOfId(s, k) {
      i := k;
    } else {
      var m :| 0 <= m < k && s[m].id == s[k].id;
      i := Earliest(s, m);
    }
  }

  lemma EveryWordPrinted(words: map<Word, nat>, nextId: nat, q: Word, kept: seq<nat>, out: seq<Word>, w: Word, p: nat)
    requires IdsOk(words, nextId) && w in words && w != [] && OccursAt(q, w, p)
    requires var s := AnswersBetween(words, q, 0, |q|); InQuery(q, s) && Kept(s, |s|, kept) && Prints(q, s, kept, out)
    ensures w in out
  {
    var s := AnswersBetween(words, q, 0, |q|);
    var k := OccurrenceIsAnswer(words, q, w, p);
    var i := Earliest(s, k);
    FirstAnswer(words, nextId, q, i);
    assert Text(q, s[i]) == w;
    var m :| 0 <= m < |kept| && kept[m] == i;
    assert out[m] == w;
  }

  /** What is printed for a query is exactly what the specification asks for. */
  lemma QueryIsCorrect(words: map<Word, nat>, nextId: nat, q: Word, sorted: seq<Answer>, kept: seq<nat>, out: seq<Word>)
    requires IdsOk(words, nextId)
    requires Sorted(sorted) && multiset(sorted) == multiset(AnswersBetween(words, q, 0, |q|))
    requires InQuery(q, sorted) && Kept(sorted, |sorted|, kept) && Prints(q, sorted, kept, out)
    ensures IsResult(words, q, out)
  {
    var s := AnswersBetween(words, q, 0, |q|);
    BetweenIncreasing(words, q, 0, |q|);
    SortChangesNothing(s, sorted);
    hide AnswersBetween, IdsOk;
    forall i | 0 <= i < |out|
      ensures out[i] in words && out[i] != [] && words[out[i]] == s[kept[i]].id
      ensures FirstAt(q, out[i], s[kept[i]].start) && |out[i]| == s[kept[i]].length
    {
      FirstAnswer(words, nextId, q, kept[i]);
    }
    forall w, p: nat | w in words && w != [] && OccursAt(q, w, p) ensures w in out {
      EveryWordPrinted(words, nextId, q, kept, out, w, p);
    }
    forall i, k | 0 <= i < k < |out| ensures Less(s[kept[i]], s[kept[k]]) && out[i] != out[k] {
      assert kept[i] < kept[k];
    }
  }

  lemma AnswersInQuery(words: map<Word, nat>, q: Word, s: seq<Answer>)
    requires multiset(s) == multiset(AnswersBetween(words, q, 0, |q|))
    ensures InQuery(q, s)
  {
    forall i | 0 <= i < |s| ensures s[i].start + s[i].length <= |q| {
      assert s[i] in multiset(s);
      BetweenContents(words, q, 0, |q|, s[i]);
    }
  }

  /** A whole query: fork, join, sort with any correct sorting function, print.  It stays inside
      the nodes exactly for queries of letters. */
  method SearchAllPatterns(d: Dictionary, q: Word, sort: seq<Answer> -> seq<Answer>)
    returns (inRange: bool, out: seq<Word>)
    requires d.Valid()
    requires forall s :: Sorted(sort(s)) && multiset(sort(s)) == multiset(s)
    ensures inRange <==> Lower(q)
    ensures inRange ==> IsResult(d.words, q, out)
  {
    assert IdsOk(d.words, d.nextId) && d.root.value in d.heap;
    hide AllOk, IsResult, IdsOk, AnswersBetween, Sorted, Inside;
    var local;
    inRange, local := Search(d, q);
    InsideIffLower(d.heap, d.root.value, q);
    if !inRange {
      return false, [];
    }
    var merged := Merge(local);
    var sorted := sort(merged);
    AnswersInQuery(d.words, q, sorted);
    out := Print(q, sorted);
    ghost var kept: seq<nat> :| Kept(sorted, |sorted|, kept) && Prints(q, sorted, kept, out);
    QueryIsCorrect(d.words, d.nextId, q, sorted, kept, out);
  }
}
