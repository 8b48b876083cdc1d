/** The trie of words: nodes on a heap, each with a word id (zero for none) and pointers to
    children by letter.  `path` names, for every live node, the letters that lead to it; it
    exists for reasoning only. */
module Tries {
  import opened Options

  type Addr = nat
  /** The characters before the terminating zero. */
  type Word = string

  datatype Node = Node(id: nat, chars: map<char, Addr>)

  type Heap = map<Addr, Node>
  type Paths = map<Addr, Word>

  /** A character with an entry in a node's array of children. */
  predicate Letter(c: char) {
    'a' <= c <= 'z'
  }

  predicate Lower(w: Word) {
    forall i :: 0 <= i < |w| ==> Letter(w[i])
  }

  // ----- shape -----

  /** Children are live, and a child's path is its parent's path and one letter. */
  ghost predicate Edges(heap: Heap, path: Paths) {
    && path.Keys == heap.Keys
    && forall a, c :: a in heap && c in heap[a].chars ==>
         Letter(c) && heap[a].chars[c] in heap && path[heap[a].chars[c]] == path[a] + [c]
  }

  /** No two nodes have the same path. */
  ghost predicate Unshared(path: Paths) {
    forall a, b :: a in path && b in path && path[a] == path[b] ==> a == b
  }

  /** Node `a` hangs below node `p`. */
  ghost predicate Hangs(heap: Heap, path: Paths, p: Addr, a: Addr)
    requires path.Keys == heap.Keys && a in heap
  {
    && p in heap && path[a] != [] && path[p] == path[a][..|path[a]| - 1]
    && var c := path[a][|path[a]| - 1]; c in heap[p].chars && heap[p].chars[c] == a
  }

  ghost predicate HasParent(heap: Heap, path: Paths, a: Addr)
    requires path.Keys == heap.Keys && a in heap
  {
    exists p :: Hangs(heap, path, p, a)
  }

  ghost predicate Rooted(heap: Heap, path: Paths, root: Addr)
    requires path.Keys == heap.Keys
  {
    && root in heap && path[root] == []
    && forall a {:trigger HasParent(heap, path, a)} :: a in heap && a != root ==> HasParent(heap, path, a)
  }

  ghost predicate TreeOk(heap: Heap, path: Paths, root: Addr) {
    Edges(heap, path) && Unshared(path) && Rooted(heap, path, root)
  }

  ghost predicate Holds(heap: Heap, path: Paths, a: Addr, w: Word, id: nat)
    requires path.Keys == heap.Keys
  {
    a in heap && path[a] == w && heap[a].id == id
  }

  ghost predicate Held(heap: Heap, path: Paths, w: Word, id: nat)
    requires path.Keys == heap.Keys
  {
    id != 0 && exists a :: Holds(heap, path, a, w, id)
  }

  /** The words of the trie and their ids are those of the nodes with an id. */
  ghost predicate Stores(heap: Heap, path: Paths, words: map<Word, nat>)
    requires path.Keys == heap.Keys
  {
    && (forall a :: a in heap && heap[a].id != 0 ==> path[a] in words && words[path[a]] == heap[a].id)
    && (forall w {:trigger Held(heap, path, w, words[w])} :: w in words ==> Held(heap, path, w, words[w]))
  }

  /** A node without an id and without children serves no word. */
  predicate Idle(n: Node) {
    n.id == 0 && n.chars == map[]
  }

  // ----- lookup -----

  /** Following the letters of `w` from node `a`. */
  function Walk(heap: Heap, a: Addr, w: Word): Option<Addr>
    decreases |w|
  {
    if w == [] then Some(a)
    else if a in heap && w[0] in heap[a].chars then Walk(heap, heap[a].chars[w[0]], w[1..])
    else None
  }

  lemma {:induction false} WalkPath(heap: Heap, path: Paths, a: Addr, w: Word)
    requires Edges(heap, path) && a in heap
    ensures Walk(heap, a, w).Some? ==> Walk(heap, a, w).value in heap && path[Walk(heap, a, w).value] == path[a] + w
    decreases |w|
  {
    if w == [] {
      assert path[a] + [] == path[a];
    } else if w[0] in heap[a].chars {
      WalkPath(heap, path, heap[a].chars[w[0]], w[1..]);
      assert path[a] + [w[0]] + w[1..] == path[a] + w;
    }
  }

  /** Walking one letter further. */
  lemma {:induction false} WalkSnoc(heap: Heap, a: Addr, w: Word, c: char)
    ensures Walk(heap, a, w + [c]) ==
            match Walk(heap, a, w)
            case None => None
            case Some(b) => if b in heap && c in heap[b].chars then Some(heap[b].chars[c]) else None
    decreases |w|
  {
    if w == [] {
      assert [c][1..] == [];
    } else {
      assert (w + [c])[1..] == w[1..] + [c];
      if a in heap && w[0] in heap[a].chars { WalkSnoc(heap, heap[a].chars[w[0]], w[1..], c); }
    }
  }

  /** Every node is found by walking its path from the root. */
  lemma {:induction false} WalkFinds(heap: Heap, path: Paths, root: Addr, a: Addr)
    requires TreeOk(heap, path, root) && a in heap
    ensures Walk(heap, root, path[a]) == Some(a)
    decreases |path[a]|
  {
    if path[a] != [] {
      assert HasParent(heap, path, a);
      var p :| Hangs(heap, path, p, a);
      WalkFinds(heap, path, root, p);
      WalkSnoc(heap, root, path[p], path[a][|path[a]| - 1]);
      assert path[a] == path[p] + [path[a][|path[a]| - 1]];
    }
  }

  /** Lookup agrees with the abstract map: walking a word ends at a node with an id exactly
      when the word is stored, and the id is its own. */
  lemma LookupAgrees(heap: Heap, path: Paths, root: Addr, words: map<Word, nat>, w: Word)
    requires TreeOk(heap, path, root) && Stores(heap, path, words)
    ensures var r := Walk(heap, root, w);
            && (w in words <==> r.Some? && r.value in heap && heap[r.value].id != 0)
            && (w in words ==> heap[r.value].id == words[w])
  {
    WalkPath(heap, path, root, w);
    assert path[root] + w == w;
    if w in words {
      assert Held(heap, path, w, words[w]);
      var a :| Holds(heap, path, a, w, words[w]);
      WalkFinds(heap, path, root, a);
    }
  }

  /** Where the walk fails there is no word to be found further on. */
  lemma {:induction false} WalkClosed(heap: Heap, a: Addr, w: Word, v: Word)
    requires w <= v && Walk(heap, a, v).Some?
    ensures Walk(heap, a, w).Some?
    decreases |w|
  {
    if w != [] {
      WalkClosed(heap, heap[a].chars[w[0]], w[1..], v[1..]);
    }
  }

  // ----- changes to the heap -----

  function AddChild(heap: Heap, p: Addr, c: char, a: Addr): Heap
    requires p in heap
  {
    heap[a := Node(0, map[])][p := heap[p].(chars := heap[p].chars[c := a])]
  }

  function DropChild(heap: Heap, p: Addr, c: char): Heap
    requires p in heap && c in heap[p].chars
  {
    (heap - {heap[p].chars[c]})[p := heap[p].(chars := heap[p].chars - {c})]
  }

  function SetId(heap: Heap, a: Addr, id: nat): Heap
    requires a in heap
  {
    heap[a := heap[a].(id := id)]
  }

  /** A missing child means that no node has its path. */
  lemma PathUnused(heap: Heap, path: Paths, root: Addr, p: Addr, c: char, b: Addr)
    requires TreeOk(heap, path, root) && p in heap && c !in heap[p].chars && b in heap
    ensures path[b] != path[p] + [c]
  {
    assert b != root ==> HasParent(heap, path, b);
  }

  lemma AddChildEdges(heap: Heap, path: Paths, p: Addr, c: char, a: Addr)
    requires Edges(heap, path) && p in heap && Letter(c) && c !in heap[p].chars && a !in heap
    ensures Edges(AddChild(heap, p, c, a), path[a := path[p] + [c]])
  { }

  lemma AddChildRooted(heap: Heap, path: Paths, root: Addr, p: Addr, c: char, a: Addr)
    requires path.Keys == heap.Keys && Rooted(heap, path, root) && p in heap && a !in heap && c !in heap[p].chars
    ensures Rooted(AddChild(heap, p, c, a), path[a := path[p] + [c]], root)
  {
    var heap', path' := AddChild(heap, p, c, a), path[a := path[p] + [c]];
    forall b | b in heap' && b != root ensures HasParent(heap', path', b) {
      if b == a {
        assert Hangs(heap', path', p, a);
      } else {
        assert HasParent(heap, path, b);
        var q :| Hangs(heap, path, q, b);
        assert Hangs(heap', path', q, b);
      }
    }
  }

  lemma AddChildKeeps(heap: Heap, path: Paths, root: Addr, p: Addr, c: char, a: Addr)
    requires TreeOk(heap, path, root) && p in heap && Letter(c) && c !in heap[p].chars && a !in heap
    ensures TreeOk(AddChild(heap, p, c, a), path[a := path[p] + [c]], root)
  {
    forall b | b in heap ensures path[b] != path[p] + [c] { PathUnused(heap, path, root, p, c, b); }
    AddChildEdges(heap, path, p, c, a);
    AddChildRooted(heap, path, root, p, c, a);
    hide Edges, Rooted;
  }

  lemma AddChildStores(heap: Heap, path: Paths, p: Addr, c: char, a: Addr, words: map<Word, nat>)
    requires path.Keys == heap.Keys && Stores(heap, path, words) && p in heap && a !in heap
    ensures Stores(AddChild(heap, p, c, a), path[a := path[p] + [c]], words)
  {
    var heap', path' := AddChild(heap, p, c, a), path[a := path[p] + [c]];
    forall w | w in words ensures Held(heap', path', w, words[w]) {
      assert Held(heap, path, w, words[w]);
      var b :| Holds(heap, path, b, w, words[w]);
      assert Holds(heap', path', b, w, words[w]);
    }
  }

  /** Only one pointer leads to a node. */
  lemma OnePointer(heap: Heap, path: Paths, p: Addr, c: char, b: Addr, d: char)
    requires Edges(heap, path) && Unshared(path) && p in heap && c in heap[p].chars
    requires b in heap && d in heap[b].chars && heap[b].chars[d] == heap[p].chars[c]
    ensures b == p && d == c
  {
    assert path[b] + [d] == path[p] + [c];
    assert (path[b] + [d])[..|path[b]|] == path[b] && (path[p] + [c])[..|path[p]|] == path[p];
  }

  lemma DropChildEdge(heap: Heap, path: Paths, p: Addr, c: char, b: Addr, d: char)
    requires Edges(heap, path) && Unshared(path) && p in heap && c in heap[p].chars && heap[p].chars[c] != p
    requires b in DropChild(heap, p, c) && d in DropChild(heap, p, c)[b].chars
    ensures var a, heap' := heap[p].chars[c], DropChild(heap, p, c);
            && b in heap && d in heap[b].chars && heap'[b].chars[d] == heap[b].chars[d] && heap[b].chars[d] != a
            && Letter(d) && heap[b].chars[d] in heap' && path[heap[b].chars[d]] == path[b] + [d]
  {
    assert b in heap && d in heap[b].chars && Letter(d) && heap[b].chars[d] in heap;
    if heap[b].chars[d] == heap[p].chars[c] { OnePointer(heap, path, p, c, b, d); }
  }

  lemma DropChildEdges(heap: Heap, path: Paths, p: Addr, c: char)
    requires Edges(heap, path) && Unshared(path) && p in heap && c in heap[p].chars
    ensures Edges(DropChild(heap, p, c), path - {heap[p].chars[c]})
  {
    hide Unshared, Letter;
    var a := heap[p].chars[c];
    var heap', path' := DropChild(heap, p, c), path - {a};
    assert a != p by { assert path[a] == path[p] + [c]; }
    assert path'.Keys == heap'.Keys;
    forall b, d | b in heap' && d in heap'[b].chars
      ensures Letter(d) && heap'[b].chars[d] in heap' && path'[heap'[b].chars[d]] == path'[b] + [d]
    {
      DropChildEdge(heap, path, p, c, b, d);
    }
  }

  /** Dropping a leaf leaves the other nodes where they hang. */
  lemma StillHangs(heap: Heap, path: Paths, p: Addr, c: char, q: Addr, b: Addr)
    requires path.Keys == heap.Keys && p in heap && c in heap[p].chars && heap[p].chars[c] != p
    requires heap[p].chars[c] in heap && heap[heap[p].chars[c]].chars == map[]
    requires b in heap && b != heap[p].chars[c] && Hangs(heap, path, q, b)
    ensures path.Keys - {heap[p].chars[c]} == DropChild(heap, p, c).Keys
    ensures Hangs(DropChild(heap, p, c), path - {heap[p].chars[c]}, q, b)
  { }

  lemma DropChildRooted(heap: Heap, path: Paths, root: Addr, p: Addr, c: char)
    requires path.Keys == heap.Keys && Rooted(heap, path, root) && p in heap && c in heap[p].chars
    requires heap[p].chars[c] in heap
    requires heap[p].chars[c] != p && heap[p].chars[c] != root && heap[heap[p].chars[c]].chars == map[]
    ensures path.Keys - {heap[p].chars[c]} == DropChild(heap, p, c).Keys
    ensures Rooted(DropChild(heap, p, c), path - {heap[p].chars[c]}, root)
  {
    hide Hangs;
    var a := heap[p].chars[c];
    var heap', path' := DropChild(heap, p, c), path - {a};
    forall b | b in heap' && b != root ensures HasParent(heap', path', b) {
      assert HasParent(heap, path, b);
      var q :| Hangs(heap, path, q, b);
      StillHangs(heap, path, p, c, q, b);
    }
  }

  lemma DropChildKeeps(heap: Heap, path: Paths, root: Addr, p: Addr, c: char)
    requires TreeOk(heap, path, root) && p in heap && c in heap[p].chars
    requires heap[p].chars[c] in heap && heap[heap[p].chars[c]].chars == map[]
    ensures TreeOk(DropChild(heap, p, c), path - {heap[p].chars[c]}, root)
  {
    DropChildEdges(heap, path, p, c);
    assert path[heap[p].chars[c]] == path[p] + [c];
    DropChildRooted(heap, path, root, p, c);
    hide Edges, Rooted;
  }

  lemma DropChildStores(heap: Heap, path: Paths, p: Addr, c: char, words: map<Word, nat>)
    requires path.Keys == heap.Keys && Unshared(path) && Stores(heap, path, words)
    requires p in heap && c in heap[p].chars && heap[p].chars[c] in heap && heap[p].chars[c] != p
    ensures Stores(DropChild(heap, p, c), path - {heap[p].chars[c]}, words - {path[heap[p].chars[c]]})
  {
    var a := heap[p].chars[c];
    var heap', path', words' := DropChild(heap, p, c), path - {a}, words - {path[a]};
    forall w | w in words' ensures Held(heap', path', w, words'[w]) {
      assert Held(heap, path, w, words[w]);
      var b :| Holds(heap, path, b, w, words[w]);
      assert Holds(heap', path', b, w, words[w]);
    }
  }

  lemma SetIdKeeps(heap: Heap, path: Paths, root: Addr, a: Addr, id: nat)
    requires TreeOk(heap, path, root) && a in heap
    ensures TreeOk(SetId(heap, a, id), path, root)
  {
    var heap' := SetId(heap, a, id);
    forall b | b in heap' && b != root ensures HasParent(heap', path, b) {
      assert HasParent(heap, path, b);
      var q :| Hangs(heap, path, q, b);
      assert Hangs(heap', path, q, b);
    }
  }

  lemma SetIdStores(heap: Heap, path: Paths, a: Addr, id: nat, words: map<Word, nat>)
    requires path.Keys == heap.Keys && Unshared(path) && Stores(heap, path, words) && a in heap
    ensures Stores(SetId(heap, a, id), path, if id == 0 then words - {path[a]} else words[path[a] := id])
  {
    var heap' := SetId(heap, a, id);
    var words' := if id == 0 then words - {path[a]} else words[path[a] := id];
    forall w | w in words' ensures Held(heap', path, w, words'[w]) {
      if w == path[a] {
        assert Holds(heap', path, a, w, words'[w]);
      } else {
        assert Held(heap, path, w, words[w]);
        var b :| Holds(heap, path, b, w, words[w]);
        assert Holds(heap', path, b, w, words[w]);
      }
    }
  }

  // ----- what the dictionary keeps -----

  /** No node but the root, and those excepted, is without purpose. */
  ghost predicate Pruned(heap: Heap, root: Addr, except: set<Addr>) {
    forall a {:trigger Idle(heap[a])} :: a in heap && a != root && a !in except ==> !Idle(heap[a])
  }

  /** Ids are positive, below the generator, and different for different words. */
  ghost predicate IdsOk(words: map<Word, nat>, nextId: nat) {
    && nextId > 0
    && (forall w :: w in words ==> 0 < words[w] < nextId)
    && (forall v, w :: v in words && w in words && words[v] == words[w] ==> v == w)
  }

  /** The nodes further from the root than `n`. */
  ghost function Beyond(heap: Heap, path: Paths, n: nat): set<Addr>
    requires path.Keys == heap.Keys
  {
    set b | b in heap && |path[b]| > n
  }

  /** Every node below the root lies on the way to some stored word. */
  lemma {:induction false} LeadsToWord(heap: Heap, path: Paths, root: Addr, words: map<Word, nat>, a: Addr)
    returns (v: Word)
    requires TreeOk(heap, path, root) && Stores(heap, path, words) && Pruned(heap, root, {})
    requires a in heap && (a != root || heap[a].id != 0)
    ensures v in words && path[a] <= v
    decreases Beyond(heap, path, |path[a]|)
  {
    hide Rooted;
    if heap[a].id != 0 {
      v := path[a];
    } else {
      assert !Idle(heap[a]);
      var c :| c in heap[a].chars;
      var b := heap[a].chars[c];
      assert path[b] == path[a] + [c];
      assert b != root by { RootPath(heap, path, root); }
      assert b in Beyond(heap, path, |path[a]|) && b !in Beyond(heap, path, |path[b]|);
      assert Beyond(heap, path, |path[b]|) <= Beyond(heap, path, |path[a]|);
      v := LeadsToWord(heap, path, root, words, b);
    }
  }

  lemma RootPath(heap: Heap, path: Paths, root: Addr)
    requires TreeOk(heap, path, root)
    ensures path.Keys == heap.Keys && root in heap && path[root] == [] && Unshared(path)
  { }

  /** All that holds of the dictionary's fields, with the excepted nodes allowed to be idle. */
  ghost predicate AllOk(heap: Heap, path: Paths, root: Addr, words: map<Word, nat>, nextId: nat, except: set<Addr>) {
    TreeOk(heap, path, root) && Stores(heap, path, words) && IdsOk(words, nextId) && Pruned(heap, root, except)
  }

  lemma AddChildAll(heap: Heap, path: Paths, root: Addr, words: map<Word, nat>, nextId: nat, p: Addr, c: char, a: Addr)
    requires AllOk(heap, path, root, words, nextId, {p}) && p in heap
    requires Letter(c) && c !in heap[p].chars && a !in heap
    ensures p in path && AllOk(AddChild(heap, p, c, a), path[a := path[p] + [c]], root, words, nextId, {a})
  {
    hide TreeOk, Stores, IdsOk;
    RootPath(heap, path, root);
    AddChildKeeps(heap, path, root, p, c, a);
    AddChildStores(heap, path, p, c, a, words);
    assert c in AddChild(heap, p, c, a)[p].chars;
  }

  /** Going down leaves a node with a child behind. */
  lemma ChildAll(heap: Heap, path: Paths, root: Addr, words: map<Word, nat>, nextId: nat, p: Addr, c: char)
    requires AllOk(heap, path, root, words, nextId, {p}) && p in heap && c in heap[p].chars
    ensures p in path && heap[p].chars[c] in path && path[heap[p].chars[c]] == path[p] + [c]
    ensures AllOk(heap, path, root, words, nextId, {heap[p].chars[c]})
  {
    hide Rooted, Stores, IdsOk;
  }

  lemma SetIdAll(heap: Heap, path: Paths, root: Addr, words: map<Word, nat>, nextId: nat, a: Addr)
    requires AllOk(heap, path, root, words, nextId, {a}) && a in heap
    ensures a in path && AllOk(SetId(heap, a, nextId), path, root, words[path[a] := nextId], nextId + 1, {})
  {
    hide TreeOk, Stores;
    RootPath(heap, path, root);
    SetIdKeeps(heap, path, root, a, nextId);
    SetIdStores(heap, path, a, nextId, words);
  }

  // ----- indexing outside the children -----

  /** The letters before the first character that is none. */
  function Letters(w: Word): (p: Word)
    ensures p <= w && Lower(p) && (p != w ==> !Letter(w[|p|])) && (p == w <==> Lower(w))
  {
    if w == [] || !Letter(w[0]) then [] else [w[0]] + Letters(w[1..])
  }

  function Down(heap: Heap, a: Addr, c: char): Option<Addr> {
    if a in heap && c in heap[a].chars then Some(heap[a].chars[c]) else None
  }

  /** Erasing `w` from node `at` on comes to index the children with a character that is no
      letter.  That may be a character of the word, or its terminating zero when the word ends
      at a node without an id. */
  predicate Overruns(heap: Heap, at: Option<Addr>, w: Word)
    decreases |w|
  {
    match at
    case None => false
    case Some(a) =>
      a in heap && (if w == [] then heap[a].id == 0
                    else if !Letter(w[0]) then true
                    else Overruns(heap, Down(heap, a, w[0]), w[1..]))
  }

  /** The trie has a node for these letters. */
  ghost predicate Reached(words: map<Word, nat>, p: Word) {
    p == [] || exists v :: v in words && p <= v
  }

  /** The words for which `erase` stays inside the nodes it stands on: those that are stored, and
      those whose leading letters begin no stored word. */
  ghost predicate Erasable(words: map<Word, nat>, w: Word) {
    w in words || !Reached(words, Letters(w))
  }

  lemma {:induction false} OverrunsAt(heap: Heap, path: Paths, a: Addr, w: Word)
    requires Edges(heap, path) && a in heap
    ensures var r := Walk(heap, a, Letters(w));
            Overruns(heap, Some(a), w) <==> r.Some? && r.value in heap && (Lower(w) ==> heap[r.value].id == 0)
    decreases |w|
  {
    WalkPath(heap, path, a, Letters(w));
    if w != [] && Letter(w[0]) {
      assert Letters(w)[1..] == Letters(w[1..]);
      if w[0] in heap[a].chars { OverrunsAt(heap, path, heap[a].chars[w[0]], w[1..]); }
    }
  }

  lemma ReachedIff(heap: Heap, path: Paths, root: Addr, words: map<Word, nat>, p: Word)
    requires TreeOk(heap, path, root) && Stores(heap, path, words) && Pruned(heap, root, {})
    ensures Walk(heap, root, p).Some? <==> Reached(words, p)
  {
    WalkPath(heap, path, root, p);
    assert path[root] + p == p;
    var r := Walk(heap, root, p);
    if r.Some? {
      if p != [] { var v := LeadsToWord(heap, path, root, words, r.value); }
    } else {
      forall v | v in words ensures !(p <= v) {
        LookupAgrees(heap, path, root, words, v);
        if p <= v { WalkClosed(heap, root, p, v); }
      }
    }
  }

  lemma {:induction false} PathLower(heap: Heap, path: Paths, root: Addr, a: Addr)
    requires TreeOk(heap, path, root) && a in heap
    ensures Lower(path[a])
    decreases |path[a]|
  {
    if path[a] != [] {
      assert HasParent(heap, path, a);
      var p :| Hangs(heap, path, p, a);
      PathLower(heap, path, root, p);
    }
  }

  /** Stored words consist of letters. */
  lemma StoredLower(heap: Heap, path: Paths, root: Addr, words: map<Word, nat>, w: Word)
    requires TreeOk(heap, path, root) && Stores(heap, path, words) && w in words
    ensures Lower(w)
  {
    assert Held(heap, path, w, words[w]);
    var a :| Holds(heap, path, a, w, words[w]);
    PathLower(heap, path, root, a);
  }

  /** Erasing indexes outside the children exactly for the words that are not erasable. */
  lemma OverrunsIff(heap: Heap, path: Paths, root: Addr, words: map<Word, nat>, w: Word)
    requires TreeOk(heap, path, root) && Stores(heap, path, words) && Pruned(heap, root, {})
    ensures Overruns(heap, Some(root), w) <==> !Erasable(words, w)
  {
    var p := Letters(w);
    OverrunsAt(heap, path, root, w);
    ReachedIff(heap, path, root, words, p);
    LookupAgrees(heap, path, root, words, p);
    WalkPath(heap, path, root, p);
    if w in words { StoredLower(heap, path, root, words, w); }
  }

  /** A root without children is the only node. */
  lemma LonelyRoot(heap: Heap, path: Paths, root: Addr)
    requires TreeOk(heap, path, root) && heap[root].chars == map[]
    ensures heap.Keys == {root}
  {
    forall a | a in heap ensures a == root { WalkFinds(heap, path, root, a); }
  }

  lemma WordsHeld(heap: Heap, path: Paths, words: map<Word, nat>)
    requires path.Keys == heap.Keys && Stores(heap, path, words)
    ensures forall w :: w in words ==> exists a :: a in heap && path[a] == w && heap[a].id != 0
  {
    forall w | w in words ensures exists a :: a in heap && path[a] == w && heap[a].id != 0 {
      assert Held(heap, path, w, words[w]);
      var a :| Holds(heap, path, a, w, words[w]);
    }
  }

  lemma NodeIsWord(heap: Heap, path: Paths, words: map<Word, nat>, a: Addr)
    requires path.Keys == heap.Keys && Stores(heap, path, words) && a in heap && heap[a].id != 0
    ensures path[a] in words
  { }

  /** A node without an id holds no word. */
  lemma NoWordHere(heap: Heap, path: Paths, words: map<Word, nat>, a: Addr)
    requires path.Keys == heap.Keys && Unshared(path) && Stores(heap, path, words) && a in heap && heap[a].id == 0
    ensures path[a] !in words && words - {path[a]} == words
  {
    WordsHeld(heap, path, words);
  }

  lemma DropChildAll(heap: Heap, path: Paths, root: Addr, words: map<Word, nat>, nextId: nat, p: Addr, c: char)
    requires p in heap && c in heap[p].chars && heap[p].chars[c] in heap && heap[heap[p].chars[c]].chars == map[]
    requires AllOk(heap, path, root, words, nextId, {heap[p].chars[c]})
    ensures var a := heap[p].chars[c];
            a in path && a != p && AllOk(DropChild(heap, p, c), path - {a}, root, words - {path[a]}, nextId, {p})
  {
    hide TreeOk, Stores;
    RootPath(heap, path, root);
    ChildFacts(heap, path, root, p);
    DropChildKeeps(heap, path, root, p, c);
    DropChildStores(heap, path, p, c, words);
  }

  lemma ClearIdAll(heap: Heap, path: Paths, root: Addr, words: map<Word, nat>, nextId: nat, a: Addr)
    requires AllOk(heap, path, root, words, nextId, {}) && a in heap && heap[a].chars != map[]
    ensures a in path && AllOk(SetId(heap, a, 0), path, root, words - {path[a]}, nextId, {})
  {
    hide TreeOk, Stores;
    RootPath(heap, path, root);
    SetIdKeeps(heap, path, root, a, 0);
    SetIdStores(heap, path, a, 0, words);
  }

  /** Without a pointer for the next letter no stored word continues with it. */
  lemma MissingChild(heap: Heap, path: Paths, root: Addr, words: map<Word, nat>, p: Addr, word: Word, i: nat)
    requires TreeOk(heap, path, root) && path.Keys == heap.Keys && Stores(heap, path, words) && p in heap && i < |word|
    requires path[p] == word[..i] && word[i] !in heap[p].chars
    ensures word !in words
  {
    hide TreeOk, Stores;
    WalkFinds(heap, path, root, p);
    WalkSnoc(heap, root, word[..i], word[i]);
    assert word[..i] + [word[i]] == word[..i + 1];
    LookupAgrees(heap, path, root, words, word);
    if Walk(heap, root, word).Some? { WalkClosed(heap, root, word[..i + 1], word); }
  }

  /** A child's letter and path. */
  lemma ChildFacts(heap: Heap, path: Paths, root: Addr, p: Addr)
    requires TreeOk(heap, path, root) && p in heap
    ensures p in path
    ensures forall c :: c in heap[p].chars ==>
              && Letter(c) && heap[p].chars[c] in heap
              && heap[p].chars[c] in path && path[heap[p].chars[c]] == path[p] + [c]
  {
    hide Rooted;
  }

  /** A node that stays in a shrinking tree keeps its parent. */
  lemma ParentStays(heap0: Heap, path0: Paths, heap: Heap, path: Paths, root: Addr, p: Addr, a: Addr)
    requires TreeOk(heap0, path0, root) && TreeOk(heap, path, root) && Shrunk(path0, path)
    requires a in heap && p in path0 && path[a] != [] && path0[p] == path[a][..|path[a]| - 1]
    ensures p in heap && p in path && Hangs(heap, path, p, a)
  {
    RootPath(heap, path, root);
    RootPath(heap0, path0, root);
    assert HasParent(heap, path, a);
    var q :| Hangs(heap, path, q, a);
    assert path0[q] == path0[p];
  }

  ghost predicate Shrunk(path0: Paths, path: Paths) {
    forall b :: b in path ==> b in path0 && path[b] == path0[b]
  }

  /** Exceptions may be added, and dropped when they are not idle. */
  lemma Except(heap: Heap, path: Paths, root: Addr, words: map<Word, nat>, nextId: nat, e: set<Addr>, e': set<Addr>)
    requires AllOk(heap, path, root, words, nextId, e) && forall a :: a in e - e' && a in heap ==> !Idle(heap[a])
    ensures AllOk(heap, path, root, words, nextId, e')
  { }

  lemma FreshTree(a: Addr, nextId: nat)
    requires nextId > 0
    ensures AllOk(map[a := Node(0, map[])], map[a := []], a, map[], nextId, {})
  { }

  const ALPHA_NUM := 26

  datatype Slot = Root | Child(parent: Addr, letter: char)

  /** How erasing ends: with true, with false, or by an index outside a node's children. */
  datatype Outcome = Erased | Missing | OutOfRange

  class Dictionary {
    var heap: Heap
    var root: Option<Addr>
    var nextId: nat
    ghost var path: Paths
    ghost var words: map<Word, nat>

    /** The tree is well formed and stores `words`; only the excepted nodes may be idle. */
    ghost predicate Sound(except: set<Addr>)
      reads this
    {
      root.Some? && AllOk(heap, path, root.value, words, nextId, except)
    }

    ghost predicate Valid()
      reads this
    {
      Sound({})
    }

    constructor ()
      ensures Valid() && words == map[] && nextId == 1
    {
      heap := map[0 := Node(0, map[])];
      root := Some(0);
      nextId := 1;
      path := map[0 := []];
      words := map[];
    }

    lemma SoundTree(except: set<Addr>)
      requires Sound(except)
      ensures TreeOk(heap, path, root.value) && path.Keys == heap.Keys && Stores(heap, path, words) && nextId > 0
    { }

    /** Inserting gives the word a new id, whether or not it was stored before.  It stays inside
        the nodes exactly for words of letters; otherwise nothing is stored. */
    method Insert(word: Word) returns (inRange: bool)
      requires Valid()
      modifies this
      ensures inRange <==> Lower(word)
      ensures inRange ==> Valid() && words == old(words)[word := old(nextId)] && nextId == old(nextId) + 1
      ensures !inRange ==> words == old(words) && nextId == old(nextId)
    {
      hide AllOk;
      var node := Top();
      for i := 0 to |word|
        invariant words == old(words) && nextId == old(nextId)
        invariant Sound({node}) && node in path && path[node] == word[..i] && Lower(word[..i])
      {
        if !Letter(word[i]) {
          return false;
        }
        node := Descend(node, word[i]);
        assert word[..i + 1] == word[..i] + [word[i]];
      }
      assert word[..|word|] == word;
      Mark(node);
      return true;
    }

    method Top() returns (node: Addr)
      requires Valid()
      ensures Some(node) == root && node in path && path[node] == [] && Sound({node})
    {
      node := root.value;
    }

    /** To the child of `node` for a letter, which is created if it is missing. */
    method Descend(node: Addr, c: char) returns (child: Addr)
      requires node in path && Sound({node}) && Letter(c)
      modifies this
      ensures words == old(words) && nextId == old(nextId)
      ensures Sound({child}) && child in path && path[child] == old(path[node]) + [c]
    {
      hide AllOk, TreeOk, Stores;
      SoundTree({node});
      if c !in heap[node].chars {
        var a := Allocate();
        AddChildAll(heap, path, root.value, words, nextId, node, c, a);
        heap, path := AddChild(heap, node, c, a), path[a := path[node] + [c]];
        child := a;
      } else {
        ChildAll(heap, path, root.value, words, nextId, node, c);
        child := heap[node].chars[c];
      }
    }

    /** The end of a word: the node takes the next id. */
    method Mark(node: Addr)
      requires node in path && Sound({node})
      modifies this
      ensures Valid()
      ensures words == old(words)[old(path[node]) := old(nextId)] && nextId == old(nextId) + 1
    {
      hide AllOk, TreeOk, Stores;
      SoundTree({node});
      SetIdAll(heap, path, root.value, words, nextId, node);
      heap := SetId(heap, node, nextId);
      words := words[path[node] := nextId];
      nextId := nextId + 1;
    }

    /** Whether a node has a child, by trying all letters. */
    method ChildExists(a: Addr) returns (b: bool)
      requires a in heap && forall c :: c in heap[a].chars ==> Letter(c)
      ensures b <==> heap[a].chars != map[]
    {
      for i := 0 to ALPHA_NUM
        invariant forall c :: c in heap[a].chars ==> c as int >= 'a' as int + i
      {
        if 'a' + i as char in heap[a].chars {
          return true;
        }
      }
      return false;
    }

    /** Some address that is not in use. */
    method Allocate() returns (a: Addr)
      ensures a !in heap
    {
      a := 0;
      var seen: set<Addr> := {};
      while a in heap
        invariant seen <= heap.Keys && forall b :: b in seen ==> b < a
        decreases heap.Keys - seen
      {
        seen, a := seen + {a}, a + 1;
      }
    }

    // ----- erasing -----

    /** The slot is where the pointer to the node for `word[..i]` is kept. */
    ghost predicate At(at: Slot, word: Word, i: nat)
      reads this
      requires i <= |word|
    {
      match at
      case Root => i == 0
      case Child(p, c) => i > 0 && p in heap && p in path && path[p] == word[..i - 1] && c == word[i - 1]
    }

    function Deref(at: Slot): Option<Addr>
      reads this
    {
      match at
      case Root => root
      case Child(p, c) => Down(heap, p, c)
    }

    /** What erasing through a slot leaves: a sound tree in which only the owner of the slot may
        have become idle, or nothing at all if the root was released. */
    ghost predicate Left(at: Slot, word: Word, i: nat)
      reads this
      requires i <= |word|
    {
      match at
      case Root => if root.None? then heap == map[] && path == map[] && words == map[] else Valid()
      case Child(p, _) => At(at, word, i) && Sound({p})
    }

    /** Following a slot. */
    lemma SlotFacts(at: Slot, word: Word, i: nat)
      requires i <= |word| && Valid() && At(at, word, i)
      ensures match Deref(at)
              case None => word !in words
              case Some(a) =>
                a in heap && a in path && path[a] == word[..i] && forall c :: c in heap[a].chars ==> Letter(c)
    {
      hide AllOk, TreeOk, Stores;
      SoundTree({});
      RootPath(heap, path, root.value);
      match at
      case Root => ChildFacts(heap, path, root.value, root.value);
      case Child(p, c) =>
        if Deref(at) == None {
          MissingChild(heap, path, root.value, words, p, word, i - 1);
        } else {
          ChildFacts(heap, path, root.value, p);
          ChildFacts(heap, path, root.value, heap[p].chars[c]);
          assert word[..i] == word[..i - 1] + [c];
        }
    }

    /** Releases a childless node and clears the pointer to it. */
    method Free(at: Slot, a: Addr, ghost word: Word, ghost i: nat)
      requires i <= |word| && At(at, word, i) && Deref(at) == Some(a) && a in heap && a in path && path[a] == word[..i]
      requires Sound({a}) && heap[a].chars == map[]
      modifies this`heap, this`root, this`path, this`words
      ensures words == old(words) - {word[..i]} && (at.Child? ==> root == old(root))
      ensures Left(at, word, i) && Shrunk(old(path), path)
    {
      if at == Root {
        FreeRoot(word);
      } else {
        FreeChild(at.parent, at.letter);
      }
    }

    method FreeRoot(ghost word: Word)
      requires root.Some? && Sound({root.value}) && root.value in heap && heap[root.value].chars == map[]
      modifies this`heap, this`root, this`path, this`words
      ensures words == old(words) - {[]} && Left(Root, word, 0) && Shrunk(old(path), path) && root == None
    {
      LonelyRoot(heap, path, root.value);
      WordsHeld(heap, path, words);
      heap, root, path, words := map[], None, map[], words - {[]};
    }

    method FreeChild(p: Addr, c: char)
      requires p in heap && p in path && c in heap[p].chars && Sound({heap[p].chars[c]})
      requires heap[p].chars[c] in heap && heap[heap[p].chars[c]].chars == map[]
      modifies this`heap, this`path, this`words
      ensures words == old(words) - {old(path[p]) + [c]} && Shrunk(old(path), path)
      ensures p in heap && p in path && Sound({p})
    {
      hide AllOk, TreeOk, Stores;
      SoundTree({heap[p].chars[c]});
      ChildFacts(heap, path, root.value, p);
      DropChildAll(heap, path, root.value, words, nextId, p, c);
      words := words - {path[heap[p].chars[c]]};
      heap, path := DropChild(heap, p, c), path - {heap[p].chars[c]};
    }

    /** The slot of a node is still its slot when the tree below has shrunk. */
    lemma AtStays(at: Slot, word: Word, i: nat, a: Addr, heap0: Heap, path0: Paths)
      requires i <= |word| && root.Some? && TreeOk(heap0, path0, root.value) && TreeOk(heap, path, root.value)
      requires Shrunk(path0, path) && a in heap && a in path && path[a] == word[..i]
      requires match at
               case Root => i == 0 && root == Some(a)
               case Child(p, c) => i > 0 && p in path0 && path0[p] == word[..i - 1] && c == word[i - 1]
      ensures At(at, word, i) && Deref(at) == Some(a)
    {
      if at.Child? {
        assert word[..i][..i - 1] == word[..i - 1];
        ParentStays(heap0, path0, heap, path, root.value, at.parent, a);
      }
    }

    /** The word ends here: its node is released, or keeps its children and loses its id. */
    method EraseHere(at: Slot, a: Addr, ghost word: Word)
      requires Valid() && At(at, word, |word|) && Deref(at) == Some(a) && a in heap && a in path && path[a] == word
      requires forall c :: c in heap[a].chars ==> Letter(c)
      modifies this`heap, this`root, this`path, this`words
      ensures words == old(words) - {word} && (at.Child? ==> root == old(root))
      ensures Left(at, word, |word|) && Shrunk(old(path), path)
    {
      hide AllOk;
      var parent := ChildExists(a);
      assert word[..|word|] == word;
      if !parent {
        Except(heap, path, root.value, words, nextId, {}, {a});
        Free(at, a, word, |word|);
      } else {
        ClearIdAll(heap, path, root.value, words, nextId, a);
        heap, words := SetId(heap, a, 0), words - {path[a]};
        Keep(at, word, |word|, {});
      }
    }

    /** A node that is not idle stays. */
    lemma Keep(at: Slot, word: Word, i: nat, e: set<Addr>)
      requires i <= |word| && Sound(e) && At(at, word, i) && forall a :: a in e && a in heap ==> !Idle(heap[a])
      ensures Left(at, word, i)
    {
      match at
      case Root => Except(heap, path, root.value, words, nextId, e, {});
      case Child(p, _) => Except(heap, path, root.value, words, nextId, e, {p});
    }

    /** On the way back a node that has become idle is released. */
    method ReleaseIdle(at: Slot, a: Addr, ghost word: Word, ghost i: nat)
      requires i <= |word| && Sound({a}) && At(at, word, i) && Deref(at) == Some(a)
      requires a in heap && a in path && path[a] == word[..i]
      modifies this`heap, this`root, this`path, this`words
      ensures words == old(words) && (at.Child? ==> root == old(root))
      ensures Left(at, word, i) && Shrunk(old(path), path)
    {
      SoundTree({a});
      ChildFacts(heap, path, root.value, a);
      var parent := ChildExists(a);
      if heap[a].id == 0 && !parent {
        NoWordHere(heap, path, words, a);
        hide AllOk;
        Free(at, a, word, i);
      } else {
        hide AllOk;
        Keep(at, word, i, {a});
      }
    }

    /** The recursion.  Nothing has changed when it comes to index outside the children. */
    method EraseAt(at: Slot, word: Word, i: nat) returns (outcome: Outcome)
      requires i <= |word| && Valid() && At(at, word, i)
      modifies this`heap, this`root, this`path, this`words
      ensures outcome == Erased <==> word in old(words)
      ensures outcome == OutOfRange <==> Overruns(old(heap), old(Deref(at)), word[i..])
      ensures words == old(words) - {word} && (at.Child? ==> root == old(root))
      ensures Left(at, word, i) && Shrunk(old(path), path)
      ensures outcome != Erased ==> heap == old(heap) && path == old(path) && root == old(root)
      decreases |word| - i
    {
      hide AllOk, TreeOk, Stores;
      SoundTree({});
      SlotFacts(at, word, i);
      Keep(at, word, i, {});
      var node := Deref(at);
      if node == None {
        return Missing;
      }
      var a := node.value;
      assert word[..|word|] == word;
      if i == |word| && heap[a].id != 0 {
        NodeIsWord(heap, path, words, a);
        EraseHere(at, a, word);
        return Erased;
      }
      if i == |word| || !Letter(word[i]) {
        NotStored(a, word, i);
        return OutOfRange;
      }
      ghost var heap0, path0, words0 := heap, path, words;
      assert word[i..][1..] == word[i + 1..];
      outcome := EraseAt(Child(a, word[i]), word, i + 1);
      if outcome == Erased {
        SoundTree({a});
        AtStays(at, word, i, a, heap0, path0);
        ReleaseIdle(at, a, word, i);
      } else {
        assert words == words0;
        Keep(at, word, i, {});
      }
    }

    /** A word is not stored if it ends at a node without an id or contains another character
        than letters. */
    lemma NotStored(a: Addr, word: Word, i: nat)
      requires Valid() && a in heap && a in path && i <= |word| && path[a] == word[..i]
      requires if i == |word| then heap[a].id == 0 else !Letter(word[i])
      ensures word !in words
    {
      hide AllOk, TreeOk, Stores;
      SoundTree({});
      if i == |word| {
        assert word[..|word|] == word;
        RootPath(heap, path, root.value);
        NoWordHere(heap, path, words, a);
      } else if word in words {
        StoredLower(heap, path, root.value, words, word);
      }
    }

    /** Erasing removes exactly the word and says whether it was there; it leaves the nodes' arrays
        exactly for the words that are not erasable.  A released root is created anew by the
        caller. */
    method Erase(word: Word) returns (outcome: Outcome)
      requires Valid()
      modifies this
      ensures Valid() && nextId == old(nextId) && words == old(words) - {word}
      ensures outcome == if word in old(words) then Erased
                         else if Erasable(old(words), word) then Missing
                         else OutOfRange
      ensures outcome != Erased ==> heap == old(heap) && root == old(root)
    {
      hide AllOk, Stores, TreeOk, Overruns, Erasable;
      ErasableIff(word);
      SoundTree({});
      assert word[0..] == word;
      outcome := EraseAt(Root, word, 0);
      if root == None {
        var a := Allocate();
        FreshTree(a, nextId);
        heap, root, path := map[a := Node(0, map[])], Some(a), map[a := []];
      }
    }

    lemma ErasableIff(word: Word)
      requires Valid()
      ensures Overruns(heap, root, word) <==> !Erasable(words, word)
    {
      OverrunsIff(heap, path, root.value, words, word);
    }
  }

  /** A reachable failure: a stored word's beginning is erased. */
  method EraseBeginning() returns (outcome: Outcome)
    ensures outcome == OutOfRange
  {
    hide AllOk;
    var d := new Dictionary();
    var inRange := d.Insert("ab");
    assert "ab" in d.words && "a" <= "ab";
    assert Letters("a") == "a";
    outcome := d.Erase("a");
  }

  /** Another one: a character outside the alphabet, with nothing stored. */
  method EraseCapital() returns (outcome: Outcome)
    ensures outcome == OutOfRange
  {
    var d := new Dictionary();
    outcome := d.Erase("A");
  }
}
