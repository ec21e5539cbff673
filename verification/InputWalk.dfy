/** The bounded walk of src/input.ts over an object graph that may share nodes and contain cycles. */
module InputWalk {
  import opened Wrappers

  /** A value is an object or array, named by its place in the heap, or anything else. */
  datatype Value = Scalar | Ref(id: nat)

  /** A property that `for (const key in current)` visits, with the answer of `hasOwnProperty`. */
  datatype Property = Property(own: bool, value: Value)

  /** `reserved` says whether the node has an own `__proto__` property. */
  datatype Node =
    | Items(items: seq<Value>, reserved: bool)
    | Fields(fields: seq<Property>, reserved: bool)

  type Heap = map<nat, Node>

  predicate Known(g: Heap, v: Value) {
    v.Ref? ==> v.id in g
  }

  /** The entries that count: all items of an array, the own enumerable properties of an object. */
  function Owned(fields: seq<Property>): seq<Value> {
    if fields == [] then []
    else Owned(fields[..|fields| - 1]) + (if fields[|fields| - 1].own then [fields[|fields| - 1].value] else [])
  }

  function Entries(n: Node): seq<Value> {
    if n.Items? then n.items else Owned(n.fields)
  }

  /** The heap has no dangling references. */
  ghost predicate Closed(g: Heap) {
    forall n, v | n in g && v in Entries(g[n]) :: Known(g, v)
  }

  // ----- the specification: unfold the value, at most `d` levels deep -----

  /** The number of entries in the unfolding of `v`, if it is at most `d` levels deep and meets no
      reserved key. Shared nodes count once for every way to reach them. */
  function Weigh(g: Heap, v: Value, d: nat): Option<nat>
    decreases d, 1, 0
  {
    if v.Scalar? then Some(0)
    else if d == 0 || v.id !in g || g[v.id].reserved then None
    else
      match Total(g, Entries(g[v.id]), d - 1)
      case None => None
      case Some(n) => Some(n + |Entries(g[v.id])|)
  }

  function Total(g: Heap, vs: seq<Value>, d: nat): Option<nat>
    decreases d, 2, |vs|
  {
    if vs == [] then Some(0)
    else
      match (Total(g, vs[..|vs| - 1], d), Weigh(g, vs[|vs| - 1], d))
      case (Some(a), Some(b)) => Some(a + b)
      case _ => None
  }

  /** What the walk decides. */
  ghost predicate Fits(g: Heap, root: Value, maximum: nat) {
    exists d: nat :: Weigh(g, root, d).Some? && Weigh(g, root, d).value <= maximum
  }

  // ----- lemmas about the specification -----

  lemma {:induction false} WeighDeeper(g: Heap, v: Value, d: nat)
    requires Weigh(g, v, d).Some?
    ensures Weigh(g, v, d + 1) == Weigh(g, v, d)
    decreases d, 1, 0
  {
    if v.Ref? { TotalDeeper(g, Entries(g[v.id]), d - 1); }
  }

  lemma {:induction false} TotalDeeper(g: Heap, vs: seq<Value>, d: nat)
    requires Total(g, vs, d).Some?
    ensures Total(g, vs, d + 1) == Total(g, vs, d)
    decreases d, 2, |vs|
  {
    if vs != [] {
      TotalDeeper(g, vs[..|vs| - 1], d);
      WeighDeeper(g, vs[|vs| - 1], d);
    }
  }

  lemma {:induction false} WeighAt(g: Heap, v: Value, d: nat, e: nat)
    requires Weigh(g, v, d).Some? && d <= e
    ensures Weigh(g, v, e) == Weigh(g, v, d)
    decreases e
  {
    if d < e {
      WeighAt(g, v, d, e - 1);
      WeighDeeper(g, v, e - 1);
    }
  }

  lemma {:induction false} TotalAt(g: Heap, vs: seq<Value>, d: nat, e: nat)
    requires Total(g, vs, d).Some? && d <= e
    ensures Total(g, vs, e) == Total(g, vs, d)
    decreases e
  {
    if d < e {
      TotalAt(g, vs, d, e - 1);
      TotalDeeper(g, vs, e - 1);
    }
  }

  function Plus(a: Option<nat>, b: Option<nat>): Option<nat> {
    if a.Some? && b.Some? then Some(a.value + b.value) else None
  }

  lemma TotalOfLast(g: Heap, rest: seq<Value>, v: Value, d: nat)
    ensures Total(g, rest + [v], d) == Plus(Total(g, rest, d), Weigh(g, v, d))
  {
    assert (rest + [v])[..|rest|] == rest;
  }

  lemma {:induction false} TotalOfSum(g: Heap, a: seq<Value>, b: seq<Value>, d: nat)
    ensures Total(g, a + b, d) == Plus(Total(g, a, d), Total(g, b, d))
    decreases |b|
  {
    if b == [] {
      assert a + b == a;
    } else {
      var rest, last := b[..|b| - 1], b[|b| - 1];
      TotalOfSum(g, a, rest, d);
      TotalOfLast(g, rest, last, d);
      TotalOfLast(g, a + rest, last, d);
      assert b == rest + [last] && a + b == (a + rest) + [last];
      PlusAssociates(Total(g, a, d), Total(g, rest, d), Weigh(g, last, d));
    }
  }

  lemma PlusAssociates(a: Option<nat>, b: Option<nat>, c: Option<nat>)
    ensures Plus(Plus(a, b), c) == Plus(a, Plus(b, c))
  {
  }

  lemma TotalOfOne(g: Heap, v: Value, d: nat)
    ensures Total(g, [v], d) == Weigh(g, v, d)
  {
    assert [v][..0] == [];
    assert Total(g, [], d) == Some(0);
  }

  /** The part of a list of entries that the walk pushes. */
  function Refs(vs: seq<Value>): seq<Value> {
    if vs == [] then []
    else Refs(vs[..|vs| - 1]) + (if vs[|vs| - 1].Ref? then [vs[|vs| - 1]] else [])
  }

  lemma {:induction false} RefsWeighAll(g: Heap, vs: seq<Value>, d: nat)
    ensures Total(g, Refs(vs), d) == Total(g, vs, d)
    ensures |Refs(vs)| <= |vs|
    decreases |vs|
  {
    if vs != [] {
      var rest, last := vs[..|vs| - 1], vs[|vs| - 1];
      RefsWeighAll(g, rest, d);
      TotalOfOne(g, last, d);
      if last.Ref? { TotalOfSum(g, Refs(rest), [last], d); } else { assert Refs(rest) + [] == Refs(rest); }
    }
  }

  // ----- the walk -----

  predicate Finite(g: Heap, v: Value, d: nat) {
    Weigh(g, v, d).Some?
  }

  predicate AllFinite(g: Heap, vs: seq<Value>, d: nat) {
    Total(g, vs, d).Some?
  }

  /** What a step of the walk keeps: `root` is fine exactly if everything pending is, and then it
      has `count` entries more. `depth` bounds how far below the root the pending values are. */
  ghost predicate Remains(g: Heap, root: Value, count: nat, pending: seq<Value>, depth: nat) {
    && (forall d: nat {:trigger Finite(g, root, d)} | Finite(g, root, d) ::
          AllFinite(g, pending, d) && Weigh(g, root, d).value == count + Total(g, pending, d).value)
    && (forall d: nat {:trigger AllFinite(g, pending, d)} | AllFinite(g, pending, d) ::
          Weigh(g, root, d + depth) == Some(count + Total(g, pending, d).value))
  }

  lemma RemainsAtStart(g: Heap, root: Value)
    ensures Remains(g, root, 0, [root], 0)
  {
    forall d: nat ensures Total(g, [root], d) == Weigh(g, root, d) { TotalOfOne(g, root, d); }
  }

  /** Popping a value that is not an object. */
  lemma RemainsAfterScalar(g: Heap, root: Value, count: nat, rest: seq<Value>, depth: nat)
    requires Remains(g, root, count, rest + [Scalar], depth)
    ensures Remains(g, root, count, rest, depth)
  {
    forall d: nat {:trigger Finite(g, root, d)} | Finite(g, root, d)
      ensures AllFinite(g, rest, d) && Weigh(g, root, d).value == count + Total(g, rest, d).value
    {
      TotalOfLast(g, rest, Scalar, d);
    }
    forall d: nat {:trigger AllFinite(g, rest, d)} | AllFinite(g, rest, d)
      ensures Weigh(g, root, d + depth) == Some(count + Total(g, rest, d).value)
    {
      TotalOfLast(g, rest, Scalar, d);
      assert AllFinite(g, rest + [Scalar], d);
    }
  }

  /** The total before and after an object is replaced by its object entries. */
  lemma TotalOfNode(g: Heap, rest: seq<Value>, id: nat, d: nat)
    requires id in g && !g[id].reserved
    ensures Total(g, rest + [Ref(id)], d + 1) ==
              Plus(Total(g, rest, d + 1), Plus(Total(g, Entries(g[id]), d), Some(|Entries(g[id])|)))
    ensures Total(g, rest + Refs(Entries(g[id])), d) == Plus(Total(g, rest, d), Total(g, Entries(g[id]), d))
  {
    TotalOfLast(g, rest, Ref(id), d + 1);
    TotalOfSum(g, rest, Refs(Entries(g[id])), d);
    RefsWeighAll(g, Entries(g[id]), d);
  }

  /** If the root is finite with the object pending, so it is with the entries pending. */
  lemma NodeForward(g: Heap, rest: seq<Value>, id: nat, d: nat)
    requires id in g && AllFinite(g, rest + [Ref(id)], d)
    ensures !g[id].reserved && AllFinite(g, rest + Refs(Entries(g[id])), d)
    ensures Total(g, rest + [Ref(id)], d).value == |Entries(g[id])| + Total(g, rest + Refs(Entries(g[id])), d).value
  {
    TotalOfLast(g, rest, Ref(id), d);
    TotalDeeper(g, Entries(g[id]), d - 1);
    TotalOfSum(g, rest, Refs(Entries(g[id])), d);
    RefsWeighAll(g, Entries(g[id]), d);
  }

  /** If all the entries are finite, so is the object, one level deeper. */
  lemma NodeBack(g: Heap, rest: seq<Value>, id: nat, d: nat)
    requires id in g && !g[id].reserved && AllFinite(g, rest + Refs(Entries(g[id])), d)
    ensures AllFinite(g, rest + [Ref(id)], d + 1)
    ensures Total(g, rest + [Ref(id)], d + 1).value == |Entries(g[id])| + Total(g, rest + Refs(Entries(g[id])), d).value
  {
    TotalOfNode(g, rest, id, d);
    TotalDeeper(g, rest, d);
  }

  /** Popping an object and pushing its object entries. */
  lemma RemainsAfterNode(g: Heap, root: Value, count: nat, rest: seq<Value>, id: nat, depth: nat)
    requires id in g && !g[id].reserved
    requires Remains(g, root, count, rest + [Ref(id)], depth)
    ensures Remains(g, root, count + |Entries(g[id])|, rest + Refs(Entries(g[id])), depth + 1)
  {
    var n, before, after := |Entries(g[id])|, rest + [Ref(id)], rest + Refs(Entries(g[id]));
    forall d: nat {:trigger Finite(g, root, d)} | Finite(g, root, d)
      ensures AllFinite(g, after, d) && Weigh(g, root, d).value == count + n + Total(g, after, d).value
    {
      NodeForward(g, rest, id, d);
    }
    forall d: nat {:trigger AllFinite(g, after, d)} | AllFinite(g, after, d)
      ensures Weigh(g, root, d + (depth + 1)) == Some(count + n + Total(g, after, d).value)
    {
      NodeBack(g, rest, id, d);
      assert AllFinite(g, before, d + 1);
      assert d + (depth + 1) == d + 1 + depth;
    }
  }

  /** Too many entries in one object are too many in the whole. */
  lemma TooManyEntries(g: Heap, root: Value, count: nat, rest: seq<Value>, id: nat, depth: nat, maximum: nat)
    requires id in g && Remains(g, root, count, rest + [Ref(id)], depth)
    requires count + |Entries(g[id])| > maximum
    ensures !Fits(g, root, maximum)
  {
    forall d: nat | Weigh(g, root, d).Some? ensures Weigh(g, root, d).value > maximum {
      assert Finite(g, root, d);
      TotalOfLast(g, rest, Ref(id), d);
    }
  }

  lemma ReservedNeverFits(g: Heap, root: Value, count: nat, rest: seq<Value>, id: nat, depth: nat, maximum: nat)
    requires id in g && g[id].reserved && Remains(g, root, count, rest + [Ref(id)], depth)
    ensures !Fits(g, root, maximum)
  {
    forall d: nat ensures Weigh(g, root, d).None? {
      if Finite(g, root, d) { TotalOfLast(g, rest, Ref(id), d); }
    }
  }

  lemma NothingRemains(g: Heap, root: Value, count: nat, depth: nat, maximum: nat)
    requires Remains(g, root, count, [], depth) && count <= maximum
    ensures Fits(g, root, maximum)
  {
    assert AllFinite(g, [], 0);
  }

  /** The entries of an array, counted and pushed; stops when the count passes `maximum`. */
  method PushItems(node: Node, maximum: nat, count0: nat, pending0: seq<Value>)
    returns (ok: bool, count: nat, pending: seq<Value>)
    requires node.Items? && count0 <= maximum
    ensures ok <==> count0 + |Entries(node)| <= maximum
    ensures ok ==> count == count0 + |Entries(node)| && pending == pending0 + Refs(Entries(node))
  {
    count, pending := count0, pending0;
    var i := 0;
    while i < |node.items|
      invariant 0 <= i <= |node.items|
      invariant count == count0 + i <= maximum
      invariant pending == pending0 + Refs(node.items[..i])
    {
      var child := node.items[i];
      assert node.items[..i + 1][..i] == node.items[..i];
      count := count + 1;
      if count > maximum { return false, count, pending; }
      if child.Ref? { pending := pending + [child]; }
      i := i + 1;
    }
    assert node.items[..i] == node.items;
    ok := true;
  }

  /** The own properties of an object, counted and pushed; inherited ones are passed over. */
  method PushFields(node: Node, maximum: nat, count0: nat, pending0: seq<Value>)
    returns (ok: bool, count: nat, pending: seq<Value>)
    requires node.Fields? && count0 <= maximum
    ensures ok <==> count0 + |Entries(node)| <= maximum
    ensures ok ==> count == count0 + |Entries(node)| && pending == pending0 + Refs(Entries(node))
  {
    count, pending := count0, pending0;
    var i := 0;
    while i < |node.fields|
      invariant 0 <= i <= |node.fields|
      invariant count == count0 + |Owned(node.fields[..i])| <= maximum
      invariant pending == pending0 + Refs(Owned(node.fields[..i]))
    {
      var f := node.fields[i];
      FieldNext(node.fields, i);
      i := i + 1;
      if !f.own { continue; }
      count := count + 1;
      if count > maximum { return false, count, pending; }
      var child := f.value;
      if child.Ref? { pending := pending + [child]; }
    }
    assert node.fields[..i] == node.fields;
    ok := true;
  }

  /** What one property adds to the count and to the stack. */
  lemma FieldNext(fields: seq<Property>, i: nat)
    requires i < |fields|
    ensures var before, after := Owned(fields[..i]), Owned(fields[..i + 1]);
            && |after| == |before| + (if fields[i].own then 1 else 0)
            && |after| <= |Owned(fields)|
            && Refs(after) == Refs(before) + if fields[i].own && fields[i].value.Ref? then [fields[i].value] else []
  {
    OwnedNext(fields, i);
    OwnedGrows(fields, i + 1);
    RefsNext(Owned(fields[..i]), fields[i].value);
  }

  lemma OwnedNext(fields: seq<Property>, i: nat)
    requires i < |fields|
    ensures Owned(fields[..i + 1]) ==
              if fields[i].own then Owned(fields[..i]) + [fields[i].value] else Owned(fields[..i])
  {
    assert fields[..i + 1][..i] == fields[..i];
  }

  lemma RefsNext(vs: seq<Value>, v: Value)
    ensures Refs(vs + [v]) == Refs(vs) + if v.Ref? then [v] else []
  {
    assert (vs + [v])[..|vs|] == vs;
  }

  /** True exactly if the unfolding of `root` is finite, has at most `maximum` entries and meets no
      reserved key. The measure holds for cyclic heaps too: every entry pushed has been counted. */
  method WithinInputElementLimit(g: Heap, root: Value, maximum: nat) returns (ok: bool)
    requires Closed(g) && Known(g, root)
    ensures ok <==> Fits(g, root, maximum)
  {
    var pending := [root];
    var count := 0;
    ghost var depth := 0;
    RemainsAtStart(g, root);
    while |pending| > 0
      invariant count <= maximum
      invariant forall v | v in pending :: Known(g, v)
      invariant Remains(g, root, count, pending, depth)
      decreases 2 * (maximum - count) + |pending|
    {
      var current := pending[|pending| - 1];
      assert Known(g, current);
      ghost var was := pending;
      pending := pending[..|pending| - 1];
      ghost var rest := pending;
      assert was == rest + [current];
      if current.Scalar? {
        RemainsAfterScalar(g, root, count, rest, depth);
        continue;
      }
      var node := g[current.id];
      if node.reserved {
        ReservedNeverFits(g, root, count, rest, current.id, depth, maximum);
        return false;
      }
      ghost var before := count;
      var within: bool;
      if node.Items? {
        within, count, pending := PushItems(node, maximum, count, pending);
      } else {
        within, count, pending := PushFields(node, maximum, count, pending);
      }
      if !within {
        TooManyEntries(g, root, before, rest, current.id, depth, maximum);
        return false;
      }
      RemainsAfterNode(g, root, before, rest, current.id, depth);
      RefsAreEntries(g, current.id);
      RefsWeighAll(g, Entries(node), 0);
      depth := depth + 1;
    }
    NothingRemains(g, root, count, depth, maximum);
    ok := true;
  }

  lemma {:induction false} OwnedGrows(fields: seq<Property>, i: nat)
    requires i <= |fields|
    ensures |Owned(fields[..i])| <= |Owned(fields)|
    decreases |fields|
  {
    if i < |fields| {
      OwnedGrows(fields[..|fields| - 1], i);
      assert fields[..|fields| - 1][..i] == fields[..i];
    } else {
      assert fields[..i] == fields;
    }
  }

  lemma {:induction false} RefsFrom(vs: seq<Value>)
    ensures forall v | v in Refs(vs) :: v in vs
  {
    if vs != [] { RefsFrom(vs[..|vs| - 1]); }
  }

  lemma RefsAreEntries(g: Heap, id: nat)
    requires Closed(g) && id in g
    ensures forall v | v in Refs(Entries(g[id])) :: Known(g, v)
  {
    RefsFrom(Entries(g[id]));
  }

  // ----- what the decision means for the graph -----

  /** `p` is a way from `v` along entries. */
  ghost predicate Path(g: Heap, v: Value, p: seq<nat>) {
    && |p| > 0 && v == Ref(p[0])
    && (forall i | 0 <= i < |p| :: p[i] in g)
    && (forall i | 0 <= i < |p| - 1 :: Ref(p[i + 1]) in Entries(g[p[i]]))
  }

  /** No reachable object has the reserved key. */
  ghost predicate Clean(g: Heap, v: Value) {
    forall p | Path(g, v, p) :: !g[p[|p| - 1]].reserved
  }

  /** No way from `v` comes back to an object it has passed. */
  ghost predicate Acyclic(g: Heap, v: Value) {
    forall p | Path(g, v, p) :: Distinct(p)
  }

  ghost predicate Distinct(p: seq<nat>) {
    forall i, j | 0 <= i < j < |p| :: p[i] != p[j]
  }

  lemma {:induction false} EntryWeighs(g: Heap, vs: seq<Value>, v: Value, d: nat)
    requires Total(g, vs, d).Some? && v in vs
    ensures Weigh(g, v, d).Some? && Weigh(g, v, d).value <= Total(g, vs, d).value
    decreases |vs|
  {
    var rest := vs[..|vs| - 1];
    assert vs == rest + [vs[|vs| - 1]];
    if v != vs[|vs| - 1] { EntryWeighs(g, rest, v, d); }
  }

  /** Along a way out of a finite value the weights fall. */
  lemma {:induction false} WeightsFall(g: Heap, v: Value, d: nat, p: seq<nat>, j: nat)
    requires Finite(g, v, d) && Path(g, v, p) && j < |p|
    ensures Finite(g, Ref(p[j]), d) && !g[p[j]].reserved
    ensures j > 0 ==> Weigh(g, Ref(p[j]), d).value < Weigh(g, v, d).value
    decreases |p|
  {
    if j > 0 {
      var child := Ref(p[1]);
      EntryWeighs(g, Entries(g[p[0]]), child, d - 1);
      WeighDeeper(g, child, d - 1);
      WeightsFall(g, child, d, p[1..], j - 1);
    }
  }

  lemma FiniteIsSound(g: Heap, v: Value, d: nat)
    requires Finite(g, v, d)
    ensures Clean(g, v) && Acyclic(g, v)
  {
    forall p | Path(g, v, p) ensures !g[p[|p| - 1]].reserved && Distinct(p) {
      WeightsFall(g, v, d, p, |p| - 1);
      forall i, j | 0 <= i < j < |p| ensures p[i] != p[j] {
        WeightsFall(g, v, d, p, i);
        WeightsFall(g, Ref(p[i]), d, p[i..], j - i);
      }
    }
  }

  lemma {:induction false} SomeEntryIsDeep(g: Heap, vs: seq<Value>, d: nat) returns (v: Value)
    requires Total(g, vs, d).None?
    ensures v in vs && Weigh(g, v, d).None?
    decreases |vs|
  {
    var rest := vs[..|vs| - 1];
    if Total(g, rest, d).None? {
      v := SomeEntryIsDeep(g, rest, d);
    } else {
      v := vs[|vs| - 1];
    }
  }

  /** A value that is not finite within `d` levels has a way of `d + 1` objects, or one to a
      reserved key. */
  lemma {:induction false} DeepWay(g: Heap, v: Value, d: nat) returns (p: seq<nat>)
    requires Closed(g) && Known(g, v) && Weigh(g, v, d).None?
    ensures Path(g, v, p) && (|p| == d + 1 || g[p[|p| - 1]].reserved)
    decreases d
  {
    if d == 0 || g[v.id].reserved {
      p := [v.id];
    } else {
      var c := SomeEntryIsDeep(g, Entries(g[v.id]), d - 1);
      var q := DeepWay(g, c, d - 1);
      p := [v.id] + q;
    }
  }

  lemma {:induction false} DistinctFits(p: seq<nat>, k: set<nat>)
    requires Distinct(p) && forall i | 0 <= i < |p| :: p[i] in k
    ensures |p| <= |k|
    decreases |p|
  {
    if p != [] {
      var last := p[|p| - 1];
      DistinctFits(p[..|p| - 1], k - {last});
    }
  }

  /** The number of entries of the unfolding; no way through the heap is longer than the heap. */
  function Size(g: Heap, v: Value): nat {
    match Weigh(g, v, |g|)
    case Some(n) => n
    case None => 0
  }

  lemma CleanAndAcyclicIsFinite(g: Heap, v: Value)
    requires Closed(g) && Known(g, v) && Clean(g, v) && Acyclic(g, v)
    ensures Finite(g, v, |g|)
  {
    if Weigh(g, v, |g|).None? {
      var p := DeepWay(g, v, |g|);
      DistinctFits(p, g.Keys);
      assert false;
    }
  }

  /** The walk accepts exactly the values from which no reserved key and no cycle is reachable and
      whose unfolding has at most `maximum` entries. */
  lemma FitsIffCleanAcyclicAndSmall(g: Heap, root: Value, maximum: nat)
    requires Closed(g) && Known(g, root)
    ensures Fits(g, root, maximum) <==> Clean(g, root) && Acyclic(g, root) && Size(g, root) <= maximum
  {
    if Fits(g, root, maximum) {
      var d: nat :| Weigh(g, root, d).Some? && Weigh(g, root, d).value <= maximum;
      FiniteIsSound(g, root, d);
      CleanAndAcyclicIsFinite(g, root);
      WeighAt(g, root, d, d + |g|);
      WeighAt(g, root, |g|, d + |g|);
    }
    if Clean(g, root) && Acyclic(g, root) {
      CleanAndAcyclicIsFinite(g, root);
    }
  }

  // ----- the size counts the ways -----

  /** Following the entries named by `way`, one after the other, from `v`. */
  predicate Walks(g: Heap, v: Value, way: seq<nat>)
    decreases |way|
  {
    way == []
    || (v.Ref? && v.id in g && way[0] < |Entries(g[v.id])| && Walks(g, Entries(g[v.id])[way[0]], way[1..]))
  }

  predicate WalksIn(g: Heap, vs: seq<Value>, way: seq<nat>) {
    way != [] && way[0] < |vs| && Walks(g, vs[way[0]], way[1..])
  }

  /** All ways of `b`, each behind the step `n`. */
  lemma {:induction false} Behind(n: nat, b: set<seq<nat>>) returns (a: set<seq<nat>>)
    ensures |a| == |b|
    ensures forall way :: way in a <==> way != [] && way[0] == n && way[1..] in b
  {
    if b == {} {
      a := {};
    } else {
      var w :| w in b;
      var rest := Behind(n, b - {w});
      a := rest + {[n] + w};
      forall way
        ensures way in a <==> way != [] && way[0] == n && way[1..] in b
      {
        if way != [] && way[0] == n && way[1..] == w { assert way == [n] + w; }
      }
    }
  }

  lemma {:induction false} WaysOf(g: Heap, v: Value, d: nat) returns (ways: set<seq<nat>>)
    requires Weigh(g, v, d).Some?
    ensures |ways| == Weigh(g, v, d).value
    ensures forall way :: way in ways <==> way != [] && Walks(g, v, way)
    decreases d, 1, 0
  {
    if v.Scalar? {
      ways := {};
    } else {
      ways := WaysOfAll(g, Entries(g[v.id]), d - 1);
    }
  }

  lemma {:induction false} WaysOfAll(g: Heap, vs: seq<Value>, d: nat) returns (ways: set<seq<nat>>)
    requires Total(g, vs, d).Some?
    ensures |ways| == Total(g, vs, d).value + |vs|
    ensures forall way :: way in ways <==> WalksIn(g, vs, way)
    decreases d, 2, |vs|
  {
    if vs == [] {
      ways := {};
    } else {
      var n := |vs| - 1;
      var before := WaysOfAll(g, vs[..n], d);
      var below := WaysOf(g, vs[n], d);
      var last := Behind(n, below);
      ways := before + {[n]} + last;
      assert before !! {[n]} && before !! last && {[n]} !! last;
      forall way
        ensures way in ways <==> WalksIn(g, vs, way)
      {
        WaysSplit(g, vs, way);
      }
    }
  }

  lemma WaysSplit(g: Heap, vs: seq<Value>, way: seq<nat>)
    requires vs != []
    ensures var n := |vs| - 1;
            WalksIn(g, vs, way) <==>
              WalksIn(g, vs[..n], way) || way == [n]
              || (way != [] && way[0] == n && way[1..] != [] && Walks(g, vs[n], way[1..]))
  {
    var n := |vs| - 1;
    if way != [] && way[0] == n && way[1..] == [] { assert way == [n]; }
  }

  /** The size of a value that may be accepted is the number of ways from it to an entry: an entry that
      is shared counts once for every way to reach it. */
  lemma SizeCountsTheWays(g: Heap, v: Value) returns (ways: set<seq<nat>>)
    requires Closed(g) && Known(g, v) && Clean(g, v) && Acyclic(g, v)
    ensures |ways| == Size(g, v)
    ensures forall way :: way in ways <==> way != [] && Walks(g, v, way)
  {
    CleanAndAcyclicIsFinite(g, v);
    ways := WaysOf(g, v, |g|);
  }

  // ----- what counts as an entry -----

  /** `at` names the property behind each entry: an own one, and in the order in which they are visited. */
  predicate Names(fields: seq<Property>, at: seq<nat>, entries: seq<Value>) {
    && |at| == |entries|
    && (forall k | 0 <= k < |at| :: at[k] < |fields| && fields[at[k]].own && entries[k] == fields[at[k]].value)
    && (forall j, k | 0 <= j < k < |at| :: at[j] < at[k])
  }

  lemma OwnIsNamed(fields: seq<Property>, at: seq<nat>, entries: seq<Value>, last: Property)
    requires Names(fields, at, entries)
    ensures Names(fields + [last], at, entries)
    ensures last.own ==> Names(fields + [last], at + [|fields|], entries + [last.value])
  {
  }

  /** The entries of an object are the values of its own properties, all of them and nothing else. */
  lemma {:induction false} EntriesAreTheOwn(fields: seq<Property>, reserved: bool) returns (at: seq<nat>)
    ensures Names(fields, at, Entries(Fields(fields, reserved)))
    ensures forall i: nat | i < |fields| && fields[i].own :: i in at
    decreases |fields|
  {
    if fields == [] {
      at := [];
    } else {
      var n := |fields| - 1;
      at := EntriesAreTheOwn(fields[..n], reserved);
      assert fields == fields[..n] + [fields[n]];
      OwnIsNamed(fields[..n], at, Owned(fields[..n]), fields[n]);
      if fields[n].own { at := at + [n]; }
    }
  }

  /** What counts: the items of an array, the own properties of an object. */
  lemma EntriesAre(node: Node) returns (at: seq<nat>)
    ensures node.Items? ==> Entries(node) == node.items
    ensures node.Fields? ==> Names(node.fields, at, Entries(node))
    ensures node.Fields? ==> forall i: nat | i < |node.fields| && node.fields[i].own :: i in at
  {
    at := [];
    if node.Fields? { at := EntriesAreTheOwn(node.fields, node.reserved); }
  }
}
