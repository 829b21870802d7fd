/** `simpype/pipeline.py`: the pipeline graph, an adjacency map from a resource
    id to the ordered list of resources that follow it. */
module Pipelines {
  import opened Base

  type ResId = string

  /** The id of a pipeline: the registry index for pipelines built by the
      simulation, the message id for the private pipeline every message owns. */
  datatype PipelineId = Numbered(n: nat) | Named(name: string)

  /** A list entry is `None` when it came from the `first` of an empty pipeline. */
  type Target = Option<ResId>

  datatype Pipeline = Pipeline(
    id: PipelineId,
    adj: map<ResId, seq<Target>>,
    first: Option<ResId>,
    last: Option<ResId>)

  /** What `add_pipe` accepts at either end: a resource or a whole pipeline. */
  datatype Node = Res(rid: ResId) | Line(p: Pipeline)

  function NewPipeline(id: PipelineId): (p: Pipeline)
    ensures p.id == id && p.adj == map[] && p.first.None? && p.last.None?
  {
    Pipeline(id, map[], None, None)
  }

  /** Where a node is left from: the resource itself or the pipeline's `last`. */
  function ExitOf(n: Node): Option<ResId> {
    match n
    case Res(r) => Some(r)
    case Line(p) => p.last
  }

  /** Where a node is entered: the resource itself or the pipeline's `first`. */
  function EntryOf(n: Node): Option<ResId> {
    match n
    case Res(r) => Some(r)
    case Line(p) => p.first
  }

  predicate NoDup<T(==)>(s: seq<T>) {
    forall i, j :: 0 <= i < j < |s| ==> s[i] != s[j]
  }

  /** The elements of `v` not in `seen`, each once, in order of first occurrence. */
  function Fresh<T(==, !new)>(v: seq<T>, seen: set<T>): (r: seq<T>)
    ensures forall x :: x in r <==> x in v && x !in seen
    ensures NoDup(r)
    ensures |r| <= |v|
  {
    if v == [] then []
    else if v[0] in seen then Fresh(v[1..], seen)
    else [v[0]] + Fresh(v[1..], seen + {v[0]})
  }

  /** `Fresh` of elements all already seen is empty. */
  lemma FreshOfSeen<T(!new)>(v: seq<T>, seen: set<T>)
    requires forall x :: x in v ==> x in seen
    ensures Fresh(v, seen) == []
  {
  }

  /** The position of the first occurrence of `x` in `s`. */
  function IndexOf<T(==)>(s: seq<T>, x: T): (i: nat)
    requires x in s
    ensures i < |s| && s[i] == x && x !in s[..i]
  {
    if s[0] == x then 0 else 1 + IndexOf(s[1..], x)
  }

  /** `Fresh` keeps the order in which elements first occur. */
  lemma {:induction false} FreshOrder<T(!new)>(v: seq<T>, seen: set<T>)
    ensures forall i, j :: 0 <= i < j < |Fresh(v, seen)| ==>
              IndexOf(v, Fresh(v, seen)[i]) < IndexOf(v, Fresh(v, seen)[j])
  {
    if v != [] {
      var t := v[1..];
      var r := Fresh(v, seen);
      if v[0] in seen {
        FreshOrder(t, seen);
        forall i, j | 0 <= i < j < |r| ensures IndexOf(v, r[i]) < IndexOf(v, r[j]) {
          assert r[i] in r && r[j] in r;
          assert r[i] != v[0] && r[j] != v[0];
        }
      } else {
        var rest := Fresh(t, seen + {v[0]});
        FreshOrder(t, seen + {v[0]});
        assert r == [v[0]] + rest;
        forall i, j | 0 <= i < j < |r| ensures IndexOf(v, r[i]) < IndexOf(v, r[j]) {
          assert r[j] == rest[j - 1] && rest[j - 1] in rest;
          assert r[j] != v[0];
          if i > 0 {
            assert r[i] == rest[i - 1] && rest[i - 1] in rest;
          }
        }
      }
    }
  }

  function Elems<T>(s: seq<T>): set<T> {
    set x | x in s
  }

  /** The list a key holds after merging `v` into `prior`. The Python code
      appends `list(set(v) - set(prior))`, whose order is the hash order of a
      set; the model fixes first-occurrence order. */
  function MergeList(prior: seq<Target>, v: seq<Target>): (r: seq<Target>)
    ensures |prior| <= |r| && r[..|prior|] == prior
    ensures forall x :: x in r[|prior|..] <==> x in v && x !in prior
    ensures NoDup(r[|prior|..])
  {
    var r := prior + Fresh(v, Elems(prior));
    assert r[|prior|..] == Fresh(v, Elems(prior));
    r
  }

  /** The list a pipeline holds under `k`, empty when `k` is not a key. */
  function ListOf(self: Pipeline, k: ResId): seq<Target> {
    if k in self.adj then self.adj[k] else []
  }

  /** `merge_pipe`: every key of `p` is merged in, other keys are kept. */
  function Merge(self: Pipeline, p: Pipeline): (r: Pipeline)
    ensures r.id == self.id && r.first == self.first && r.last == self.last
    ensures r.adj.Keys == self.adj.Keys + p.adj.Keys
    ensures forall k :: k in self.adj && k !in p.adj ==> r.adj[k] == self.adj[k]
    ensures forall k :: k in p.adj ==> r.adj[k] == MergeList(ListOf(self, k), p.adj[k])
  {
    var adj := map k | k in self.adj.Keys + p.adj.Keys ::
      if k in p.adj then MergeList(ListOf(self, k), p.adj[k]) else self.adj[k];
    self.(adj := adj)
  }

  /** Every key's old list is a prefix of its list after a merge. */
  lemma MergeKeepsPrefix(self: Pipeline, p: Pipeline, k: ResId)
    ensures |ListOf(self, k)| <= |ListOf(Merge(self, p), k)|
    ensures ListOf(Merge(self, p), k)[..|ListOf(self, k)|] == ListOf(self, k)
  {
  }

  /** Merging the same pipeline twice is merging it once. */
  lemma MergeIdempotent(self: Pipeline, p: Pipeline)
    ensures Merge(Merge(self, p), p) == Merge(self, p)
  {
    var once := Merge(self, p);
    var twice := Merge(once, p);
    forall k | k in p.adj ensures twice.adj[k] == once.adj[k] {
      var prior := ListOf(self, k);
      var r := once.adj[k];
      forall x | x in p.adj[k] ensures x in Elems(r) {
        if x !in prior {
          assert x in r[|prior|..];
        } else {
          assert r[..|prior|] == prior;
        }
      }
      FreshOfSeen(p.adj[k], Elems(r));
      assert r + [] == r;
    }
  }

  /** The elements a list holds after a merge: its own and the merged ones. */
  lemma MergeListElems(prior: seq<Target>, v: seq<Target>)
    ensures Elems(MergeList(prior, v)) == Elems(prior) + Elems(v)
  {
    var r := MergeList(prior, v);
    assert r == r[..|prior|] + r[|prior|..];
  }

  /** Merging two pipelines in either order gives every key the same elements;
      only their order can differ. */
  lemma MergeOrderElems(self: Pipeline, p: Pipeline, q: Pipeline, k: ResId)
    ensures Elems(ListOf(Merge(Merge(self, p), q), k)) == Elems(ListOf(Merge(Merge(self, q), p), k))
    ensures Elems(ListOf(Merge(Merge(self, p), q), k)) ==
              Elems(ListOf(self, k)) + Elems(ListOf(p, k)) + Elems(ListOf(q, k))
  {
    MergeElems(self, p, k);
    MergeElems(self, q, k);
    MergeElems(Merge(self, p), q, k);
    MergeElems(Merge(self, q), p, k);
  }

  lemma MergeElems(self: Pipeline, p: Pipeline, k: ResId)
    ensures Elems(ListOf(Merge(self, p), k)) == Elems(ListOf(self, k)) + Elems(ListOf(p, k))
  {
    if k in p.adj {
      MergeListElems(ListOf(self, k), p.adj[k]);
    }
  }

  /** `{A→B}` and `{A→C}` merged into an empty pipeline in either order: the
      same elements, in different orders. */
  lemma MergeOrderExample(a: ResId, b: ResId, c: ResId, id: PipelineId, i1: PipelineId, i2: PipelineId)
    requires b != c
    ensures var pb := Pipeline(i1, map[a := [Some(b)]], None, None);
            var pc := Pipeline(i2, map[a := [Some(c)]], None, None);
            && Merge(Merge(NewPipeline(id), pb), pc).adj[a] == [Some(b), Some(c)]
            && Merge(Merge(NewPipeline(id), pc), pb).adj[a] == [Some(c), Some(b)]
  {
    FreshPair(Some(b), Some(c));
    FreshPair(Some(c), Some(b));
  }

  lemma FreshPair(x: Target, y: Target)
    requires x != y
    ensures MergeList([], [x]) == [x]
    ensures MergeList([x], [y]) == [x, y]
  {
    assert Fresh([x], {}) == [x];
    assert Fresh([y], {x}) == [y];
  }

  /** `add_pipe(src, dst)`: fails when `src` is a pipeline without a `last`. */
  function AddPipe(self: Pipeline, src: Node, dst: Node): (r: Result<Pipeline>)
    ensures r.Err? <==> ExitOf(src).None?
    ensures r.Err? ==> r.error == NoneEndpoint
    ensures r.Ok? ==>
              var from := ExitOf(src).value;
              var prior := ListOf(self, from);
              && from in r.value.adj
              && |prior| < |r.value.adj[from]|
              && r.value.adj[from][..|prior| + 1] == prior + [EntryOf(dst)]
    ensures r.Ok? ==> forall k ::
              (|ListOf(self, k)| <= |ListOf(r.value, k)| && ListOf(r.value, k)[..|ListOf(self, k)|] == ListOf(self, k))
    ensures r.Ok? && src.Res? && dst.Res? ==>
              r.value.adj == self.adj[src.rid := ListOf(self, src.rid) + [Some(dst.rid)]]
    ensures r.Ok? && self.first.Some? ==> r.value.first == self.first
    ensures r.Ok? && self.first.None? ==> r.value.first == EntryOf(src)
    ensures r.Ok? ==> r.value.last == ExitOf(dst)
    ensures r.Ok? ==> r.value.id == self.id
  {
    match ExitOf(src)
    case None => Err(NoneEndpoint)
    case Some(from) =>
      var p1 := self.(adj := self.adj[from := ListOf(self, from) + [EntryOf(dst)]]);
      var p2 := if src.Line? then Merge(p1, src.p) else p1;
      var p3 := if dst.Line? then Merge(p2, dst.p) else p2;
      AddPipePrefix(self, p1, p2, p3, src, dst, from);
      var first := if self.first.None? then EntryOf(src) else self.first;
      Ok(p3.(first := first, last := ExitOf(dst)))
  }

  lemma AddPipePrefix(self: Pipeline, p1: Pipeline, p2: Pipeline, p3: Pipeline, src: Node, dst: Node, from: ResId)
    requires p1 == self.(adj := self.adj[from := ListOf(self, from) + [EntryOf(dst)]])
    requires p2 == (if src.Line? then Merge(p1, src.p) else p1)
    requires p3 == (if dst.Line? then Merge(p2, dst.p) else p2)
    ensures forall k ::
              (|ListOf(p1, k)| <= |ListOf(p3, k)| && ListOf(p3, k)[..|ListOf(p1, k)|] == ListOf(p1, k))
    ensures forall k ::
              (|ListOf(self, k)| <= |ListOf(p3, k)| && ListOf(p3, k)[..|ListOf(self, k)|] == ListOf(self, k))
  {
    forall k ensures |ListOf(p1, k)| <= |ListOf(p3, k)| && ListOf(p3, k)[..|ListOf(p1, k)|] == ListOf(p1, k)
    {
      if src.Line? { MergeKeepsPrefix(p1, src.p, k); }
      if dst.Line? { MergeKeepsPrefix(p2, dst.p, k); }
      PrefixTrans(ListOf(p1, k), ListOf(p2, k), ListOf(p3, k));
    }
    forall k ensures |ListOf(self, k)| <= |ListOf(p1, k)| && ListOf(p1, k)[..|ListOf(self, k)|] == ListOf(self, k)
    {
      if k == from {
        assert ListOf(p1, k) == ListOf(self, k) + [EntryOf(dst)];
      }
    }
    forall k ensures |ListOf(self, k)| <= |ListOf(p3, k)| && ListOf(p3, k)[..|ListOf(self, k)|] == ListOf(self, k)
    {
      PrefixTrans(ListOf(self, k), ListOf(p1, k), ListOf(p3, k));
    }
  }

  lemma PrefixTrans<T>(a: seq<T>, b: seq<T>, c: seq<T>)
    requires |a| <= |b| && b[..|a|] == a
    requires |b| <= |c| && c[..|b|] == b
    ensures |a| <= |c| && c[..|a|] == a
  {
    assert c[..|a|] == c[..|b|][..|a|];
  }

  /** Adding the same resource-to-resource edge twice stores it twice. */
  lemma AddPipeTwice(self: Pipeline, a: ResId, b: ResId)
    ensures AddPipe(self, Res(a), Res(b)).Ok?
    ensures AddPipe(AddPipe(self, Res(a), Res(b)).value, Res(a), Res(b)).Ok?
    ensures AddPipe(AddPipe(self, Res(a), Res(b)).value, Res(a), Res(b)).value.adj[a] ==
              ListOf(self, a) + [Some(b), Some(b)]
  {
    var once := AddPipe(self, Res(a), Res(b)).value;
    assert ListOf(once, a) == ListOf(self, a) + [Some(b)];
    assert ListOf(self, a) + [Some(b)] + [Some(b)] == ListOf(self, a) + [Some(b), Some(b)];
  }

  /** A sequence of `add_pipe` calls, stopping at the first failure. */
  function AddPipes(self: Pipeline, edges: seq<(Node, Node)>): (r: Result<Pipeline>)
    ensures r.Ok? && self.first.Some? ==> r.value.first == self.first
    ensures r.Ok? && |edges| > 0 ==> r.value.last == ExitOf(edges[|edges| - 1].1)
    decreases |edges|
  {
    if edges == [] then Ok(self)
    else
      match AddPipe(self, edges[0].0, edges[0].1)
      case Err(e) => Err(e)
      case Ok(p) =>
        assert |edges| > 1 ==> edges[1..][|edges| - 2] == edges[|edges| - 1];
        AddPipes(p, edges[1..])
  }

  /** The entry of the first source that has one. */
  function FirstEntry(edges: seq<(Node, Node)>): Option<ResId> {
    if edges == [] then None
    else if EntryOf(edges[0].0).Some? then EntryOf(edges[0].0)
    else FirstEntry(edges[1..])
  }

  /** Starting unset, `first` ends as the entry of the first source that has
      one: it is set once and never changed afterwards. */
  lemma {:induction false} FirstSetOnce(self: Pipeline, edges: seq<(Node, Node)>)
    requires self.first.None? && AddPipes(self, edges).Ok?
    ensures AddPipes(self, edges).value.first == FirstEntry(edges)
    decreases |edges|
  {
    if edges != [] {
      var p := AddPipe(self, edges[0].0, edges[0].1);
      assert p.Ok?;
      var rest := edges[1..];
      assert AddPipes(self, edges) == AddPipes(p.value, rest);
      if p.value.first.None? {
        FirstSetOnce(p.value, rest);
      }
    }
  }
}
