/** The topology builder of `simpype/simulation.py`: registries of generators,
    resources and pipelines, and the operations that fill them. */
module Simulations {
  import opened Base
  import opened Pipelines
  import opened Messages
  import opened Resources
  import opened Generators

  /** The registries. Pipeline `i` is registered under the number `i`, so the
      pipeline dictionary is a sequence here. A generator is registered both
      as a generator and as a resource. */
  datatype Simulation = Simulation(
    generators: map<ResId, Generator>,
    resources: map<ResId, Resource>,
    pipelines: seq<Pipeline>)

  /** An empty simulation. */
  function NewSimulation(): (s: Simulation)
    ensures Registered(s)
  {
    Simulation(map[], map[], [])
  }

  /** What every builder operation keeps: each generator is also a resource,
      and each pipeline's id is its position. */
  predicate Registered(s: Simulation) {
    && s.generators.Keys <= s.resources.Keys
    && forall i :: 0 <= i < |s.pipelines| ==> s.pipelines[i].id == Numbered(i)
  }

  /** `add_generator(id)` at time `now`: the id must be new to both registries,
      and the generator is entered in both. */
  function AddGenerator(s: Simulation, id: ResId, now: real): (r: Result<Simulation>)
    ensures r.Err? <==> id in s.generators || id in s.resources
    ensures r.Err? ==> r.error == DuplicateId
    ensures r.Ok? ==> r.value.generators == s.generators[id := NewGenerator(id, now)]
    ensures r.Ok? ==> r.value.resources == s.resources[id := NewGenerator(id, now).base]
    ensures r.Ok? ==> r.value.pipelines == s.pipelines
    ensures r.Ok? && Registered(s) ==> Registered(r.value)
  {
    if id in s.generators || id in s.resources then Err(DuplicateId)
    else
      var g := NewGenerator(id, now);
      Ok(s.(generators := s.generators[id := g], resources := s.resources[id := g.base]))
  }

  /** `add_resource(id, capacity=...)` with the default models: the id must be
      new to the resource registry, and only that entry is added. */
  function AddResource(s: Simulation, id: ResId, capacity: int): (r: Result<Simulation>)
    ensures r.Err? <==> id in s.resources
    ensures r.Err? ==> r.error == DuplicateId
    ensures r.Ok? ==> r.value == s.(resources := s.resources[id := NewResource(id, capacity)])
    ensures r.Ok? && Registered(s) ==> Registered(r.value)
  {
    if id in s.resources then Err(DuplicateId)
    else Ok(s.(resources := s.resources[id := NewResource(id, capacity)]))
  }

  /** `_update_message(pipeline)`: every generator whose id is a key of the
      pipeline's adjacency has its template moved onto the pipeline. */
  function UpdateMessages(gens: map<ResId, Generator>, p: Pipeline): (r: Result<map<ResId, Generator>>)
    ensures r.Ok? <==> forall id :: id in gens && id in p.adj ==> SetPipeline(gens[id].template, p).Ok?
    ensures r.Ok? ==> r.value.Keys == gens.Keys
    ensures r.Ok? ==> forall id :: id in gens && id !in p.adj ==> r.value[id] == gens[id]
    ensures r.Ok? ==> forall id :: id in gens && id in p.adj ==>
              r.value[id] == gens[id].(template := SetPipeline(gens[id].template, p).value)
  {
    if forall id :: id in gens && id in p.adj ==> SetPipeline(gens[id].template, p).Ok? then
      Ok(map id | id in gens ::
           if id in p.adj then gens[id].(template := SetPipeline(gens[id].template, p).value) else gens[id])
    else Err(NoneEndpoint)
  }

  /** The consecutive pairs of a chain of nodes. */
  function Links(args: seq<Node>): (r: seq<(Node, Node)>)
    requires |args| >= 1
    ensures |r| == |args| - 1
    ensures forall i :: 0 <= i < |r| ==> r[i] == (args[i], args[i + 1])
  {
    seq(|args| - 1, i requires 0 <= i < |args| - 1 => (args[i], args[i + 1]))
  }

  /** Registers a freshly built pipeline: templates are rebound, then the
      pipeline takes the next number. */
  function Register(s: Simulation, p: Pipeline): (r: Result<Simulation>)
    ensures r.Ok? <==> UpdateMessages(s.generators, p).Ok?
    ensures r.Ok? ==> r.value == Simulation(UpdateMessages(s.generators, p).value, s.resources, s.pipelines + [p])
  {
    var gens :- UpdateMessages(s.generators, p);
    Ok(Simulation(gens, s.resources, s.pipelines + [p]))
  }

  /** `add_pipeline(*args)`: at least two nodes; a new pipeline numbered after
      the registered ones gets one `add_pipe` per consecutive pair. */
  function AddPipeline(s: Simulation, args: seq<Node>): (r: Result<Simulation>)
    ensures |args| < 2 ==> r == Err(TooFewArguments)
    ensures |args| >= 2 ==>
              var built := AddPipes(NewPipeline(Numbered(|s.pipelines|)), Links(args));
              && (built.Err? ==> r == Err(built.error))
              && (built.Ok? ==> r == Register(s, built.value))
    ensures r.Ok? ==> |r.value.pipelines| == |s.pipelines| + 1 && r.value.pipelines[..|s.pipelines|] == s.pipelines
    ensures r.Ok? ==> r.value.pipelines[|s.pipelines|].id == Numbered(|s.pipelines|)
    ensures r.Ok? ==> r.value.pipelines[|s.pipelines|].last == ExitOf(args[|args| - 1])
    ensures r.Ok? ==> r.value.resources == s.resources
    ensures r.Ok? && Registered(s) ==> Registered(r.value)
  {
    if |args| < 2 then Err(TooFewArguments)
    else
      var p :- AddPipes(NewPipeline(Numbered(|s.pipelines|)), Links(args));
      AddPipesKeepsId(NewPipeline(Numbered(|s.pipelines|)), Links(args));
      Register(s, p)
  }

  /** `add_pipe` never renames the pipeline it builds. */
  lemma {:induction false} AddPipesKeepsId(self: Pipeline, edges: seq<(Node, Node)>)
    ensures AddPipes(self, edges).Ok? ==> AddPipes(self, edges).value.id == self.id
    decreases |edges|
  {
    if edges != [] && AddPipe(self, edges[0].0, edges[0].1).Ok? {
      AddPipesKeepsId(AddPipe(self, edges[0].0, edges[0].1).value, edges[1..]);
    }
  }

  /** The resources with a list in any of `ps`. */
  function AllKeys(ps: seq<Pipeline>): set<ResId>
    decreases |ps|
  {
    if ps == [] then {} else ps[0].adj.Keys + AllKeys(ps[1..])
  }

  /** A resource has a list in some pipeline of `ps` exactly when it is in `AllKeys(ps)`. */
  lemma {:induction false} AllKeysMembers(ps: seq<Pipeline>, k: ResId)
    ensures k in AllKeys(ps) <==> exists i :: 0 <= i < |ps| && k in ps[i].adj
    decreases |ps|
  {
    if ps != [] {
      AllKeysMembers(ps[1..], k);
      if k in AllKeys(ps[1..]) {
        var i :| 0 <= i < |ps[1..]| && k in ps[1..][i].adj;
        assert k in ps[i + 1].adj;
      }
      if exists i :: 0 <= i < |ps| && k in ps[i].adj {
        var i :| 0 <= i < |ps| && k in ps[i].adj;
        if i > 0 {
          assert k in ps[1..][i - 1].adj;
        }
      }
    }
  }

  /** Merges pipelines into `self`, in order. */
  function MergeAll(self: Pipeline, ps: seq<Pipeline>): (r: Pipeline)
    ensures r.id == self.id && r.first == self.first && r.last == self.last
    ensures r.adj.Keys == self.adj.Keys + AllKeys(ps)
    decreases |ps|
  {
    if ps == [] then self else MergeAll(Merge(self, ps[0]), ps[1..])
  }

  /** `merge_pipeline(*args)`: at least two pipelines, merged in argument order
      into a new pipeline numbered after the registered ones. */
  function MergePipeline(s: Simulation, ps: seq<Pipeline>): (r: Result<Simulation>)
    ensures |ps| < 2 ==> r == Err(TooFewArguments)
    ensures |ps| >= 2 ==> r == Register(s, MergeAll(NewPipeline(Numbered(|s.pipelines|)), ps))
    ensures r.Ok? ==> |r.value.pipelines| == |s.pipelines| + 1 && r.value.pipelines[..|s.pipelines|] == s.pipelines
    ensures r.Ok? ==> r.value.resources == s.resources
    ensures r.Ok? && Registered(s) ==> Registered(r.value)
  {
    if |ps| < 2 then Err(TooFewArguments)
    else Register(s, MergeAll(NewPipeline(Numbered(|s.pipelines|)), ps))
  }

  /** A merged pipeline has every key of its parts and, unlike a chained one,
      neither a first nor a last resource. */
  lemma MergedPipeline(s: Simulation, ps: seq<Pipeline>)
    requires MergePipeline(s, ps).Ok?
    ensures var p := MergePipeline(s, ps).value.pipelines[|s.pipelines|];
            && p.first.None? && p.last.None?
            && (forall i, k :: 0 <= i < |ps| && k in ps[i].adj ==> k in p.adj)
            && (forall k :: k in p.adj ==> exists i :: 0 <= i < |ps| && k in ps[i].adj)
  {
    var p := MergeAll(NewPipeline(Numbered(|s.pipelines|)), ps);
    assert MergePipeline(s, ps).value.pipelines[|s.pipelines|] == p;
    forall k ensures k in p.adj <==> exists i :: 0 <= i < |ps| && k in ps[i].adj {
      AllKeysMembers(ps, k);
    }
  }
}
