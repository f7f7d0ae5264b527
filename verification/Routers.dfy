/** Building delegated routers from their configuration. */
module Routers {
  import opened Dag
  import opened Wrappers

  // The parameters of a router that is built without other routers.
  datatype Leaf = Http(endpoint: string) | Reframe(endpoint: string)
                | Dht(mode: string, accelerated: bool) | DhtBadParams

  datatype Child = Child(name: string, timeout: int, ignoreErrors: bool, executeAfter: int)

  datatype Config = LeafConfig(leaf: Leaf) | Parallel(routers: seq<Child>) | Sequential(routers: seq<Child>) | UnknownType

  datatype Router = LeafRouter(leaf: Leaf) | ParallelRouter(parts: seq<Part>) | SequentialRouter(parts: seq<Part>)
  datatype Part = Part(router: Router, timeout: int, ignoreErrors: bool, executeAfter: int)

  datatype Error = Loop(name: string) | NotConfigured(name: string) | BadType(name: string) | BadLeaf(name: string)
                 | BadMethods
  datatype Result<T> = Ok(value: T) | Err(error: Error)
  // The configured routers, and which well-formed leaves the client and DHT
  // libraries manage to construct.
  datatype Env = Env(configs: map<string, Config>, constructible: set<Leaf>)

  // Leaf construction: the checks made here, then the library's verdict.
  predicate Buildable(env: Env, l: Leaf) {
    match l
    case Http(e) => e != "" && l in env.constructible
    case Reframe(e) => e != "" && l in env.constructible
    case Dht(mode, accelerated) => (accelerated || mode in {"auto", "client", "server"}) && l in env.constructible
    case DhtBadParams => false
  }

  function Children(c: Config): seq<Child> {
    if c.Parallel? || c.Sequential? then c.routers else []
  }

  // A sequential router carries no start delay.
  function MakePart(c: Config, child: Child, r: Router): Part {
    Part(r, child.timeout, child.ignoreErrors, if c.Parallel? then child.executeAfter else 0)
  }

  function Compose(c: Config, parts: seq<Part>): Router
    requires c.Parallel? || c.Sequential?
  {
    if c.Parallel? then ParallelRouter(parts) else SequentialRouter(parts)
  }

  // ---- What a configured name denotes, with at most depth nested routers ----

  ghost function Denote(env: Env, name: string, depth: nat): Option<Router>
    decreases depth, 1, 0
  {
    if depth == 0 || name !in env.configs then None
    else
      match env.configs[name]
      case LeafConfig(l) => if Buildable(env, l) then Some(LeafRouter(l)) else None
      case UnknownType => None
      case _ =>
        var c := env.configs[name];
        match DenoteParts(env, c, c.routers, depth)
        case None => None
        case Some(parts) => Some(Compose(c, parts))
  }

  ghost function DenoteParts(env: Env, c: Config, children: seq<Child>, depth: nat): Option<seq<Part>>
    requires depth > 0
    decreases depth, 0, |children|
  {
    if children == [] then Some([])
    else
      var k := |children| - 1;
      match DenoteParts(env, c, children[..k], depth)
      case None => None
      case Some(parts) =>
        match Denote(env, children[k].name, depth - 1)
        case None => None
        case Some(r) => Some(parts + [MakePart(c, children[k], r)])
  }

  ghost predicate Denotes(env: Env, name: string, r: Router) {
    exists depth: nat :: Denote(env, name, depth) == Some(r)
  }

  ghost predicate Meaningful(env: Env, name: string) {
    exists r :: Denotes(env, name, r)
  }

  lemma {:induction false} DenoteMonotone(env: Env, name: string, d: nat, e: nat)
    requires d <= e && Denote(env, name, d).Some?
    ensures Denote(env, name, e) == Denote(env, name, d)
    decreases d, 1, 0
  {
    var c := env.configs[name];
    if c.Parallel? || c.Sequential? {
      PartsMonotone(env, c, c.routers, d, e);
    }
  }

  lemma {:induction false} PartsMonotone(env: Env, c: Config, children: seq<Child>, d: nat, e: nat)
    requires 0 < d <= e && DenoteParts(env, c, children, d).Some?
    ensures DenoteParts(env, c, children, e) == DenoteParts(env, c, children, d)
    decreases d, 0, |children|
  {
    if children != [] {
      var k := |children| - 1;
      PartsMonotone(env, c, children[..k], d, e);
      DenoteMonotone(env, children[k].name, d - 1, e - 1);
    }
  }

  lemma DenotesUnique(env: Env, name: string, r: Router, s: Router)
    requires Denotes(env, name, r) && Denotes(env, name, s)
    ensures r == s
  {
    var d: nat :| Denote(env, name, d) == Some(r);
    var e: nat :| Denote(env, name, e) == Some(s);
    if d <= e { DenoteMonotone(env, name, d, e); } else { DenoteMonotone(env, name, e, d); }
  }

  // ---- Which router that is ----

  // r is the router of the configuration with this name: a leaf router, or a
  // composite of the configured kind with one part for each listed router, in
  // order. A sequential part starts without delay.
  ghost predicate Assembled(env: Env, name: string, r: Router) {
    name in env.configs &&
    match env.configs[name]
    case LeafConfig(l) => r == LeafRouter(l) && Buildable(env, l)
    case UnknownType => false
    case Parallel(cs) =>
      && r.ParallelRouter? && |r.parts| == |cs|
      && forall i :: 0 <= i < |cs| ==>
           && Denotes(env, cs[i].name, r.parts[i].router)
           && r.parts[i].timeout == cs[i].timeout && r.parts[i].ignoreErrors == cs[i].ignoreErrors
           && r.parts[i].executeAfter == cs[i].executeAfter
    case Sequential(cs) =>
      && r.SequentialRouter? && |r.parts| == |cs|
      && forall i :: 0 <= i < |cs| ==>
           && Denotes(env, cs[i].name, r.parts[i].router)
           && r.parts[i].timeout == cs[i].timeout && r.parts[i].ignoreErrors == cs[i].ignoreErrors
           && r.parts[i].executeAfter == 0
  }

  // A name denotes exactly the router assembled from what its parts denote.
  lemma DenotesAssembled(env: Env, name: string, r: Router)
    ensures Denotes(env, name, r) <==> Assembled(env, name, r)
  {
    hide DenoteParts, Buildable;
    if Denotes(env, name, r) {
      var d: nat :| Denote(env, name, d) == Some(r);
      var c := env.configs[name];
      if c.Parallel? || c.Sequential? {
        EachPart(env, c, c.routers, d, r.parts);
        forall i | 0 <= i < |c.routers| ensures Denotes(env, c.routers[i].name, r.parts[i].router) {
          assert Denote(env, c.routers[i].name, d - 1) == Some(r.parts[i].router);
        }
      }
    }
    if Assembled(env, name, r) {
      var c := env.configs[name];
      if c.LeafConfig? {
        assert Denote(env, name, 1) == Some(r);
      } else {
        hide Denotes;
        PartsTogether(env, c, c.routers, r.parts, |r.parts|);
        assert c.routers[..|r.parts|] == c.routers && r.parts[..|r.parts|] == r.parts;
        ComposedDenotes(env, name, r.parts);
      }
    }
  }

  lemma {:induction false} EachPart(env: Env, c: Config, children: seq<Child>, d: nat, parts: seq<Part>)
    requires d > 0 && DenoteParts(env, c, children, d) == Some(parts)
    ensures |parts| == |children|
    ensures forall i :: 0 <= i < |children| ==>
              Denote(env, children[i].name, d - 1) == Some(parts[i].router) && parts[i] == MakePart(c, children[i], parts[i].router)
    decreases |children|
  {
    if children != [] {
      var k := |children| - 1;
      var first := DenoteParts(env, c, children[..k], d).value;
      assert parts == first + [MakePart(c, children[k], Denote(env, children[k].name, d - 1).value)];
      EachPart(env, c, children[..k], d, first);
    }
  }

  lemma {:induction false} PartsTogether(env: Env, c: Config, children: seq<Child>, parts: seq<Part>, k: nat)
    requires |parts| == |children| && k <= |parts|
    requires forall i :: 0 <= i < |children| ==>
               Denotes(env, children[i].name, parts[i].router) && parts[i] == MakePart(c, children[i], parts[i].router)
    ensures PartsDenoted(env, c, children[..k], parts[..k])
    decreases k
  {
    hide Denotes, PartsDenoted;
    if k == 0 {
      NoPartsDenoted(env, c);
    } else {
      PartsTogether(env, c, children, parts, k - 1);
      OneMorePart(env, c, children, k - 1, parts[..k - 1], parts[k - 1].router);
      assert parts[..k] == parts[..k - 1] + [parts[k - 1]];
    }
  }

  // Which leaf configurations can be built.
  lemma BuildableIff(env: Env, l: Leaf)
    ensures Meaningful(Env(map["x" := LeafConfig(l)], env.constructible), "x") <==>
              && l in env.constructible
              && (l.Http? || l.Reframe? ==> l.endpoint != "")
              && (l.Dht? && !l.accelerated ==> l.mode == "auto" || l.mode == "client" || l.mode == "server")
              && !l.DhtBadParams?
  {
    var single := Env(map["x" := LeafConfig(l)], env.constructible);
    if Buildable(single, l) { assert Denote(single, "x", 1) == Some(LeafRouter(l)); assert Denotes(single, "x", LeafRouter(l)); }
  }

  // ---- The graph of names ----

  function Names(children: seq<Child>): seq<string> {
    seq(|children|, i requires 0 <= i < |children| => children[i].name)
  }

  function NameGraph(env: Env): Graph<string> {
    map name | name in env.configs :: Names(Children(env.configs[name]))
  }

  // to is at the end of at least one link from a name in from.
  ghost predicate Below(env: Env, from: string, to: string) {
    exists b :: Reachable(NameGraph(env), {from}, b) && to in Succ(NameGraph(env), b)
  }

  ghost predicate OnCycle(env: Env, name: string) {
    Below(env, name, name)
  }

  // The node itself is configured, of a known type and, if a leaf, buildable.
  predicate WellConfigured(env: Env, name: string) {
    name in env.configs && !env.configs[name].UnknownType?
    && (env.configs[name].LeafConfig? ==> Buildable(env, env.configs[name].leaf))
  }

  // The declarative reading: everything reachable is well configured and acyclic.
  ghost predicate Sound(env: Env, name: string) {
    forall n :: Reachable(NameGraph(env), {name}, n) ==> WellConfigured(env, n) && !OnCycle(env, n)
  }

  // ---- A name has a meaning exactly when everything below it is sound ----

  lemma ChildDenotes(env: Env, name: string, d: nat, child: string)
    requires Denote(env, name, d).Some? && child in Succ(NameGraph(env), name)
    ensures d > 1 && Denote(env, child, d - 1).Some?
  {
    var c := env.configs[name];
    var k :| 0 <= k < |Children(c)| && Children(c)[k].name == child;
    PartDenotes(env, c, c.routers, d, k);
  }

  lemma {:induction false} PartDenotes(env: Env, c: Config, children: seq<Child>, d: nat, k: nat)
    requires d > 0 && DenoteParts(env, c, children, d).Some? && k < |children|
    ensures d > 1 && Denote(env, children[k].name, d - 1).Some?
    decreases |children|
  {
    if k < |children| - 1 {
      PartDenotes(env, c, children[..|children| - 1], d, k);
    }
  }

  // Nested routers use up depth, so paths below a meaningful name are short.
  lemma {:induction false} PathDenotes(env: Env, name: string, d: nat, n: string, k: nat)
    requires Denote(env, name, d).Some? && ReachIn(NameGraph(env), {name}, n, k)
    ensures k < d && Denote(env, n, d - k).Some?
    decreases k
  {
    hide NameGraph, DenoteParts;
    if k > 0 {
      var b :| ReachIn(NameGraph(env), {name}, b, k - 1) && n in Succ(NameGraph(env), b);
      PathDenotes(env, name, d, b, k - 1);
      ChildDenotes(env, b, d - (k - 1), n);
    }
  }

  lemma {:induction false} NoCycleBelow(env: Env, n: string, d: nat, k: nat)
    requires Denote(env, n, d).Some? && k > 0
    ensures !ReachIn(NameGraph(env), {n}, n, k)
    decreases d
  {
    if ReachIn(NameGraph(env), {n}, n, k) {
      PathDenotes(env, n, d, n, k);
      NoCycleBelow(env, n, d - k, k);
    }
  }

  lemma DenotedIsWellConfigured(env: Env, name: string, d: nat)
    requires Denote(env, name, d).Some?
    ensures WellConfigured(env, name)
  {
  }

  lemma MeaningfulIsSound(env: Env, name: string)
    requires Meaningful(env, name)
    ensures Sound(env, name)
  {
    hide Denote, NameGraph, WellConfigured;
    var r :| Denotes(env, name, r);
    var d: nat :| Denote(env, name, d) == Some(r);
    forall n | Reachable(NameGraph(env), {name}, n) ensures WellConfigured(env, n) && !OnCycle(env, n) {
      var k: nat :| ReachIn(NameGraph(env), {name}, n, k);
      PathDenotes(env, name, d, n, k);
      DenotedIsWellConfigured(env, n, d - k);
      if OnCycle(env, n) {
        var b :| Reachable(NameGraph(env), {n}, b) && n in Succ(NameGraph(env), b);
        var m: nat :| ReachIn(NameGraph(env), {n}, b, m);
        assert ReachIn(NameGraph(env), {n}, n, m + 1);
        NoCycleBelow(env, n, d - k, m + 1);
      }
    }
  }

  // path holds names that lead to name; in an acyclic graph it never holds name
  // itself, so the depth left is enough.
  lemma {:induction false} SoundDenotes(env: Env, name: string, path: set<string>)
    requires Sound(env, name) && path <= env.configs.Keys
    requires forall p :: p in path ==> Below(env, p, name)
    ensures Denote(env, name, |env.configs.Keys - path|).Some?
    decreases |env.configs.Keys - path|, 1, 0
  {
    var g, left := NameGraph(env), env.configs.Keys - path;
    RootReachable(g, {name}, name);
    assert name in left;
    var c := env.configs[name];
    if c.Parallel? || c.Sequential? {
      assert left - {name} == env.configs.Keys - (path + {name});
      assert |left - {name}| == |left| - 1;
      SoundPartsDenote(env, name, path, c.routers);
    }
  }

  lemma {:induction false} SoundPartsDenote(env: Env, name: string, path: set<string>, children: seq<Child>)
    requires Sound(env, name) && path <= env.configs.Keys && name in env.configs && name !in path
    requires forall p :: p in path ==> Below(env, p, name)
    requires children <= Children(env.configs[name])
    ensures |env.configs.Keys - path| > 0
    ensures DenoteParts(env, env.configs[name], children, |env.configs.Keys - path|).Some?
    decreases |env.configs.Keys - path|, 0, |children|
  {
    var g, left := NameGraph(env), env.configs.Keys - path;
    assert name in left;
    if children != [] {
      var k := |children| - 1;
      var child := children[k].name;
      SoundPartsDenote(env, name, path, children[..k]);
      assert child in Succ(g, name) by { assert Succ(g, name)[k] == child; }
      RootReachable(g, {name}, name);
      assert Below(env, name, child);
      ChildIsSound(env, name, child);
      forall p | p in path ensures Below(env, p, child) {
        BelowTrans(env, p, name, child);
      }
      assert left - {name} == env.configs.Keys - (path + {name});
      assert |left - {name}| == |left| - 1;
      SoundDenotes(env, child, path + {name});
    }
  }

  lemma BelowTrans(env: Env, a: string, b: string, c: string)
    requires Below(env, a, b) && c in Succ(NameGraph(env), b)
    ensures Below(env, a, c)
  {
    var x :| Reachable(NameGraph(env), {a}, x) && b in Succ(NameGraph(env), x);
    ReachStep(NameGraph(env), {a}, x, b);
  }

  lemma ChildIsSound(env: Env, name: string, child: string)
    requires Sound(env, name) && child in Succ(NameGraph(env), name)
    ensures Sound(env, child)
  {
    var g := NameGraph(env);
    RootReachable(g, {name}, name);
    ReachStep(g, {name}, name, child);
    forall n | Reachable(g, {child}, n) ensures Reachable(g, {name}, n) {
      ReachTrans(g, {name}, child, n);
    }
  }

  lemma MeaningfulIffSound(env: Env, name: string)
    ensures Meaningful(env, name) <==> Sound(env, name)
  {
    if Meaningful(env, name) { MeaningfulIsSound(env, name); }
    if Sound(env, name) {
      SoundDenotes(env, name, {});
      assert Denotes(env, name, Denote(env, name, |env.configs.Keys - {}|).value);
    }
  }

  // ---- Errors ----

  // The error names a reachable router and what is wrong with it; a loop is
  // only reported for a name that is on a cycle.
  ghost predicate Explains(env: Env, name: string, e: Error) {
    !e.BadMethods? && Reachable(NameGraph(env), {name}, e.name) &&
    match e
    case Loop(n) => OnCycle(env, n)
    case NotConfigured(n) => n !in env.configs
    case BadType(n) => n in env.configs && env.configs[n].UnknownType?
    case BadLeaf(n) => n in env.configs && env.configs[n].LeafConfig? && !Buildable(env, env.configs[n].leaf)
  }

  lemma ExplainedIsUnsound(env: Env, name: string, e: Error)
    requires Explains(env, name, e)
    ensures !e.BadMethods? && !Sound(env, name) && !Meaningful(env, name)
  {
    MeaningfulIffSound(env, name);
  }

  lemma DenotedIsSound(env: Env, name: string, r: Router)
    requires Denotes(env, name, r)
    ensures Sound(env, name)
  {
    MeaningfulIffSound(env, name);
  }

  lemma ChildErrorExplains(env: Env, name: string, child: string, e: Error)
    requires Explains(env, child, e) && child in Succ(NameGraph(env), name)
    ensures Explains(env, name, e)
  {
    var g := NameGraph(env);
    RootReachable(g, {name}, name);
    ReachStep(g, {name}, name, child);
    ReachTrans(g, {name}, child, e.name);
  }

  // ---- The builder ----

  // The parts built so far, at some depth.
  ghost predicate PartsDenoted(env: Env, c: Config, children: seq<Child>, parts: seq<Part>) {
    exists d: nat :: d > 0 && DenoteParts(env, c, children, d) == Some(parts)
  }

  lemma OneMorePart(env: Env, c: Config, children: seq<Child>, i: nat, parts: seq<Part>, r: Router)
    requires i < |children| && PartsDenoted(env, c, children[..i], parts) && Denotes(env, children[i].name, r)
    ensures PartsDenoted(env, c, children[..i + 1], parts + [MakePart(c, children[i], r)])
  {
    var d: nat :| d > 0 && DenoteParts(env, c, children[..i], d) == Some(parts);
    var e: nat :| Denote(env, children[i].name, e) == Some(r);
    var m := if d > e then d else e + 1;
    PartsMonotone(env, c, children[..i], d, m);
    DenoteMonotone(env, children[i].name, e, m - 1);
    assert children[..i + 1][..i] == children[..i];
    assert DenoteParts(env, c, children[..i + 1], m) == Some(parts + [MakePart(c, children[i], r)]);
  }

  lemma ComposedDenotes(env: Env, name: string, parts: seq<Part>)
    requires name in env.configs && (env.configs[name].Parallel? || env.configs[name].Sequential?)
    requires PartsDenoted(env, env.configs[name], env.configs[name].routers, parts)
    ensures Denotes(env, name, Compose(env.configs[name], parts))
  {
    var c := env.configs[name];
    var d: nat :| d > 0 && DenoteParts(env, c, c.routers, d) == Some(parts);
    assert Denote(env, name, d) == Some(Compose(c, parts));
  }

  lemma LeafDenotes(env: Env, name: string)
    requires name in env.configs && env.configs[name].LeafConfig? && Buildable(env, env.configs[name].leaf)
    ensures Denotes(env, name, LeafRouter(env.configs[name].leaf))
  {
    assert Denote(env, name, 1).Some?;
  }

  lemma NoPartsDenoted(env: Env, c: Config)
    ensures PartsDenoted(env, c, [], [])
  {
    assert DenoteParts(env, c, [], 1) == Some([]);
  }

  lemma ChildIsLinked(env: Env, name: string, i: nat)
    requires name in env.configs && i < |Children(env.configs[name])|
    ensures Children(env.configs[name])[i].name in Succ(NameGraph(env), name)
    ensures Below(env, name, Children(env.configs[name])[i].name)
  {
    assert Succ(NameGraph(env), name)[i] == Children(env.configs[name])[i].name;
    RootReachable(NameGraph(env), {name}, name);
  }

  // What a failure at the name itself proves.
  lemma NameExplains(env: Env, name: string)
    ensures Below(env, name, name) ==> Explains(env, name, Loop(name))
    ensures name !in env.configs ==> Explains(env, name, NotConfigured(name))
    ensures name in env.configs && env.configs[name].UnknownType? ==> Explains(env, name, BadType(name))
    ensures name in env.configs && env.configs[name].LeafConfig? && !Buildable(env, env.configs[name].leaf) ==>
              Explains(env, name, BadLeaf(name))
  {
    RootReachable(NameGraph(env), {name}, name);
  }

  class Builder {
    const env: Env
    var visited: set<string>
    var created: map<string, Router>

    constructor (env: Env)
      ensures this.env == env && visited == {} && created == map[]
    {
      this.env, visited, created := env, {}, map[];
    }

    // Every created router is what its name denotes.
    ghost predicate Faithful()
      reads this
    {
      forall n :: n in created ==> Denotes(env, n, created[n])
    }

    // Visited names are finished (created) or being built (on the stack).
    ghost predicate Coloured(stack: set<string>)
      reads this
    {
      visited <= created.Keys + stack
    }

    method Parse(name: string, ghost stack: set<string>) returns (res: Result<Router>)
      requires Faithful() && Coloured(stack)
      requires forall s :: s in stack ==> Below(env, s, name)
      modifies this
      ensures Faithful() && old(visited) <= visited
      ensures forall n :: n in old(created) ==> n in created && created[n] == old(created)[n]
      ensures res.Ok? ==> Coloured(stack) && Denotes(env, name, res.value) && Assembled(env, name, res.value)
      ensures res.Err? ==> Explains(env, name, res.error)
      decreases env.configs.Keys - visited
    {
      hide Denotes, Assembled, Below, OnCycle, Reachable, Explains, PartsDenoted, NameGraph, DenoteParts, Denote;
      if name in created {
        DenotesAssembled(env, name, created[name]);
        return Ok(created[name]);
      }
      NameExplains(env, name);
      if name in visited { return Err(Loop(name)); }
      visited := visited + {name};
      if name !in env.configs { return Err(NotConfigured(name)); }
      var c := env.configs[name];
      var router;
      match c {
        case UnknownType =>
          return Err(BadType(name));
        case LeafConfig(l) =>
          if !Buildable(env, l) { return Err(BadLeaf(name)); }
          router := LeafRouter(l);
          LeafDenotes(env, name);
        case _ =>
          var children := c.routers;
          var parts := [];
          NoPartsDenoted(env, c);
          for i := 0 to |children|
            invariant Faithful() && Coloured(stack + {name}) && old(visited) + {name} <= visited
            invariant forall n :: n in old(created) ==> n in created && created[n] == old(created)[n]
            invariant PartsDenoted(env, c, children[..i], parts)
          {
            var child := children[i].name;
            ChildIsLinked(env, name, i);
            forall s | s in stack ensures Below(env, s, child) {
              BelowTrans(env, s, name, child);
            }
            var built := Parse(child, stack + {name});
            if built.Err? {
              ChildErrorExplains(env, name, child, built.error);
              return built;
            }
            OneMorePart(env, c, children, i, parts, built.value);
            parts := parts + [MakePart(c, children[i], built.value)];
          }
          assert children[..|children|] == children;
          ComposedDenotes(env, name, parts);
          router := Compose(c, parts);
      }
      DenotesAssembled(env, name, router);
      created := created[name := router];
      res := Ok(router);
    }
  }

  // ---- Methods ----

  const METHOD_NAMES := ["provide", "find-peers", "find-providers", "get-ipns", "put-ipns"]

  datatype Composer = Composer(putValue: Option<Router>, getValue: Option<Router>, findPeers: Option<Router>,
                               findProviders: Option<Router>, provide: Option<Router>)

  // The composer with the router of one method set.
  function WithRouter(c: Composer, mn: string, r: Router): Composer {
    match mn
    case "put-ipns" => c.(putValue := Some(r))
    case "get-ipns" => c.(getValue := Some(r))
    case "find-peers" => c.(findPeers := Some(r))
    case "find-providers" => c.(findProviders := Some(r))
    case "provide" => c.(provide := Some(r))
    case _ => c
  }

  lemma WithRouterSetsOne(c: Composer, mn: string, r: Router, other: string)
    ensures RouterFor(WithRouter(c, mn, r), other)
            == if other == mn && mn in METHOD_NAMES then Some(r) else RouterFor(c, other)
  {
    assert mn in METHOD_NAMES <==> mn in {"provide", "find-peers", "find-providers", "get-ipns", "put-ipns"};
  }

  // The router a composer uses for a method.
  function RouterFor(c: Composer, mn: string): Option<Router> {
    match mn
    case "put-ipns" => c.putValue
    case "get-ipns" => c.getValue
    case "find-peers" => c.findPeers
    case "find-providers" => c.findProviders
    case "provide" => c.provide
    case _ => None
  }

  method Check(methods: map<string, string>) returns (ok: bool)
    ensures ok <==> forall mn :: mn in methods <==> mn in METHOD_NAMES
  {
    for i := 0 to |METHOD_NAMES|
      invariant forall k :: 0 <= k < i ==> METHOD_NAMES[k] in methods
    {
      if METHOD_NAMES[i] !in methods { return false; }
    }
    var todo := methods.Keys;
    while todo != {}
      invariant todo <= methods.Keys
      invariant forall mn :: mn in methods && mn !in todo ==> mn in METHOD_NAMES
    {
      var k :| k in todo;
      todo := todo - {k};
      var seen := false;
      for i := 0 to |METHOD_NAMES|
        invariant seen ==> k in METHOD_NAMES
        invariant !seen ==> k !in METHOD_NAMES[..i]
      {
        if METHOD_NAMES[i] == k { seen := true; break; }
      }
      if !seen { return false; }
    }
    ok := true;
  }

  // The method's field holds the router configured for it.
  ghost predicate Uses(env: Env, methods: map<string, string>, mn: string, r: Option<Router>) {
    mn in methods && r.Some? && Denotes(env, methods[mn], r.value) && Assembled(env, methods[mn], r.value)
  }

  lemma EveryMethod(env: Env, methods: map<string, string>, c: Composer)
    requires forall mn :: mn in METHOD_NAMES ==> Uses(env, methods, mn, RouterFor(c, mn))
    ensures Uses(env, methods, "put-ipns", c.putValue) && Uses(env, methods, "get-ipns", c.getValue)
    ensures Uses(env, methods, "find-peers", c.findPeers) && Uses(env, methods, "find-providers", c.findProviders)
    ensures Uses(env, methods, "provide", c.provide)
  {
    hide Uses;
    assert forall i :: 0 <= i < |METHOD_NAMES| ==> METHOD_NAMES[i] in METHOD_NAMES && Uses(env, methods, METHOD_NAMES[i], RouterFor(c, METHOD_NAMES[i]));
    assert METHOD_NAMES[0] == "provide" && METHOD_NAMES[1] == "find-peers" && METHOD_NAMES[2] == "find-providers";
    assert METHOD_NAMES[3] == "get-ipns" && METHOD_NAMES[4] == "put-ipns";
    assert RouterFor(c, "provide") == c.provide && RouterFor(c, "find-peers") == c.findPeers;
    assert RouterFor(c, "find-providers") == c.findProviders;
    assert RouterFor(c, "get-ipns") == c.getValue && RouterFor(c, "put-ipns") == c.putValue;
  }

  // Methods are handled in any order; the created routers are shared.
  method Parse(env: Env, methods: map<string, string>) returns (res: Result<Composer>)
    ensures res.Ok? <==>
              && (forall mn :: mn in methods <==> mn in METHOD_NAMES)
              && (forall mn :: mn in methods ==> Sound(env, methods[mn]))
    ensures res.Ok? ==>
              && Uses(env, methods, "put-ipns", res.value.putValue)
              && Uses(env, methods, "get-ipns", res.value.getValue)
              && Uses(env, methods, "find-peers", res.value.findPeers)
              && Uses(env, methods, "find-providers", res.value.findProviders)
              && Uses(env, methods, "provide", res.value.provide)
    ensures res.Err? && !res.error.BadMethods? ==> exists mn :: mn in methods && Explains(env, methods[mn], res.error)
  {
    hide Denotes, Assembled, Sound, Explains, Meaningful, NameGraph, RouterFor, WithRouter;
    var ok := Check(methods);
    if !ok { return Err(BadMethods); }
    var builder := new Builder(env);
    var final := Composer(None, None, None, None, None);
    var todo := methods.Keys;
    while todo != {}
      invariant todo <= methods.Keys && builder.env == env && builder.Faithful()
      invariant forall mn :: mn in methods && mn !in todo ==> Uses(env, methods, mn, RouterFor(final, mn))
      invariant forall mn :: mn in methods && mn !in todo ==> Sound(env, methods[mn])
    {
      var mn :| mn in todo;
      todo := todo - {mn};
      builder.visited := {};
      var router := builder.Parse(methods[mn], {});
      if router.Err? {
        ExplainedIsUnsound(env, methods[mn], router.error);
        return Err(router.error);
      }
      DenotedIsSound(env, methods[mn], router.value);
      forall other | other in methods && other !in todo
        ensures Uses(env, methods, other, RouterFor(WithRouter(final, mn, router.value), other))
      {
        WithRouterSetsOne(final, mn, router.value, other);
      }
      final := WithRouter(final, mn, router.value);
    }
    EveryMethod(env, methods, final);
    res := Ok(final);
  }
}
