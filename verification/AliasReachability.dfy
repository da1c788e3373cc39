/** The two reachability rules: does a written type lead to `unknown`, or to `object`? */
module AliasReachability {
  import opened TypeAliases

  /** A type alias declaration at the top of a program. */
  datatype Declaration = Declaration(name: string, generic: bool, body: Type)

  /** What a rule looks for, the references it looks inside, the aliases it may follow, and the names it may not. */
  datatype Rule = Rule(target: Type, awaited: set<string>, aliases: map<string, Type>, shadowed: set<string>)

  // ---- the alias maps ----

  /** The map the `unknown` rule fills: every alias, the last declaration of a name. */
  function AllAliases(decls: seq<Declaration>): map<string, Declaration> {
    if decls == [] then map[]
    else
      var last := decls[|decls| - 1];
      AllAliases(decls[..|decls| - 1])[last.name := last]
  }

  method CollectAliases(decls: seq<Declaration>) returns (aliases: map<string, Declaration>)
    ensures aliases == AllAliases(decls)
  {
    aliases := map[];
    for i := 0 to |decls|
      invariant aliases == AllAliases(decls[..i])
    {
      assert decls[..i + 1][..i] == decls[..i];
      aliases := aliases[decls[i].name := decls[i]];
    }
    assert decls[..|decls|] == decls;
  }

  /** The map the `object` rule fills: the last non-generic declaration of a name. */
  function PlainAliases(decls: seq<Declaration>): map<string, Type> {
    if decls == [] then map[]
    else
      var last := decls[|decls| - 1];
      var before := PlainAliases(decls[..|decls| - 1]);
      if last.generic then before else before[last.name := last.body]
  }

  method CollectPlainAliases(decls: seq<Declaration>) returns (aliases: map<string, Type>)
    ensures aliases == PlainAliases(decls)
  {
    aliases := map[];
    for i := 0 to |decls|
      invariant aliases == PlainAliases(decls[..i])
    {
      assert decls[..i + 1][..i] == decls[..i];
      if !decls[i].generic { aliases := aliases[decls[i].name := decls[i].body]; }
    }
    assert decls[..|decls|] == decls;
  }

  function Followable(aliases: map<string, Declaration>): map<string, Type> {
    map name | name in aliases && !aliases[name].generic :: aliases[name].body
  }

  function UnknownRule(decls: seq<Declaration>, shadowed: set<string>): Rule {
    Rule(Unknown, {"Promise", "PromiseLike"}, Followable(AllAliases(decls)), shadowed)
  }

  function ObjectRule(decls: seq<Declaration>, shadowed: set<string>): Rule {
    Rule(Object, {}, PlainAliases(decls), shadowed)
  }

  /** `j` is the last declaration of `name`, among the non-generic ones if `plain`. */
  predicate LastOf(decls: seq<Declaration>, name: string, plain: bool, j: int) {
    && 0 <= j < |decls| && decls[j].name == name && (plain ==> !decls[j].generic)
    && forall k :: j < k < |decls| && decls[k].name == name ==> plain && decls[k].generic
  }

  lemma {:induction false} LastIsMapped(decls: seq<Declaration>, name: string, plain: bool, j: int)
    requires LastOf(decls, name, plain, j)
    ensures !plain ==> name in AllAliases(decls) && AllAliases(decls)[name] == decls[j]
    ensures plain ==> name in PlainAliases(decls) && PlainAliases(decls)[name] == decls[j].body
  {
    var n, init := |decls| - 1, decls[..|decls| - 1];
    if j < n {
      assert init[j] == decls[j] && forall k :: 0 <= k < n ==> init[k] == decls[k];
      LastIsMapped(init, name, plain, j);
    }
  }

  lemma {:induction false} MappedHasLast(decls: seq<Declaration>, name: string, plain: bool) returns (j: int)
    requires if plain then name in PlainAliases(decls) else name in AllAliases(decls)
    ensures LastOf(decls, name, plain, j)
  {
    var n, init := |decls| - 1, decls[..|decls| - 1];
    j := n;
    if decls[n].name != name || (plain && decls[n].generic) {
      j := MappedHasLast(init, name, plain);
      assert forall k :: 0 <= k < n ==> init[k] == decls[k];
    }
  }

  /** The two maps part ways on a generic redeclaration: it hides an alias from the one rule and not from the other. */
  lemma AliasMaps(decls: seq<Declaration>, name: string, t: Type)
    ensures name in UnknownRule(decls, {}).aliases && UnknownRule(decls, {}).aliases[name] == t <==>
            exists j :: LastOf(decls, name, false, j) && !decls[j].generic && decls[j].body == t
    ensures name in ObjectRule(decls, {}).aliases && ObjectRule(decls, {}).aliases[name] == t <==>
            exists j :: LastOf(decls, name, true, j) && decls[j].body == t
  {
    if name in AllAliases(decls) {
      var j := MappedHasLast(decls, name, false);
      LastIsMapped(decls, name, false, j);
    }
    if name in PlainAliases(decls) {
      var j := MappedHasLast(decls, name, true);
      LastIsMapped(decls, name, true, j);
    }
    forall j | LastOf(decls, name, false, j) ensures name in AllAliases(decls) && AllAliases(decls)[name] == decls[j] {
      LastIsMapped(decls, name, false, j);
    }
    forall j | LastOf(decls, name, true, j)
      ensures name in PlainAliases(decls) && PlainAliases(decls)[name] == decls[j].body
    {
      LastIsMapped(decls, name, true, j);
    }
  }

  // ---- the search ----

  function Resolves(rule: Rule, t: Type, visited: set<string>): bool
    decreases |rule.aliases.Keys - visited|, t, 1
  {
    if t == rule.target then true
    else
      match t
      case Parenthesized(inner) => Resolves(rule, inner, visited)
      case Union(types) => ResolvesSome(rule, types, visited)
      case Reference(name, args) =>
        if name in rule.awaited then args != [] && Resolves(rule, args[0], visited)
        else if args != [] || name in visited || name in rule.shadowed || name !in rule.aliases then false
        else
          Fewer(rule.aliases.Keys, visited, name);
          Resolves(rule, rule.aliases[name], visited + {name})
      case _ => false
  }

  function ResolvesSome(rule: Rule, types: seq<Type>, visited: set<string>): (r: bool)
    ensures r <==> exists i :: 0 <= i < |types| && Resolves(rule, types[i], visited)
    decreases |rule.aliases.Keys - visited|, types, 0
  {
    if types == [] then false
    else
      var rest := ResolvesSome(rule, types[1..], visited);
      assert rest ==> exists i :: 1 <= i < |types| && Resolves(rule, types[i], visited) by {
        if rest {
          var i :| 0 <= i < |types[1..]| && Resolves(rule, types[1..][i], visited);
          assert Resolves(rule, types[i + 1], visited);
        }
      }
      assert forall i :: 1 <= i < |types| ==> types[i] == types[1..][i - 1];
      Resolves(rule, types[0], visited) || rest
  }

  function ResolvesToUnknown(decls: seq<Declaration>, t: Type, shadowed: set<string>): bool {
    Resolves(UnknownRule(decls, shadowed), t, {})
  }

  function ResolvesToObject(decls: seq<Declaration>, t: Type, shadowed: set<string>): bool {
    Resolves(ObjectRule(decls, shadowed), t, {})
  }

  // ---- reachability ----

  /** One step a rule may take from a written type. */
  predicate Step(rule: Rule, t: Type, u: Type) {
    match t
    case Parenthesized(inner) => u == inner
    case Union(types) => u in types
    case Reference(name, args) =>
      if name in rule.awaited then args != [] && u == args[0]
      else args == [] && name !in rule.shadowed && name in rule.aliases && u == rule.aliases[name]
    case _ => false
  }

  predicate Path(rule: Rule, path: seq<Type>) {
    |path| > 0 && forall i :: 0 <= i < |path| - 1 ==> Step(rule, path[i], path[i + 1])
  }

  /** Some path leads from the type to the target. */
  ghost predicate Reachable(rule: Rule, t: Type) {
    exists path :: Path(rule, path) && path[0] == t && path[|path| - 1] == rule.target
  }

  /** By a path of at most `n` types. */
  ghost predicate ReachIn(rule: Rule, t: Type, n: nat)
    decreases n
  {
    n > 0 && (t == rule.target || exists u :: Step(rule, t, u) && ReachIn(rule, u, n - 1))
  }

  lemma {:induction false} PathReaches(rule: Rule, path: seq<Type>)
    requires Path(rule, path) && path[|path| - 1] == rule.target
    ensures ReachIn(rule, path[0], |path|)
    decreases |path|
  {
    if |path| > 1 {
      assert Path(rule, path[1..]) by { assert forall i :: 0 <= i < |path| - 1 ==> path[1..][i] == path[i + 1]; }
      PathReaches(rule, path[1..]);
      assert Step(rule, path[0], path[1]) && ReachIn(rule, path[1], |path| - 1);
    }
  }

  lemma {:induction false} ReachHasPath(rule: Rule, t: Type, n: nat) returns (path: seq<Type>)
    requires ReachIn(rule, t, n)
    ensures Path(rule, path) && path[0] == t && path[|path| - 1] == rule.target
    decreases n
  {
    path := [t];
    if t != rule.target {
      var u :| Step(rule, t, u) && ReachIn(rule, u, n - 1);
      var rest := ReachHasPath(rule, u, n - 1);
      path := [t] + rest;
    }
  }

  lemma {:induction false} ReachMore(rule: Rule, t: Type, n: nat, m: nat)
    requires ReachIn(rule, t, n) && n <= m
    ensures ReachIn(rule, t, m)
    decreases n
  {
    if t != rule.target {
      var u :| Step(rule, t, u) && ReachIn(rule, u, n - 1);
      ReachMore(rule, u, n - 1, m - 1);
    }
  }

  /** No visited alias is this close to the target. */
  ghost predicate NoneNear(rule: Rule, visited: set<string>, n: nat) {
    forall a :: a in visited && a in rule.aliases ==> !ReachIn(rule, rule.aliases[a], n)
  }

  lemma NoneNearer(rule: Rule, visited: set<string>, n: nat, m: nat)
    requires NoneNear(rule, visited, n) && m <= n
    ensures NoneNear(rule, visited, m)
  {
    forall a | a in visited && a in rule.aliases ensures !ReachIn(rule, rule.aliases[a], m) {
      if ReachIn(rule, rule.aliases[a], m) { ReachMore(rule, rule.aliases[a], m, n); }
    }
  }

  lemma Nearest(rule: Rule, t: Type, n: nat) returns (m: nat)
    requires ReachIn(rule, t, n)
    ensures 0 < m <= n && ReachIn(rule, t, m) && !ReachIn(rule, t, m - 1)
  {
    m := n;
    while ReachIn(rule, t, m - 1)
      invariant 0 < m <= n && ReachIn(rule, t, m)
      decreases m
    {
      m := m - 1;
    }
  }

  lemma NoReach(rule: Rule, t: Type)
    ensures !ReachIn(rule, t, 0)
  {
  }

  /** Following a shortest path, the search never meets an alias it is already in. */
  lemma {:induction false} Finds(rule: Rule, t: Type, n: nat, visited: set<string>)
    requires ReachIn(rule, t, n) && n > 0 && NoneNear(rule, visited, n - 1)
    ensures Resolves(rule, t, visited)
    decreases n
  {
    if t != rule.target {
      var u :| Step(rule, t, u) && ReachIn(rule, u, n - 1);
      hide ReachIn, NoneNear;
      NoReach(rule, u);
      if t.Reference? && t.name !in rule.awaited {
        var m := Nearest(rule, u, n - 1);
        NotVisited(rule, visited, t.name, n - 1);
        NoneNearNext(rule, visited, n - 1, m - 1, t.name);
        Finds(rule, u, m, visited + {t.name});
      } else {
        NoneNearer(rule, visited, n - 1, n - 2);
        Finds(rule, u, n - 1, visited);
      }
    }
  }

  lemma NotVisited(rule: Rule, visited: set<string>, name: string, n: nat)
    requires NoneNear(rule, visited, n) && name in rule.aliases && ReachIn(rule, rule.aliases[name], n)
    ensures name !in visited
  {
  }

  lemma NoneNearNext(rule: Rule, visited: set<string>, n: nat, m: nat, name: string)
    requires NoneNear(rule, visited, n) && m <= n && name in rule.aliases && !ReachIn(rule, rule.aliases[name], m)
    ensures NoneNear(rule, visited + {name}, m)
  {
    hide ReachIn;
    NoneNearer(rule, visited, n, m);
  }

  lemma {:induction false} Sound(rule: Rule, t: Type, visited: set<string>) returns (n: nat)
    requires Resolves(rule, t, visited)
    ensures ReachIn(rule, t, n)
    decreases |rule.aliases.Keys - visited|, t
  {
    n := 1;
    if t != rule.target {
      var u, m := t, 0;
      if t.Union? {
        var i :| 0 <= i < |t.types| && Resolves(rule, t.types[i], visited);
        u := t.types[i];
        m := Sound(rule, u, visited);
      } else if t.Parenthesized? {
        u := t.inner;
        m := Sound(rule, u, visited);
      } else if t.name in rule.awaited {
        u := t.args[0];
        m := Sound(rule, u, visited);
      } else {
        u := rule.aliases[t.name];
        Fewer(rule.aliases.Keys, visited, t.name);
        m := Sound(rule, u, visited + {t.name});
      }
      n := m + 1;
      assert Step(rule, t, u) && ReachIn(rule, u, m);
    }
  }

  /** The search answers exactly reachability, on every alias map, cyclic ones included. */
  lemma ResolvesIsReachable(rule: Rule, t: Type)
    ensures Resolves(rule, t, {}) <==> Reachable(rule, t)
  {
    if Resolves(rule, t, {}) {
      var n := Sound(rule, t, {});
      var path := ReachHasPath(rule, t, n);
    }
    if Reachable(rule, t) {
      var path :| Path(rule, path) && path[0] == t && path[|path| - 1] == rule.target;
      PathReaches(rule, path);
      Finds(rule, t, |path|, {});
    }
  }

  lemma UnknownAndObject(decls: seq<Declaration>, t: Type, shadowed: set<string>)
    ensures ResolvesToUnknown(decls, t, shadowed) <==> Reachable(UnknownRule(decls, shadowed), t)
    ensures ResolvesToObject(decls, t, shadowed) <==> Reachable(ObjectRule(decls, shadowed), t)
  {
    ResolvesIsReachable(UnknownRule(decls, shadowed), t);
    ResolvesIsReachable(ObjectRule(decls, shadowed), t);
  }

  // ---- what the two rules say of a type, node by node ----

  lemma ReachableStep(rule: Rule, t: Type)
    ensures Reachable(rule, t) <==> t == rule.target || exists u :: Step(rule, t, u) && Reachable(rule, u)
  {
    hide Step;
    if Reachable(rule, t) && t != rule.target {
      var path :| Path(rule, path) && path[0] == t && path[|path| - 1] == rule.target;
      assert forall i :: 0 <= i < |path| - 1 ==> path[1..][i] == path[i + 1];
      assert Path(rule, path[1..]) && Step(rule, t, path[1]) && path[1..][0] == path[1];
    }
    if u :| Step(rule, t, u) && Reachable(rule, u) {
      var path :| Path(rule, path) && path[0] == u && path[|path| - 1] == rule.target;
      assert Path(rule, [t] + path);
    }
    if t == rule.target { assert Path(rule, [t]) && [t][0] == t; }
  }

  /** Whether an alias may be followed, and where to, by its declarations. */
  lemma AliasBodies(decls: seq<Declaration>, name: string)
    ensures name in Followable(AllAliases(decls)) <==> exists j :: LastOf(decls, name, false, j) && !decls[j].generic
    ensures forall j :: LastOf(decls, name, false, j) && !decls[j].generic ==>
              name in Followable(AllAliases(decls)) && Followable(AllAliases(decls))[name] == decls[j].body
    ensures name in PlainAliases(decls) <==> exists j :: LastOf(decls, name, true, j)
    ensures forall j :: LastOf(decls, name, true, j) ==>
              name in PlainAliases(decls) && PlainAliases(decls)[name] == decls[j].body
  {
    if name in Followable(AllAliases(decls)) { AliasMaps(decls, name, Followable(AllAliases(decls))[name]); }
    if name in PlainAliases(decls) { AliasMaps(decls, name, PlainAliases(decls)[name]); }
    forall j | LastOf(decls, name, false, j) ensures name in AllAliases(decls) && AllAliases(decls)[name] == decls[j] {
      LastIsMapped(decls, name, false, j);
    }
    forall j | LastOf(decls, name, true, j)
      ensures name in PlainAliases(decls) && PlainAliases(decls)[name] == decls[j].body
    {
      LastIsMapped(decls, name, true, j);
    }
  }

  /** `unknown` itself, or what parentheses, a union, a promise or a followed alias leads to; an alias may be followed
      where it is used bare and its last declaration is not generic. */
  lemma UnknownByNode(decls: seq<Declaration>, t: Type, shadowed: set<string>)
    ensures ResolvesToUnknown(decls, t, shadowed) <==>
            match t
            case Unknown => true
            case Parenthesized(inner) => ResolvesToUnknown(decls, inner, shadowed)
            case Union(types) => exists i :: 0 <= i < |types| && ResolvesToUnknown(decls, types[i], shadowed)
            case Reference(name, args) =>
              if name == "Promise" || name == "PromiseLike" then
                args != [] && ResolvesToUnknown(decls, args[0], shadowed)
              else
                && args == [] && name !in shadowed
                && exists j :: LastOf(decls, name, false, j) && !decls[j].generic
                               && ResolvesToUnknown(decls, decls[j].body, shadowed)
            case _ => false
  {
    hide Reachable, Resolves, LastOf, AllAliases, Followable;
    var rule := UnknownRule(decls, shadowed);
    forall u ensures ResolvesToUnknown(decls, u, shadowed) <==> Reachable(rule, u) { ResolvesIsReachable(rule, u); }
    ReachableStep(rule, t);
    if t.Reference? { AliasBodies(decls, t.name); }
  }

  /** `object` itself, or what parentheses, a union or a followed alias leads to; an alias may be followed where it is
      used bare and some declaration of it is not generic. */
  lemma ObjectByNode(decls: seq<Declaration>, t: Type, shadowed: set<string>)
    ensures ResolvesToObject(decls, t, shadowed) <==>
            match t
            case Object => true
            case Parenthesized(inner) => ResolvesToObject(decls, inner, shadowed)
            case Union(types) => exists i :: 0 <= i < |types| && ResolvesToObject(decls, types[i], shadowed)
            case Reference(name, args) =>
              && args == [] && name !in shadowed
              && exists j :: LastOf(decls, name, true, j) && ResolvesToObject(decls, decls[j].body, shadowed)
            case _ => false
  {
    hide Reachable, Resolves, LastOf, PlainAliases;
    var rule := ObjectRule(decls, shadowed);
    forall u ensures ResolvesToObject(decls, u, shadowed) <==> Reachable(rule, u) { ResolvesIsReachable(rule, u); }
    ReachableStep(rule, t);
    if t.Reference? { AliasBodies(decls, t.name); }
  }
}
