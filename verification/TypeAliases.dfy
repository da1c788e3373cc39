/** The type resolvers of the lint rules: searches through aliases that may refer to each other in cycles. */
module TypeAliases {
  import opened Options

  /** The type nodes the rules look at; everything else is `Other`. */
  datatype Type =
    | Unknown
    | Any
    | Object
    | Never
    | Literal(members: seq<Member>)
    | Union(types: seq<Type>)
    | Intersection(types: seq<Type>)
    | Reference(name: string, args: seq<Type>)
    | Parenthesized(inner: Type)
    | Readonly(inner: Type)
    | Other

  datatype Member = Property(optional: bool, annotation: Option<Type>) | OtherMember

  // ---- dictionary-types.ts ----

  datatype Interface = Interface(extendsSomething: bool, body: seq<Member>)

  /** `aliases` are the non-generic ones, by their bodies. */
  datatype Environment = Environment(
    aliases: map<string, Type>,
    interfaces: map<string, seq<Interface>>,
    shadowedBuiltIns: set<string>)

  const TRANSPARENT_WRAPPERS := {"Readonly", "Partial", "Required", "NonNullable"}

  datatype Label = LUnknown | LAny | LObject | LEmptyObject | LUnion

  function Unwrapped(t: Type): (u: Type)
    ensures u == t || u < t
    ensures !u.Parenthesized? && !u.Readonly?
  {
    if t.Parenthesized? || t.Readonly? then Unwrapped(t.inner) else t
  }

  method UnwrapTransparentType(t: Type) returns (current: Type)
    ensures current == Unwrapped(t)
  {
    current := t;
    while current.Parenthesized? || current.Readonly?
      invariant Unwrapped(current) == Unwrapped(t)
      decreases current
    {
      current := current.inner;
    }
  }

  predicate IsNeverType(t: Type) { Unwrapped(t).Never? }

  predicate IsEffectivelyEmptyMember(m: Member) {
    m.Property? && m.optional && m.annotation.Some? && IsNeverType(m.annotation.value)
  }

  predicate AllEmpty(members: seq<Member>) { forall i :: 0 <= i < |members| ==> IsEffectivelyEmptyMember(members[i]) }

  predicate IsEffectivelyEmptyInterface(declarations: seq<Interface>) {
    |declarations| == 1 && !declarations[0].extendsSomething && AllEmpty(declarations[0].body)
  }

  predicate IsTransparentWrapper(env: Environment, name: string) {
    name in TRANSPARENT_WRAPPERS && name !in env.shadowedBuiltIns
  }

  /** The search: aliases being resolved are remembered along the path, and a revisited one answers null. */
  function UnsafeDirectValue(env: Environment, t: Type, resolving: set<string>): Option<Label>
    decreases |env.aliases.Keys - resolving|, t, 1
  {
    var u := Unwrapped(t);
    match u
    case Unknown => Some(LUnknown)
    case Any => Some(LAny)
    case Object => Some(LObject)
    case Literal(members) => if AllEmpty(members) then Some(LEmptyObject) else None
    case Union(types) =>
      var values := UnsafeDirectValues(env, types, resolving);
      if exists i :: 0 <= i < |values| && values[i].Some? then Some(LUnion) else None
    case Intersection(types) =>
      var values := UnsafeDirectValues(env, types, resolving);
      if Some(LAny) in values then Some(LAny)
      else if |values| > 0 && (forall i :: 0 <= i < |values| ==> values[i].Some?) then values[0]
      else None
    case Reference(name, args) =>
      if IsTransparentWrapper(env, name) then if args == [] then None else UnsafeDirectValue(env, args[0], resolving)
      else if name in env.interfaces then
        if IsEffectivelyEmptyInterface(env.interfaces[name]) then Some(LEmptyObject) else None
      else if name !in env.aliases || name in resolving then None
      else
        Fewer(env.aliases.Keys, resolving, name);
        UnsafeDirectValue(env, env.aliases[name], resolving + {name})
    case _ => None
  }

  function UnsafeDirectValues(env: Environment, types: seq<Type>, resolving: set<string>): (values: seq<Option<Label>>)
    ensures |values| == |types|
    ensures forall i :: 0 <= i < |types| ==> values[i] == UnsafeDirectValue(env, types[i], resolving)
    decreases |env.aliases.Keys - resolving|, types, 0
  {
    if types == [] then []
    else [UnsafeDirectValue(env, types[0], resolving)] + UnsafeDirectValues(env, types[1..], resolving)
  }

  lemma Fewer(keys: set<string>, resolving: set<string>, name: string)
    requires name in keys && name !in resolving
    ensures |keys - (resolving + {name})| < |keys - resolving|
  {
    assert keys - resolving == (keys - (resolving + {name})) + {name};
  }

  /** What the rule reports for a value type. */
  function Classified(env: Environment, t: Type): Option<Label> { UnsafeDirectValue(env, t, {}) }

  // ---- the and/or system the search must solve ----

  /** One application of the rules for "labelled any", given what is known of other types. */
  ghost predicate AnyRule(env: Environment, t: Type, isAny: Type -> bool) {
    var u := Unwrapped(t);
    match u
    case Any => true
    case Intersection(types) => exists i :: 0 <= i < |types| && isAny(types[i])
    case Reference(name, args) =>
      if IsTransparentWrapper(env, name) then args != [] && isAny(args[0])
      else name !in env.interfaces && name in env.aliases && isAny(env.aliases[name])
    case _ => false
  }

  /** One application of the rules for "unsafe". */
  ghost predicate UnsafeRule(env: Environment, t: Type, isAny: Type -> bool, isUnsafe: Type -> bool) {
    var u := Unwrapped(t);
    match u
    case Unknown => true
    case Any => true
    case Object => true
    case Literal(members) => AllEmpty(members)
    case Union(types) => exists i :: 0 <= i < |types| && isUnsafe(types[i])
    case Intersection(types) =>
      || (exists i :: 0 <= i < |types| && isAny(types[i]))
      || (|types| > 0 && forall i :: 0 <= i < |types| ==> isUnsafe(types[i]))
    case Reference(name, args) =>
      if IsTransparentWrapper(env, name) then args != [] && isUnsafe(args[0])
      else if name in env.interfaces then IsEffectivelyEmptyInterface(env.interfaces[name])
      else name in env.aliases && isUnsafe(env.aliases[name])
    case _ => false
  }

  /** Labelled any by a derivation of at most `n` levels. */
  ghost predicate AnyIn(env: Environment, t: Type, n: nat)
    decreases n
  {
    n > 0 && AnyRule(env, t, u => AnyIn(env, u, n - 1))
  }

  ghost predicate UnsafeIn(env: Environment, t: Type, n: nat)
    decreases n
  {
    n > 0 && UnsafeRule(env, t, u => AnyIn(env, u, n - 1), u => UnsafeIn(env, u, n - 1))
  }

  /** The least solution: derivable in finitely many levels. */
  ghost predicate IsAny(env: Environment, t: Type) { exists n: nat :: AnyIn(env, t, n) }

  ghost predicate IsUnsafe(env: Environment, t: Type) { exists n: nat :: UnsafeIn(env, t, n) }

  /** The rules are monotone in what is known of other types. */
  lemma RulesMonotone(env: Environment, t: Type, any: Type -> bool, unsafe: Type -> bool,
                      any': Type -> bool, unsafe': Type -> bool)
    requires forall u :: any(u) ==> any'(u)
    requires forall u :: unsafe(u) ==> unsafe'(u)
    ensures AnyRule(env, t, any) ==> AnyRule(env, t, any')
    ensures UnsafeRule(env, t, any, unsafe) ==> UnsafeRule(env, t, any', unsafe')
  {
  }

  /** One level of a derivation, read off the outermost node. */
  lemma AnyLevel(env: Environment, t: Type, n: nat)
    requires n > 0
    ensures var u := Unwrapped(t);
            && (u.Any? ==> AnyIn(env, t, n))
            && (u.Intersection? ==>
                  (AnyIn(env, t, n) <==> exists i :: 0 <= i < |u.types| && AnyIn(env, u.types[i], n - 1)))
            && (u.Reference? ==>
                  (AnyIn(env, t, n) <==>
                   if IsTransparentWrapper(env, u.name) then u.args != [] && AnyIn(env, u.args[0], n - 1)
                   else u.name !in env.interfaces && u.name in env.aliases && AnyIn(env, env.aliases[u.name], n - 1)))
            && (!u.Any? && !u.Intersection? && !u.Reference? ==> !AnyIn(env, t, n))
  {
  }

  predicate UnsafeLeaf(u: Type) { u.Unknown? || u.Any? || u.Object? || (u.Literal? && AllEmpty(u.members)) }

  lemma UnsafeLevel(env: Environment, t: Type, n: nat)
    requires n > 0
    ensures var u := Unwrapped(t);
            && (u.Union? ==>
                  (UnsafeIn(env, t, n) <==> exists i :: 0 <= i < |u.types| && UnsafeIn(env, u.types[i], n - 1)))
            && (u.Intersection? ==>
                  (UnsafeIn(env, t, n) <==>
                   || (exists i :: 0 <= i < |u.types| && AnyIn(env, u.types[i], n - 1))
                   || (|u.types| > 0 && forall i :: 0 <= i < |u.types| ==> UnsafeIn(env, u.types[i], n - 1))))
            && (u.Reference? ==>
                  (UnsafeIn(env, t, n) <==>
                   if IsTransparentWrapper(env, u.name) then u.args != [] && UnsafeIn(env, u.args[0], n - 1)
                   else if u.name in env.interfaces then IsEffectivelyEmptyInterface(env.interfaces[u.name])
                   else u.name in env.aliases && UnsafeIn(env, env.aliases[u.name], n - 1)))
            && (!u.Union? && !u.Intersection? && !u.Reference? ==> (UnsafeIn(env, t, n) <==> UnsafeLeaf(u)))
  {
  }

  lemma NoLevels(env: Environment, t: Type)
    ensures !AnyIn(env, t, 0) && !UnsafeIn(env, t, 0)
  {
  }

  lemma {:induction false} AnyMore(env: Environment, t: Type, n: nat, m: nat)
    requires AnyIn(env, t, n) && n <= m
    ensures AnyIn(env, t, m)
    decreases n
  {
    hide AnyIn;
    NoLevels(env, t);
    AnyLevel(env, t, n);
    AnyLevel(env, t, m);
    var u := Unwrapped(t);
    if u.Intersection? {
      var i :| 0 <= i < |u.types| && AnyIn(env, u.types[i], n - 1);
      AnyMore(env, u.types[i], n - 1, m - 1);
    } else if u.Reference? {
      AnyMore(env, if IsTransparentWrapper(env, u.name) then u.args[0] else env.aliases[u.name], n - 1, m - 1);
    }
  }

  lemma {:induction false} UnsafeMore(env: Environment, t: Type, n: nat, m: nat)
    requires UnsafeIn(env, t, n) && n <= m
    ensures UnsafeIn(env, t, m)
    decreases n
  {
    hide AnyIn, UnsafeIn;
    NoLevels(env, t);
    UnsafeLevel(env, t, n);
    UnsafeLevel(env, t, m);
    var u := Unwrapped(t);
    if u.Union? {
      var i :| 0 <= i < |u.types| && UnsafeIn(env, u.types[i], n - 1);
      UnsafeMore(env, u.types[i], n - 1, m - 1);
    } else if u.Intersection? {
      if i :| 0 <= i < |u.types| && AnyIn(env, u.types[i], n - 1) {
        AnyMore(env, u.types[i], n - 1, m - 1);
      } else {
        forall i | 0 <= i < |u.types| ensures UnsafeIn(env, u.types[i], m - 1) {
          UnsafeMore(env, u.types[i], n - 1, m - 1);
        }
      }
    } else if u.Reference? && (IsTransparentWrapper(env, u.name) || u.name !in env.interfaces) {
      UnsafeMore(env, if IsTransparentWrapper(env, u.name) then u.args[0] else env.aliases[u.name], n - 1, m - 1);
    }
  }

  lemma {:induction false} AnyIsUnsafe(env: Environment, t: Type, n: nat)
    requires AnyIn(env, t, n)
    ensures UnsafeIn(env, t, n)
    decreases n
  {
    hide AnyIn, UnsafeIn;
    NoLevels(env, t);
    AnyLevel(env, t, n);
    UnsafeLevel(env, t, n);
    var u := Unwrapped(t);
    if u.Reference? {
      AnyIsUnsafe(env, if IsTransparentWrapper(env, u.name) then u.args[0] else env.aliases[u.name], n - 1);
    }
  }

  predicate Found(env: Environment, types: seq<Type>, resolving: set<string>) {
    exists i :: 0 <= i < |types| && UnsafeDirectValue(env, types[i], resolving).Some?
  }

  predicate AllFound(env: Environment, types: seq<Type>, resolving: set<string>) {
    |types| > 0 && forall i :: 0 <= i < |types| ==> UnsafeDirectValue(env, types[i], resolving).Some?
  }

  predicate FoundAny(env: Environment, types: seq<Type>, resolving: set<string>) {
    exists i :: 0 <= i < |types| && UnsafeDirectValue(env, types[i], resolving) == Some(LAny)
  }

  lemma UnionLevel(env: Environment, t: Type, resolving: set<string>)
    requires Unwrapped(t).Union?
    ensures UnsafeDirectValue(env, t, resolving)
            == if Found(env, Unwrapped(t).types, resolving) then Some(LUnion) else None
  {
    var values := UnsafeDirectValues(env, Unwrapped(t).types, resolving);
    assert (exists i :: 0 <= i < |values| && values[i].Some?) <==> Found(env, Unwrapped(t).types, resolving);
  }

  lemma IntersectionLevel(env: Environment, t: Type, resolving: set<string>)
    requires Unwrapped(t).Intersection?
    ensures UnsafeDirectValue(env, t, resolving) == Some(LAny) <==> FoundAny(env, Unwrapped(t).types, resolving)
    ensures UnsafeDirectValue(env, t, resolving).Some?
            <==> FoundAny(env, Unwrapped(t).types, resolving) || AllFound(env, Unwrapped(t).types, resolving)
  {
    var values := UnsafeDirectValues(env, Unwrapped(t).types, resolving);
    assert Some(LAny) in values <==> FoundAny(env, Unwrapped(t).types, resolving);
  }

  lemma ReferenceLevel(env: Environment, t: Type, resolving: set<string>)
    requires Unwrapped(t).Reference?
    ensures var u := Unwrapped(t);
            UnsafeDirectValue(env, t, resolving) ==
            if IsTransparentWrapper(env, u.name) then
              if u.args == [] then None else UnsafeDirectValue(env, u.args[0], resolving)
            else if u.name in env.interfaces then
              if IsEffectivelyEmptyInterface(env.interfaces[u.name]) then Some(LEmptyObject) else None
            else if u.name !in env.aliases || u.name in resolving then None
            else UnsafeDirectValue(env, env.aliases[u.name], resolving + {u.name})
  {
  }

  lemma LeafLevel(env: Environment, t: Type, resolving: set<string>)
    requires var u := Unwrapped(t); !u.Union? && !u.Intersection? && !u.Reference?
    ensures UnsafeDirectValue(env, t, resolving).Some? <==> UnsafeLeaf(Unwrapped(t))
    ensures UnsafeDirectValue(env, t, resolving) == Some(LAny) <==> Unwrapped(t).Any?
  {
  }

  /** One level of the search, read off the outermost node. */
  lemma SearchLevel(env: Environment, t: Type, resolving: set<string>)
    ensures var u, r := Unwrapped(t), UnsafeDirectValue(env, t, resolving);
            && (u.Union? ==> r == if Found(env, u.types, resolving) then Some(LUnion) else None)
            && (u.Intersection? ==>
                  && (r == Some(LAny) <==> FoundAny(env, u.types, resolving))
                  && (r.Some? <==> FoundAny(env, u.types, resolving) || AllFound(env, u.types, resolving)))
            && (u.Reference? ==>
                  r == if IsTransparentWrapper(env, u.name) then
                         if u.args == [] then None else UnsafeDirectValue(env, u.args[0], resolving)
                       else if u.name in env.interfaces then
                         if IsEffectivelyEmptyInterface(env.interfaces[u.name]) then Some(LEmptyObject) else None
                       else if u.name !in env.aliases || u.name in resolving then None
                       else UnsafeDirectValue(env, env.aliases[u.name], resolving + {u.name}))
            && (!u.Union? && !u.Intersection? && !u.Reference? ==>
                  (r.Some? <==> UnsafeLeaf(u)) && (r == Some(LAny) <==> u.Any?))
  {
    hide UnsafeDirectValue, Found, FoundAny, AllFound;
    var u := Unwrapped(t);
    if u.Union? { UnionLevel(env, t, resolving); }
    else if u.Intersection? { IntersectionLevel(env, t, resolving); }
    else if u.Reference? { ReferenceLevel(env, t, resolving); }
    else { LeafLevel(env, t, resolving); }
  }

  // ---- cutting a revisited alias loses nothing ----

  /** No alias on the path has a derivation this short: the search is exploring a shortest one. */
  ghost predicate NoneAny(env: Environment, resolving: set<string>, n: nat) {
    forall a :: a in resolving && a in env.aliases ==> !AnyIn(env, env.aliases[a], n)
  }

  ghost predicate NoneUnsafe(env: Environment, resolving: set<string>, n: nat) {
    forall a :: a in resolving && a in env.aliases ==> !UnsafeIn(env, env.aliases[a], n)
  }

  lemma NoneAnyFewer(env: Environment, resolving: set<string>, n: nat, m: nat)
    requires NoneAny(env, resolving, n) && m <= n
    ensures NoneAny(env, resolving, m)
  {
    forall a | a in resolving && a in env.aliases ensures !AnyIn(env, env.aliases[a], m) {
      if AnyIn(env, env.aliases[a], m) { AnyMore(env, env.aliases[a], m, n); }
    }
  }

  lemma NoneUnsafeFewer(env: Environment, resolving: set<string>, n: nat, m: nat)
    requires NoneUnsafe(env, resolving, n) && m <= n
    ensures NoneUnsafe(env, resolving, m) && NoneAny(env, resolving, m)
  {
    forall a | a in resolving && a in env.aliases
      ensures !UnsafeIn(env, env.aliases[a], m) && !AnyIn(env, env.aliases[a], m)
    {
      if AnyIn(env, env.aliases[a], m) { AnyIsUnsafe(env, env.aliases[a], m); }
      if UnsafeIn(env, env.aliases[a], m) { UnsafeMore(env, env.aliases[a], m, n); }
    }
  }

  /** The shortest derivation. */
  lemma LeastAny(env: Environment, t: Type, n: nat) returns (m: nat)
    requires AnyIn(env, t, n)
    ensures 0 < m <= n && AnyIn(env, t, m) && !AnyIn(env, t, m - 1)
  {
    m := n;
    while AnyIn(env, t, m - 1)
      invariant 0 < m <= n && AnyIn(env, t, m)
      decreases m
    {
      m := m - 1;
    }
  }

  lemma LeastUnsafe(env: Environment, t: Type, n: nat) returns (m: nat)
    requires UnsafeIn(env, t, n)
    ensures 0 < m <= n && UnsafeIn(env, t, m) && !UnsafeIn(env, t, m - 1)
  {
    m := n;
    while UnsafeIn(env, t, m - 1)
      invariant 0 < m <= n && UnsafeIn(env, t, m)
      decreases m
    {
      m := m - 1;
    }
  }

  lemma {:induction false} AnyFound(env: Environment, t: Type, n: nat, resolving: set<string>)
    requires AnyIn(env, t, n) && n > 0 && NoneAny(env, resolving, n - 1)
    ensures UnsafeDirectValue(env, t, resolving) == Some(LAny)
    decreases n
  {
    hide AnyIn, UnsafeDirectValue, NoneAny;
    var u := Unwrapped(t);
    AnyLevel(env, t, n);
    SearchLevel(env, t, resolving);
    if u.Intersection? {
      var i :| 0 <= i < |u.types| && AnyIn(env, u.types[i], n - 1);
      NoLevels(env, u.types[i]);
      NoneAnyFewer(env, resolving, n - 1, n - 2);
      AnyFound(env, u.types[i], n - 1, resolving);
    } else if u.Reference? {
      if IsTransparentWrapper(env, u.name) {
        NoLevels(env, u.args[0]);
        NoneAnyFewer(env, resolving, n - 1, n - 2);
        AnyFound(env, u.args[0], n - 1, resolving);
      } else {
        var m := LeastAny(env, env.aliases[u.name], n - 1);
        NotOnPath(env, resolving, u.name, n - 1);
        NoneAnyNext(env, resolving, n - 1, m - 1, u.name);
        AnyFound(env, env.aliases[u.name], m, resolving + {u.name});
      }
    }
  }

  lemma NotOnPath(env: Environment, resolving: set<string>, name: string, n: nat)
    requires name in env.aliases
    ensures NoneAny(env, resolving, n) && AnyIn(env, env.aliases[name], n) ==> name !in resolving
    ensures NoneUnsafe(env, resolving, n) && UnsafeIn(env, env.aliases[name], n) ==> name !in resolving
  {
  }

  lemma NoneAnyNext(env: Environment, resolving: set<string>, n: nat, m: nat, name: string)
    requires NoneAny(env, resolving, n) && m <= n && name in env.aliases && !AnyIn(env, env.aliases[name], m)
    ensures NoneAny(env, resolving + {name}, m)
  {
    hide AnyIn;
    NoneAnyFewer(env, resolving, n, m);
  }

  lemma NoneUnsafeNext(env: Environment, resolving: set<string>, n: nat, m: nat, name: string)
    requires NoneUnsafe(env, resolving, n) && m <= n && name in env.aliases && !UnsafeIn(env, env.aliases[name], m)
    ensures NoneUnsafe(env, resolving + {name}, m)
  {
    hide UnsafeIn;
    NoneUnsafeFewer(env, resolving, n, m);
  }

  lemma {:induction false} UnsafeFound(env: Environment, t: Type, n: nat, resolving: set<string>)
    requires UnsafeIn(env, t, n) && n > 0 && NoneUnsafe(env, resolving, n - 1)
    ensures UnsafeDirectValue(env, t, resolving).Some?
    decreases n
  {
    hide AnyIn, UnsafeIn, UnsafeDirectValue, NoneAny, NoneUnsafe;
    var u := Unwrapped(t);
    UnsafeLevel(env, t, n);
    SearchLevel(env, t, resolving);
    if n > 1 { NoneUnsafeFewer(env, resolving, n - 1, n - 2); }
    if u.Union? {
      var i :| 0 <= i < |u.types| && UnsafeIn(env, u.types[i], n - 1);
      NoLevels(env, u.types[i]);
      UnsafeFound(env, u.types[i], n - 1, resolving);
    } else if u.Intersection? {
      NoLevels(env, u.types[0]);
      if i :| 0 <= i < |u.types| && AnyIn(env, u.types[i], n - 1) {
        NoLevels(env, u.types[i]);
        AnyFound(env, u.types[i], n - 1, resolving);
      } else {
        forall i | 0 <= i < |u.types| ensures UnsafeDirectValue(env, u.types[i], resolving).Some? {
          NoLevels(env, u.types[i]);
          UnsafeFound(env, u.types[i], n - 1, resolving);
        }
      }
    } else if u.Reference? {
      if IsTransparentWrapper(env, u.name) {
        NoLevels(env, u.args[0]);
        UnsafeFound(env, u.args[0], n - 1, resolving);
      } else if u.name !in env.interfaces {
        var m := LeastUnsafe(env, env.aliases[u.name], n - 1);
        NotOnPath(env, resolving, u.name, n - 1);
        NoneUnsafeNext(env, resolving, n - 1, m - 1, u.name);
        UnsafeFound(env, env.aliases[u.name], m, resolving + {u.name});
      }
    }
  }

  // ---- nothing else is reported ----

  lemma AnyByMember(env: Environment, t: Type, i: nat, m: nat)
    requires Unwrapped(t).Intersection? && i < |Unwrapped(t).types| && AnyIn(env, Unwrapped(t).types[i], m)
    ensures AnyIn(env, t, m + 1)
  {
    hide AnyIn, Unwrapped;
    AnyLevel(env, t, m + 1);
  }

  lemma AnyByReference(env: Environment, t: Type, m: nat)
    requires Unwrapped(t).Reference?
    requires var u := Unwrapped(t);
             if IsTransparentWrapper(env, u.name) then u.args != [] && AnyIn(env, u.args[0], m)
             else u.name !in env.interfaces && u.name in env.aliases && AnyIn(env, env.aliases[u.name], m)
    ensures AnyIn(env, t, m + 1)
  {
    hide AnyIn, Unwrapped, IsTransparentWrapper;
    AnyLevel(env, t, m + 1);
  }

  lemma {:induction false} AnySound(env: Environment, t: Type, resolving: set<string>) returns (n: nat)
    requires UnsafeDirectValue(env, t, resolving) == Some(LAny)
    ensures n > 0 && AnyIn(env, t, n)
    decreases |env.aliases.Keys - resolving|, t, 1
  {
    hide *;
    AnyCases(env, t, resolving);
    var u := Unwrapped(t);
    if u.Intersection? {
      var i, m := AnySoundMember(env, u, resolving);
      AnyByMember(env, t, i, m);
      n := m + 1;
    } else if u.Reference? {
      var m := AnySoundReference(env, u, resolving);
      AnyByReference(env, t, m);
      n := m + 1;
    } else {
      n := 1;
    }
  }

  lemma AnySoundMember(env: Environment, u: Type, resolving: set<string>) returns (i: nat, m: nat)
    requires u.Intersection? && FoundAny(env, u.types, resolving)
    ensures i < |u.types| && AnyIn(env, u.types[i], m)
    decreases |env.aliases.Keys - resolving|, u, 0
  {
    hide *;
    i := AnyMember(env, u.types, resolving);
    m := AnySound(env, u.types[i], resolving);
  }

  lemma AnySoundReference(env: Environment, u: Type, resolving: set<string>) returns (m: nat)
    requires u.Reference?
    requires if IsTransparentWrapper(env, u.name) then
               u.args != [] && UnsafeDirectValue(env, u.args[0], resolving) == Some(LAny)
             else
               && u.name in env.aliases && u.name !in resolving
               && UnsafeDirectValue(env, env.aliases[u.name], resolving + {u.name}) == Some(LAny)
    ensures if IsTransparentWrapper(env, u.name) then AnyIn(env, u.args[0], m)
            else AnyIn(env, env.aliases[u.name], m)
    decreases |env.aliases.Keys - resolving|, u, 0
  {
    hide *;
    if IsTransparentWrapper(env, u.name) {
      m := AnySound(env, u.args[0], resolving);
    } else {
      Fewer(env.aliases.Keys, resolving, u.name);
      m := AnySound(env, env.aliases[u.name], resolving + {u.name});
    }
  }

  /** What a search that answers "any" has seen. */
  lemma AnyCases(env: Environment, t: Type, resolving: set<string>)
    requires UnsafeDirectValue(env, t, resolving) == Some(LAny)
    ensures var u := Unwrapped(t);
            && (u.Intersection? ==> FoundAny(env, u.types, resolving))
            && (u.Reference? ==>
                  if IsTransparentWrapper(env, u.name) then
                    u.args != [] && UnsafeDirectValue(env, u.args[0], resolving) == Some(LAny)
                  else
                    && u.name !in env.interfaces && u.name in env.aliases && u.name !in resolving
                    && UnsafeDirectValue(env, env.aliases[u.name], resolving + {u.name}) == Some(LAny))
            && (!u.Intersection? && !u.Reference? ==> AnyIn(env, t, 1))
  {
    hide *;
    SearchLevel(env, t, resolving);
    if Unwrapped(t).Any? { AnyLevel(env, t, 1); }
  }

  lemma AnyMember(env: Environment, types: seq<Type>, resolving: set<string>) returns (i: nat)
    requires FoundAny(env, types, resolving)
    ensures i < |types| && UnsafeDirectValue(env, types[i], resolving) == Some(LAny)
  {
    hide UnsafeDirectValue;
    var j :| 0 <= j < |types| && UnsafeDirectValue(env, types[j], resolving) == Some(LAny);
    i := j;
  }

  lemma {:induction false} UnsafeSound(env: Environment, t: Type, resolving: set<string>) returns (n: nat)
    requires UnsafeDirectValue(env, t, resolving).Some?
    ensures n > 0 && UnsafeIn(env, t, n)
    decreases |env.aliases.Keys - resolving|, t, 1
  {
    hide AnyIn, UnsafeIn, UnsafeDirectValue;
    var u := Unwrapped(t);
    SearchLevel(env, t, resolving);
    var m := 0;
    if u.Union? {
      var i :| 0 <= i < |u.types| && UnsafeDirectValue(env, u.types[i], resolving).Some?;
      m := UnsafeSound(env, u.types[i], resolving);
    } else if u.Intersection? {
      m := IntersectionSound(env, u, resolving);
    } else if u.Reference? {
      m := ReferenceSound(env, u, resolving);
    }
    n := m + 1;
    UnsafeLevel(env, t, n);
  }

  lemma IntersectionSound(env: Environment, u: Type, resolving: set<string>) returns (m: nat)
    requires u.Intersection? && (FoundAny(env, u.types, resolving) || AllFound(env, u.types, resolving))
    ensures (exists i :: 0 <= i < |u.types| && AnyIn(env, u.types[i], m))
            || (|u.types| > 0 && forall i :: 0 <= i < |u.types| ==> UnsafeIn(env, u.types[i], m))
    decreases |env.aliases.Keys - resolving|, u, 0
  {
    hide AnyIn, UnsafeIn, UnsafeDirectValue;
    if FoundAny(env, u.types, resolving) {
      var i :| 0 <= i < |u.types| && UnsafeDirectValue(env, u.types[i], resolving) == Some(LAny);
      m := AnySound(env, u.types[i], resolving);
    } else {
      m := AllUnsafeSound(env, u.types, resolving);
    }
  }

  lemma ReferenceSound(env: Environment, u: Type, resolving: set<string>) returns (m: nat)
    requires u.Reference? && (IsTransparentWrapper(env, u.name) ==> u.args != [])
    requires !IsTransparentWrapper(env, u.name) && u.name !in env.interfaces ==>
               u.name in env.aliases && u.name !in resolving
    requires IsTransparentWrapper(env, u.name) ==> UnsafeDirectValue(env, u.args[0], resolving).Some?
    requires !IsTransparentWrapper(env, u.name) && u.name !in env.interfaces ==>
               UnsafeDirectValue(env, env.aliases[u.name], resolving + {u.name}).Some?
    ensures IsTransparentWrapper(env, u.name) ==> UnsafeIn(env, u.args[0], m)
    ensures !IsTransparentWrapper(env, u.name) && u.name !in env.interfaces ==> UnsafeIn(env, env.aliases[u.name], m)
    decreases |env.aliases.Keys - resolving|, u, 0
  {
    hide AnyIn, UnsafeIn, UnsafeDirectValue;
    m := 0;
    if IsTransparentWrapper(env, u.name) {
      m := UnsafeSound(env, u.args[0], resolving);
    } else if u.name !in env.interfaces {
      Fewer(env.aliases.Keys, resolving, u.name);
      m := UnsafeSound(env, env.aliases[u.name], resolving + {u.name});
    }
  }

  lemma {:induction false} AllUnsafeSound(env: Environment, types: seq<Type>, resolving: set<string>) returns (n: nat)
    requires forall i :: 0 <= i < |types| ==> UnsafeDirectValue(env, types[i], resolving).Some?
    ensures forall i :: 0 <= i < |types| ==> UnsafeIn(env, types[i], n)
    decreases |env.aliases.Keys - resolving|, types, 0
  {
    hide UnsafeIn, UnsafeDirectValue;
    n := 0;
    if types != [] {
      var m := UnsafeSound(env, types[0], resolving);
      var rest := AllUnsafeSound(env, types[1..], resolving);
      n := m + rest;
      forall i | 0 <= i < |types| ensures UnsafeIn(env, types[i], n) {
        if i == 0 { UnsafeMore(env, types[0], m, n); } else { UnsafeMore(env, types[1..][i - 1], rest, n); }
      }
    }
  }

  /** The search answers exactly the least solution of the rules, on every alias map, cyclic ones included. */
  lemma ClassifiedIsLeast(env: Environment, t: Type)
    ensures Classified(env, t).Some? <==> IsUnsafe(env, t)
    ensures Classified(env, t) == Some(LAny) <==> IsAny(env, t)
  {
    if Classified(env, t).Some? { var n := UnsafeSound(env, t, {}); }
    if Classified(env, t) == Some(LAny) { var n := AnySound(env, t, {}); }
    NoLevels(env, t);
    if n: nat :| UnsafeIn(env, t, n) { UnsafeFound(env, t, n, {}); }
    if n: nat :| AnyIn(env, t, n) { AnyFound(env, t, n, {}); }
  }

  // ---- the least solution is one ----

  /** Any two predicates closed under the rules contain the derivable types. */
  lemma {:induction false} DerivableIsLeast(env: Environment, isAny: Type -> bool, isUnsafe: Type -> bool,
                                            t: Type, n: nat)
    requires forall u :: AnyRule(env, u, isAny) ==> isAny(u)
    requires forall u :: UnsafeRule(env, u, isAny, isUnsafe) ==> isUnsafe(u)
    ensures AnyIn(env, t, n) ==> isAny(t)
    ensures UnsafeIn(env, t, n) ==> isUnsafe(t)
    decreases n
  {
    if n > 0 {
      forall u ensures AnyIn(env, u, n - 1) ==> isAny(u)
        ensures UnsafeIn(env, u, n - 1) ==> isUnsafe(u)
      {
        DerivableIsLeast(env, isAny, isUnsafe, u, n - 1);
      }
      if AnyIn(env, t, n) { assert AnyRule(env, t, isAny); }
      if UnsafeIn(env, t, n) { assert UnsafeRule(env, t, isAny, isUnsafe); }
    }
  }

  /** The derivable types satisfy the rules, in both directions. */
  lemma DerivableIsFixed(env: Environment, t: Type)
    ensures IsAny(env, t) <==> AnyRule(env, t, u => IsAny(env, u))
    ensures IsUnsafe(env, t) <==> UnsafeRule(env, t, u => IsAny(env, u), u => IsUnsafe(env, u))
  {
    if n: nat :| AnyIn(env, t, n) {
      RulesMonotone(env, t, u => AnyIn(env, u, n - 1), u => false, u => IsAny(env, u), u => false);
    }
    if n: nat :| UnsafeIn(env, t, n) {
      RulesMonotone(env, t, u => AnyIn(env, u, n - 1), u => UnsafeIn(env, u, n - 1),
                    u => IsAny(env, u), u => IsUnsafe(env, u));
    }
    if AnyRule(env, t, u => IsAny(env, u)) { AnyFixed(env, t); }
    if UnsafeRule(env, t, u => IsAny(env, u), u => IsUnsafe(env, u)) { UnsafeFixed(env, t); }
  }

  lemma AnyFixed(env: Environment, t: Type)
    requires AnyRule(env, t, u => IsAny(env, u))
    ensures IsAny(env, t)
  {
    var u := Unwrapped(t);
    if u.Any? {
      assert AnyIn(env, t, 1);
    } else {
      var v := if u.Intersection? then (var i :| 0 <= i < |u.types| && IsAny(env, u.types[i]); u.types[i])
               else if IsTransparentWrapper(env, u.name) then u.args[0] else env.aliases[u.name];
      var n: nat :| AnyIn(env, v, n);
      assert AnyIn(env, t, n + 1);
    }
  }

  lemma {:induction false} CommonDepth(env: Environment, types: seq<Type>) returns (n: nat)
    requires forall i :: 0 <= i < |types| ==> IsUnsafe(env, types[i])
    ensures forall i :: 0 <= i < |types| ==> UnsafeIn(env, types[i], n)
  {
    n := 0;
    if types != [] {
      assert IsUnsafe(env, types[0]);
      var m: nat :| UnsafeIn(env, types[0], m);
      var rest := CommonDepth(env, types[1..]);
      n := m + rest;
      forall i | 0 <= i < |types| ensures UnsafeIn(env, types[i], n) {
        if i == 0 { UnsafeMore(env, types[0], m, n); } else { UnsafeMore(env, types[1..][i - 1], rest, n); }
      }
    }
  }

  lemma UnsafeFixed(env: Environment, t: Type)
    requires UnsafeRule(env, t, u => IsAny(env, u), u => IsUnsafe(env, u))
    ensures IsUnsafe(env, t)
  {
    var u := Unwrapped(t);
    if u.Union? {
      var i :| 0 <= i < |u.types| && IsUnsafe(env, u.types[i]);
      var n: nat :| UnsafeIn(env, u.types[i], n);
      assert UnsafeIn(env, t, n + 1);
    } else if u.Intersection? {
      if i :| 0 <= i < |u.types| && IsAny(env, u.types[i]) {
        var n: nat :| AnyIn(env, u.types[i], n);
        assert UnsafeIn(env, t, n + 1);
      } else {
        var n := CommonDepth(env, u.types);
        assert UnsafeIn(env, t, n + 1);
      }
    } else if u.Reference? && (IsTransparentWrapper(env, u.name) || u.name !in env.interfaces) {
      var v := if IsTransparentWrapper(env, u.name) then u.args[0] else env.aliases[u.name];
      var n: nat :| UnsafeIn(env, v, n);
      assert UnsafeIn(env, t, n + 1);
    } else {
      assert UnsafeIn(env, t, 1);
    }
  }
}
