/** What the rule for dictionary value types says of each kind of node, told by how the node is built. */
module TypeNodes {
  import opened Options
  import opened TypeAliases

  // ---- parentheses and `readonly` ----

  datatype Layer = Parentheses | ReadonlyOperator

  /** A type with parentheses and `readonly` operators around it, outermost first. */
  function Wrapped(layers: seq<Layer>, t: Type): Type {
    if layers == [] then t
    else if layers[0].Parentheses? then Parenthesized(Wrapped(layers[1..], t))
    else Readonly(Wrapped(layers[1..], t))
  }

  predicate Bare(t: Type) { !t.Parenthesized? && !t.Readonly? }

  lemma {:induction false} UnwrappedWrapped(layers: seq<Layer>, t: Type)
    requires Bare(t)
    ensures Unwrapped(Wrapped(layers, t)) == t
    decreases |layers|
  {
    if layers != [] { UnwrappedWrapped(layers[1..], t); }
  }

  /** Every type is a bare one with such layers around it. */
  lemma {:induction false} WrappedUnwrapped(t: Type) returns (layers: seq<Layer>)
    ensures Bare(Unwrapped(t)) && t == Wrapped(layers, Unwrapped(t))
    decreases t
  {
    layers := [];
    if !Bare(t) {
      var rest := WrappedUnwrapped(t.inner);
      layers := [if t.Parenthesized? then Parentheses else ReadonlyOperator] + rest;
      assert layers[1..] == rest;
    }
  }

  // ---- empty literals and interfaces ----

  /** A member that no value can have: `name?: never`, however the `never` is wrapped. */
  ghost predicate Absent(m: Member) { exists layers :: m == Property(true, Some(Wrapped(layers, Never))) }

  lemma EmptyMember(m: Member)
    ensures IsEffectivelyEmptyMember(m) <==> Absent(m)
  {
    if IsEffectivelyEmptyMember(m) {
      var layers := WrappedUnwrapped(m.annotation.value);
      assert m == Property(true, Some(Wrapped(layers, Never)));
    }
    if layers :| m == Property(true, Some(Wrapped(layers, Never))) { UnwrappedWrapped(layers, Never); }
  }

  ghost predicate NoneExpected(members: seq<Member>) { forall i :: 0 <= i < |members| ==> Absent(members[i]) }

  lemma EmptyMembers(members: seq<Member>)
    ensures AllEmpty(members) <==> NoneExpected(members)
  {
    hide IsEffectivelyEmptyMember, Absent;
    forall i | 0 <= i < |members| ensures IsEffectivelyEmptyMember(members[i]) <==> Absent(members[i]) {
      EmptyMember(members[i]);
    }
  }

  /** A literal is reported exactly when all its members are optional and annotated `never`. */
  lemma LiteralClassified(env: Environment, layers: seq<Layer>, members: seq<Member>)
    ensures Classified(env, Wrapped(layers, Literal(members)))
            == if NoneExpected(members) then Some(LEmptyObject) else None
  {
    UnwrappedWrapped(layers, Literal(members));
    EmptyMembers(members);
  }

  /** One required member, one without annotation, one of another type or of another kind is enough for no report. */
  lemma MemberCounts(members: seq<Member>, i: nat, layers: seq<Layer>)
    requires i < |members|
    requires match members[i]
             case OtherMember => true
             case Property(optional, annotation) =>
               || !optional || annotation.None?
               || exists t :: Bare(t) && t != Never && annotation == Some(Wrapped(layers, t))
    ensures !NoneExpected(members)
  {
    if NoneExpected(members) {
      var never :| members[i] == Property(true, Some(Wrapped(never, Never)));
      var t :| Bare(t) && t != Never && members[i].annotation == Some(Wrapped(layers, t));
      UnwrappedWrapped(never, Never);
      UnwrappedWrapped(layers, t);
    }
  }

  // ---- references ----

  /** The four wrappers that the rule looks through. */
  predicate Builtin(env: Environment, name: string) {
    (name == "Readonly" || name == "Partial" || name == "Required" || name == "NonNullable")
    && name !in env.shadowedBuiltIns
  }

  lemma WrapperNames(env: Environment, name: string)
    ensures IsTransparentWrapper(env, name) <==> Builtin(env, name)
  {
  }

  lemma WrapperClassified(env: Environment, layers: seq<Layer>, name: string, args: seq<Type>)
    requires Builtin(env, name)
    ensures Classified(env, Wrapped(layers, Reference(name, args)))
            == if args == [] then None else Classified(env, args[0])
  {
    WrapperNames(env, name);
    UnwrappedWrapped(layers, Reference(name, args));
    ReferenceLevel(env, Wrapped(layers, Reference(name, args)), {});
  }

  /** An interface is reported exactly when it is declared once, extends nothing and has only such members. */
  lemma InterfaceClassified(env: Environment, layers: seq<Layer>, name: string, args: seq<Type>)
    requires !Builtin(env, name) && name in env.interfaces
    ensures var declarations := env.interfaces[name];
            Classified(env, Wrapped(layers, Reference(name, args)))
            == if |declarations| == 1 && !declarations[0].extendsSomething && NoneExpected(declarations[0].body)
               then Some(LEmptyObject) else None
  {
    hide AllEmpty, NoneExpected;
    WrapperNames(env, name);
    UnwrappedWrapped(layers, Reference(name, args));
    ReferenceLevel(env, Wrapped(layers, Reference(name, args)), {});
    if |env.interfaces[name]| == 1 { EmptyMembers(env.interfaces[name][0].body); }
  }

  /** An alias is reported exactly when its body is, and as `any` when its body is; a name that is nothing is not. */
  lemma AliasClassified(env: Environment, layers: seq<Layer>, name: string, args: seq<Type>)
    requires !Builtin(env, name) && name !in env.interfaces
    ensures var found := Classified(env, Wrapped(layers, Reference(name, args)));
            if name in env.aliases then
              && (found != None <==> Classified(env, env.aliases[name]) != None)
              && (found == Some(LAny) <==> Classified(env, env.aliases[name]) == Some(LAny))
            else found == None
  {
    hide IsAny, IsUnsafe, UnsafeDirectValue;
    WrapperNames(env, name);
    var t := Wrapped(layers, Reference(name, args));
    UnwrappedWrapped(layers, Reference(name, args));
    ReferenceLevel(env, t, {});
    if name in env.aliases {
      ClassifiedIsLeast(env, t);
      ClassifiedIsLeast(env, env.aliases[name]);
      DerivableIsFixed(env, t);
    }
  }

  // ---- keywords, unions and intersections ----

  lemma KeywordClassified(env: Environment, layers: seq<Layer>)
    ensures Classified(env, Wrapped(layers, Unknown)) == Some(LUnknown)
    ensures Classified(env, Wrapped(layers, Any)) == Some(LAny)
    ensures Classified(env, Wrapped(layers, Object)) == Some(LObject)
    ensures Classified(env, Wrapped(layers, Never)) == None && Classified(env, Wrapped(layers, Other)) == None
  {
    UnwrappedWrapped(layers, Unknown);
    UnwrappedWrapped(layers, Any);
    UnwrappedWrapped(layers, Object);
    UnwrappedWrapped(layers, Never);
    UnwrappedWrapped(layers, Other);
  }

  /** A union is reported when one of its members is. */
  lemma UnionClassified(env: Environment, layers: seq<Layer>, types: seq<Type>)
    ensures Classified(env, Wrapped(layers, Union(types)))
            == if exists i :: 0 <= i < |types| && Classified(env, types[i]) != None then Some(LUnion) else None
  {
    hide UnsafeDirectValue;
    UnwrappedWrapped(layers, Union(types));
    UnionLevel(env, Wrapped(layers, Union(types)), {});
    assert Found(env, types, {}) <==> exists i :: 0 <= i < |types| && Classified(env, types[i]) != None;
  }

  lemma IntersectionValue(env: Environment, t: Type, types: seq<Type>)
    requires Unwrapped(t) == Intersection(types)
    ensures var values := UnsafeDirectValues(env, types, {});
            UnsafeDirectValue(env, t, {})
            == if Some(LAny) in values then Some(LAny)
               else if |values| > 0 && (forall i :: 0 <= i < |values| ==> values[i].Some?) then values[0]
               else None
  {
  }

  /** An intersection is `any` when one of its members is, and else is reported, as its first member is, when all of
      them are. */
  lemma IntersectionClassified(env: Environment, layers: seq<Layer>, types: seq<Type>)
    ensures Classified(env, Wrapped(layers, Intersection(types)))
            == if exists i :: 0 <= i < |types| && Classified(env, types[i]) == Some(LAny) then Some(LAny)
               else if |types| > 0 && forall i :: 0 <= i < |types| ==> Classified(env, types[i]) != None then
                 Classified(env, types[0])
               else None
  {
    hide UnsafeDirectValue, UnsafeDirectValues;
    UnwrappedWrapped(layers, Intersection(types));
    IntersectionValue(env, Wrapped(layers, Intersection(types)), types);
    var values := UnsafeDirectValues(env, types, {});
    assert Some(LAny) in values <==> exists i :: 0 <= i < |types| && Classified(env, types[i]) == Some(LAny);
  }
}
