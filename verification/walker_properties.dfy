/**
  What the container walker records, stated on the tables: which entries
  each kind of statement writes, which it leaves alone, and where the code
  as written raises a TypeError.
 */
module WalkerProperties {
  import opened Estree
  import opened SymbolTables
  import opened TextPrep
  import opened Walker

  /** `const { a, b } = obj` can run to the end: no rest element, and no
      identifier key reading `init.name` off a missing initializer. */
  predicate PatternRunsThrough(props: seq<PatternProperty>, init: Option<Expr>)
  {
    forall j :: 0 <= j < |props| ==>
      props[j].PatternProperty? && (TypeOf(props[j].key) == "Identifier" ==> init.Some?)
  }

  /** The table key an object-pattern element is stored under. */
  function PatternKey(p: PatternProperty): string
    requires p.PatternProperty?
  {
    KeyOf(NameOf(p.key))
  }

  /** The table key a registration property is stored under. */
  function PropertyKey(p: Property): string
    requires p.Property?
  {
    KeyOf(NameOf(p.key))
  }

  /** `ExpressionEffects(e)` is a `register` call: a call (or `new`) whose
      callee is a member access to a property named `register`. */
  predicate IsRegisterCall(e: Expr)
  {
    CalleeOf(e).Some? && CalleeOf(e).value.MemberExpression? &&
    NameOf(CalleeOf(e).value.property) == Some("register")
  }

  /** The guard at line 105 lets `p` through: its value is a call, or a `new`
      expression whose callee is an identifier. */
  predicate RegistersValue(p: Property)
  {
    p.Property? &&
    (p.value.CallExpression? || (p.value.NewExpression? && p.value.callee.Identifier?))
  }

  // ---------------------------------------------------------------------------
  // Variable declarations

  /** Only the first `VariableDeclarator` of a declaration is walked: the
      writes are those of that declarator, whatever follows it. */
  lemma {:induction false} OnlyFirstDeclarator(decls: seq<Declarator>, i: nat)
    requires i < |decls| && decls[i].VariableDeclarator?
    requires forall j :: 0 <= j < i ==> !decls[j].VariableDeclarator?
    ensures DeclarationEffects(decls) == DeclaratorEffects(decls[i])
    decreases i
  {
    if i > 0 {
      OnlyFirstDeclarator(decls[1..], i - 1);
    }
  }

  /** A declaration without any `VariableDeclarator` writes nothing. */
  lemma {:induction false} NoDeclaratorNoEffects(decls: seq<Declarator>)
    requires forall j :: 0 <= j < |decls| ==> !decls[j].VariableDeclarator?
    ensures DeclarationEffects(decls) == []
    decreases |decls|
  {
    if decls != [] {
      NoDeclaratorNoEffects(decls[1..]);
    }
  }

  /** `const x = <init>` writes exactly one entry, under `x`, replacing any
      earlier one; its `type` is the initializer's and at most one of `raw`
      and `ref` is set. */
  lemma DeclaringIdentifier(t: Tables, d: Declarator, k: string)
    requires d.VariableDeclarator? && d.id.IdentifierPattern?
    ensures Apply(t, DeclaratorEffects(d)).Completed?
    ensures Apply(t, DeclaratorEffects(d)).tables.registered == t.registered
    ensures Lookup(Apply(t, DeclaratorEffects(d)).tables.variables, k) ==
            if k == d.id.name then Some(IdentifierEntry(d)) else Lookup(t.variables, k)
    ensures var v := IdentifierEntry(d);
            v.kind == (if d.init.Some? then Some(TypeOf(d.init.value)) else None) &&
            !(v.raw.Some? && v.ref.Some?)
  {
  }

  /** `const { a, b } = obj`: each element is stored under its key's name with
      the key's `type`, the WHOLE declarator's location and, for an identifier
      key, `ref` set to the initializer's name. When a key repeats, the last
      element wins. */
  lemma ObjectPatternBinds(t: Tables, d: Declarator, i: nat)
    requires d.VariableDeclarator? && d.id.ObjectPattern?
    requires PatternRunsThrough(d.id.properties, d.init)
    requires i < |d.id.properties|
    requires forall j :: i < j < |d.id.properties| ==>
               PatternKey(d.id.properties[j]) != PatternKey(d.id.properties[i])
    ensures Apply(t, DeclaratorEffects(d)).Completed?
    ensures Apply(t, DeclaratorEffects(d)).tables.registered == t.registered
    ensures var key := d.id.properties[i].key;
            Lookup(Apply(t, DeclaratorEffects(d)).tables.variables, PatternKey(d.id.properties[i])) ==
            Some(Variable(NameOf(key), Some(TypeOf(key)), d.loc, None,
                          if TypeOf(key) == "Identifier" then NameOf(d.init.value) else None))
  {
    var props := d.id.properties;
    var effects := DeclaratorEffects(d);
    assert forall j :: 0 <= j < |props| ==> props[j].PatternProperty?;
    assert forall j :: 0 <= j < |props| ==> effects[j] == PatternEffect(props[j], d.init, d.loc);
    assert TypeError !in effects;
    LastVariableAt(effects, i);
    VariablesLastWriteWins(t, effects, PatternKey(props[i]));
    RegistrationsUntouched(t, effects);
  }

  /** An object pattern writes nothing under a name that is not one of its keys. */
  lemma ObjectPatternOnlyBindsKeys(t: Tables, d: Declarator, k: string)
    requires d.VariableDeclarator? && d.id.ObjectPattern?
    requires forall j :: 0 <= j < |d.id.properties| && d.id.properties[j].PatternProperty? ==>
               PatternKey(d.id.properties[j]) != k
    ensures Lookup(Apply(t, DeclaratorEffects(d)).tables.variables, k) == Lookup(t.variables, k)
  {
    UnwrittenVariableKept(t, DeclaratorEffects(d), k);
  }

  /** A rest element (it has no `key`), or an identifier key when there is no
      initializer, raises a TypeError: the elements before it stay written,
      nothing after it is. */
  lemma ObjectPatternFault(t: Tables, d: Declarator, c: nat)
    requires d.VariableDeclarator? && d.id.ObjectPattern?
    requires c < |d.id.properties|
    requires d.id.properties[c].RestElement? ||
             (TypeOf(d.id.properties[c].key) == "Identifier" && d.init.None?)
    requires PatternRunsThrough(d.id.properties[..c], d.init)
    ensures Apply(t, DeclaratorEffects(d)) ==
            Failed(Apply(t, PatternEffects(d.id.properties[..c], d.init, d.loc)).tables)
  {
    var props := d.id.properties;
    var effects := DeclaratorEffects(d);
    assert effects[..c] == PatternEffects(props[..c], d.init, d.loc);
    assert forall j :: 0 <= j < c ==> props[..c][j] == props[j];
    assert TypeError !in effects[..c];
    StopsAtTypeError(t, effects, c);
  }

  // ---------------------------------------------------------------------------
  // Registrations

  /** The writes of one argument appear among the writes of the whole
      argument list. */
  lemma {:induction false} ArgumentEffectsIncluded(args: seq<Expr>, a: nat, x: Effect)
    requires a < |args| && x in ArgumentEffects(args[a])
    ensures x in ArgumentsEffects(args)
    decreases |args|
  {
    var init := args[..|args| - 1];
    if a < |args| - 1 {
      assert init[a] == args[a];
      ArgumentEffectsIncluded(init, a, x);
    }
  }

  /** The argument writes of two lists in a row are those of each, in order. */
  lemma {:induction false} ArgumentsEffectsConcat(x: seq<Expr>, y: seq<Expr>)
    ensures ArgumentsEffects(x + y) == ArgumentsEffects(x) + ArgumentsEffects(y)
    decreases |y|
  {
    if y == [] {
      assert x + y == x;
    } else {
      var init := y[..|y| - 1];
      assert (x + y)[..|x + y| - 1] == x + init;
      assert (x + y)[|x + y| - 1] == y[|y| - 1];
      ArgumentsEffectsConcat(x, init);
    }
  }

  /** An argument of `register` that is not an object literal is skipped: the
      call writes what it would write without that argument. */
  lemma {:induction false} NonObjectArgumentSkipped(args: seq<Expr>, n: nat)
    requires n < |args| && !args[n].ObjectExpression?
    ensures ArgumentsEffects(args) == ArgumentsEffects(args[..n] + args[n + 1..])
    decreases |args|
  {
    var init := args[..|args| - 1];
    var dropped := args[..n] + args[n + 1..];
    if n == |args| - 1 {
      assert dropped == init;
    } else {
      var shorter := init[..n] + init[n + 1..];
      assert ArgumentsEffects(dropped) == ArgumentsEffects(shorter) + ArgumentEffects(args[|args| - 1]) by {
        assert dropped[..|dropped| - 1] == shorter;
        assert dropped[|dropped| - 1] == args[|args| - 1];
      }
      assert init[n] == args[n];
      NonObjectArgumentSkipped(init, n);
    }
  }

  /** Arguments none of which is an object literal write nothing. */
  lemma {:induction false} NoObjectArgumentNoEffects(args: seq<Expr>)
    requires forall i :: 0 <= i < |args| ==> !args[i].ObjectExpression?
    ensures ArgumentsEffects(args) == []
    decreases |args|
  {
    if args != [] {
      NoObjectArgumentNoEffects(args[..|args| - 1]);
    }
  }

  /** A `register` call without an object-literal argument leaves both tables
      as they were. */
  lemma RegisterWithoutObjectKeepsTables(t: Tables, e: Expr)
    requires IsRegisterCall(e)
    requires forall i :: 0 <= i < |ArgumentsOf(e)| ==> !ArgumentsOf(e)[i].ObjectExpression?
    ensures Apply(t, ExpressionEffects(e)) == Completed(t)
  {
    NoObjectArgumentNoEffects(ArgumentsOf(e));
  }

  /** The last registration the arguments of a `register` call write under a
      property's name is that property's own, when the guard lets it through
      and no later property, in its object or a later one, reuses the name. */
  lemma {:induction false} ArgumentsLastRecord(args: seq<Expr>, a: nat, p: nat)
    requires a < |args| && args[a].ObjectExpression?
    requires p < |args[a].properties| && RegistersValue(args[a].properties[p])
    requires var props := args[a].properties;
             forall q :: p < q < |props| && props[q].Property? ==> PropertyKey(props[q]) != PropertyKey(props[p])
    requires forall b, q ::
               (a < b < |args| && args[b].ObjectExpression? && 0 <= q < |args[b].properties| &&
                args[b].properties[q].Property?) ==>
               PropertyKey(args[b].properties[q]) != PropertyKey(args[a].properties[p])
    ensures LastRegistration(ArgumentsEffects(args), PropertyKey(args[a].properties[p])) ==
            Some(RegistrationOf(args[a].properties[p]))
    decreases |args|
  {
    var init := args[..|args| - 1];
    var last := args[|args| - 1];
    var k := PropertyKey(args[a].properties[p]);
    LastRegistrationConcat(ArgumentsEffects(init), ArgumentEffects(last), k);
    if a == |args| - 1 {
      ObjectLastRecord(last.properties, p);
    } else {
      assert forall b :: 0 <= b < |init| ==> init[b] == args[b];
      ArgumentsLastRecord(init, a, p);
      assert last.ObjectExpression? ==>
             forall q :: 0 <= q < |last.properties| && last.properties[q].Property? ==>
               PropertyKey(last.properties[q]) != k;
      ArgumentAvoidsKey(last, k);
    }
  }

  /** Within one object literal, the last registration under a property's
      name is that property's own, when the guard lets it through and no
      later property reuses the name. */
  lemma ObjectLastRecord(props: seq<Property>, p: nat)
    requires p < |props| && RegistersValue(props[p])
    requires forall q :: p < q < |props| && props[q].Property? ==> PropertyKey(props[q]) != PropertyKey(props[p])
    ensures LastRegistration(ObjectEffects(props), PropertyKey(props[p])) == Some(RegistrationOf(props[p]))
  {
    var own := ObjectEffects(props);
    assert own[p] == SetRegistration(PropertyKey(props[p]), RegistrationOf(props[p]));
    assert forall j :: p < j < |own| ==> own[j] == RegistrationEffect(props[j]);
    LastRegistrationAt(own, p);
  }

  /** An argument none of whose properties is named `k` registers nothing
      under `k`. */
  lemma ArgumentAvoidsKey(arg: Expr, k: string)
    requires arg.ObjectExpression? ==>
             forall q :: 0 <= q < |arg.properties| && arg.properties[q].Property? ==>
               PropertyKey(arg.properties[q]) != k
    ensures LastRegistration(ArgumentEffects(arg), k).None?
  {
    var own := ArgumentEffects(arg);
    forall j | 0 <= j < |own|
      ensures !(own[j].SetRegistration? && own[j].key == k)
    {
      assert own[j] == RegistrationEffect(arg.properties[j]);
    }
    NoLastRegistration(own, k);
  }

  /** Arguments none of whose properties is named `k` write nothing under `k`. */
  lemma {:induction false} ArgumentsAvoidKey(args: seq<Expr>, k: string)
    requires forall b, q ::
               (0 <= b < |args| && args[b].ObjectExpression? && 0 <= q < |args[b].properties| &&
                args[b].properties[q].Property?) ==>
               PropertyKey(args[b].properties[q]) != k
    ensures forall i :: 0 <= i < |ArgumentsEffects(args)| ==>
              !(ArgumentsEffects(args)[i].SetRegistration? && ArgumentsEffects(args)[i].key == k)
    decreases |args|
  {
    if args != [] {
      var init, last := args[..|args| - 1], args[|args| - 1];
      assert forall b :: 0 <= b < |init| ==> init[b] == args[b];
      ArgumentsAvoidKey(init, k);
      var before, own := ArgumentsEffects(init), ArgumentEffects(last);
      forall j | 0 <= j < |own|
        ensures !(own[j].SetRegistration? && own[j].key == k)
      {
        assert own[j] == RegistrationEffect(last.properties[j]);
      }
      var effects := ArgumentsEffects(args);
      assert effects == before + own;
      forall i | 0 <= i < |effects|
        ensures !(effects[i].SetRegistration? && effects[i].key == k)
      {
        if i < |before| {
          assert effects[i] == before[i];
        } else {
          assert effects[i] == own[i - |before|];
        }
      }
    }
  }

  /** A `register` call writes `registered` under the names its object
      arguments' properties carry and no other: an entry under any other key
      keeps its value (or its absence), whether or not the walk runs through. */
  lemma RegisterOnlyBindsKeys(t: Tables, e: Expr, k: string)
    requires IsRegisterCall(e)
    requires var args := ArgumentsOf(e);
             forall b, q ::
               (0 <= b < |args| && args[b].ObjectExpression? && 0 <= q < |args[b].properties| &&
                args[b].properties[q].Property?) ==>
               PropertyKey(args[b].properties[q]) != k
    ensures Lookup(Apply(t, ExpressionEffects(e)).tables.registered, k) == Lookup(t.registered, k)
  {
    ArgumentsAvoidKey(ArgumentsOf(e), k);
    assert ExpressionEffects(e) == ArgumentsEffects(ArgumentsOf(e));
    UnwrittenRegistrationKept(t, ExpressionEffects(e), k);
  }

  /** A property whose value is a `new` of something other than an identifier
      (`new a.B()`) is skipped by the `continue` at line 106: it writes
      nothing and does not raise. */
  lemma NewThroughMemberSkipped(p: Property)
    requires p.Property? && p.value.NewExpression? && !p.value.callee.Identifier?
    ensures RegistrationEffect(p) == Skip
  {
  }

  /** In `<obj>.register(..., { ..., key: builder(arg), ... }, ...)`, a walk
      that runs through leaves every property the guard lets through (a call,
      or a `new` of an identifier) registered under the key's name, unless a
      later property reuses that name: the entry has the key's `type`, the
      KEY's own location, the builder's name (absent when the callee is not an
      identifier) and the first argument's description. `variables` is left
      alone. */
  lemma RegisterCallRecords(t: Tables, e: Expr, a: nat, p: nat)
    requires IsRegisterCall(e)
    requires a < |ArgumentsOf(e)| && ArgumentsOf(e)[a].ObjectExpression?
    requires p < |ArgumentsOf(e)[a].properties| && RegistersValue(ArgumentsOf(e)[a].properties[p])
    requires Apply(t, ExpressionEffects(e)).Completed?
    requires var props := ArgumentsOf(e)[a].properties;
             forall q :: p < q < |props| && props[q].Property? ==> PropertyKey(props[q]) != PropertyKey(props[p])
    requires var args := ArgumentsOf(e);
             forall b, q ::
               (a < b < |args| && args[b].ObjectExpression? && 0 <= q < |args[b].properties| &&
                args[b].properties[q].Property?) ==>
               PropertyKey(args[b].properties[q]) != PropertyKey(args[a].properties[p])
    ensures Apply(t, ExpressionEffects(e)).tables.variables == t.variables
    ensures var prop := ArgumentsOf(e)[a].properties[p];
            Lookup(Apply(t, ExpressionEffects(e)).tables.registered, PropertyKey(prop)) ==
            Some(Registration(NameOf(prop.key), TypeOf(prop.key), prop.key.loc,
                              NameOf(prop.value.callee), ClassifyArguments(prop.value.arguments)))
  {
    var effects := ExpressionEffects(e);
    var prop := ArgumentsOf(e)[a].properties[p];
    ArgumentsLastRecord(ArgumentsOf(e), a, p);
    FailsIffTypeError(t, effects);
    RegistrationsLastWriteWins(t, effects, PropertyKey(prop));
    ArgumentsLeaveVariables(ArgumentsOf(e));
    VariablesUntouched(t, effects);
  }

  /** The writes of a `register` call with one object-literal argument are
      those of its properties, in order. */
  lemma SingleObjectArgument(e: Expr)
    requires IsRegisterCall(e)
    requires |ArgumentsOf(e)| == 1 && ArgumentsOf(e)[0].ObjectExpression?
    ensures ExpressionEffects(e) == ObjectEffects(ArgumentsOf(e)[0].properties)
  {
    var args := ArgumentsOf(e);
    assert args[..0] == [];
    assert ArgumentsEffects(args) == ArgumentsEffects(args[..0]) + ArgumentEffects(args[0]);
  }

  /** A `register` call whose one argument is an object literal of builder
      calls: each property is registered under its key, last one wins, and
      `variables` is left alone. */
  lemma RegisterObjectBinds(t: Tables, e: Expr, i: nat)
    requires IsRegisterCall(e)
    requires |ArgumentsOf(e)| == 1 && ArgumentsOf(e)[0].ObjectExpression?
    requires var props := ArgumentsOf(e)[0].properties;
             forall j :: 0 <= j < |props| ==> props[j].Property? && props[j].value.CallExpression?
    requires i < |ArgumentsOf(e)[0].properties|
    requires var props := ArgumentsOf(e)[0].properties;
             forall j :: i < j < |props| ==> PropertyKey(props[j]) != PropertyKey(props[i])
    ensures Apply(t, ExpressionEffects(e)).Completed?
    ensures Apply(t, ExpressionEffects(e)).tables.variables == t.variables
    ensures var prop := ArgumentsOf(e)[0].properties[i];
            Lookup(Apply(t, ExpressionEffects(e)).tables.registered, PropertyKey(prop)) ==
            Some(Registration(NameOf(prop.key), TypeOf(prop.key), prop.key.loc,
                              NameOf(prop.value.callee), ClassifyArguments(prop.value.arguments)))
  {
    var props := ArgumentsOf(e)[0].properties;
    var effects := ExpressionEffects(e);
    SingleObjectArgument(e);
    assert forall j :: 0 <= j < |props| ==> effects[j].SetRegistration?;
    FailsIffTypeError(t, effects);
    RegisterCallRecords(t, e, 0, i);
  }

  /** A spread element (it has no `value`), or a property whose value has no
      `callee` (a literal, an identifier, an object, a function...), inside a
      `register` call's object argument makes the guard at line 105 raise a
      TypeError. */
  lemma ValueWithoutCalleeRaises(t: Tables, e: Expr, a: nat, p: nat)
    requires IsRegisterCall(e)
    requires a < |ArgumentsOf(e)| && ArgumentsOf(e)[a].ObjectExpression?
    requires p < |ArgumentsOf(e)[a].properties|
    requires var prop := ArgumentsOf(e)[a].properties[p];
             prop.SpreadElement? || CalleeOf(prop.value).None?
    ensures Apply(t, ExpressionEffects(e)).Failed?
  {
    var prop := ArgumentsOf(e)[a].properties[p];
    assert ArgumentEffects(ArgumentsOf(e)[a])[p] == TypeError;
    ArgumentEffectsIncluded(ArgumentsOf(e), a, TypeError);
    FailsIffTypeError(t, ExpressionEffects(e));
  }

  /** A call statement whose callee is not a member access (`init();`) reads
      `callee.property.name` off `undefined` and raises before writing. */
  lemma CalleeWithoutPropertyRaises(t: Tables, s: Statement)
    requires s.ExpressionStatement? && CalleeOf(s.expression).Some?
    requires !CalleeOf(s.expression).value.MemberExpression?
    ensures Apply(t, StatementEffects(s)) == Failed(t)
  {
  }

  // ---------------------------------------------------------------------------
  // Frames: which table each statement can touch

  lemma {:induction false} DeclarationLeavesRegistrations(decls: seq<Declarator>)
    ensures LeavesRegistrations(DeclarationEffects(decls))
    decreases |decls|
  {
    if decls != [] && !decls[0].VariableDeclarator? {
      DeclarationLeavesRegistrations(decls[1..]);
    }
  }

  lemma {:induction false} ArgumentsLeaveVariables(args: seq<Expr>)
    ensures LeavesVariables(ArgumentsEffects(args))
    decreases |args|
  {
    if args != [] {
      ArgumentsLeaveVariables(args[..|args| - 1]);
    }
  }

  /** A declaration never touches `registered`; an expression statement never
      touches `variables`. */
  lemma StatementFrame(t: Tables, s: Statement)
    ensures s.VariableDeclaration? ==> Apply(t, StatementEffects(s)).tables.registered == t.registered
    ensures s.ExpressionStatement? ==> Apply(t, StatementEffects(s)).tables.variables == t.variables
  {
    match s
    case VariableDeclaration(decls, _) =>
      DeclarationLeavesRegistrations(decls);
      RegistrationsUntouched(t, StatementEffects(s));
    case ExpressionStatement(e, _) =>
      ArgumentsLeaveVariables(ArgumentsOf(e));
      VariablesUntouched(t, StatementEffects(s));
    case OtherStatement(_, _) =>
  }

  // ---------------------------------------------------------------------------
  // Statements that record nothing, and the whole container

  /** Only declarations and `register` calls write: a call through anything
      but a `register` property, an expression without a callee, and any
      other kind of statement leave both tables as they were. */
  lemma NonRegistrationAddsNothing(t: Tables, s: Statement)
    requires s.OtherStatement? ||
             (s.ExpressionStatement? &&
              (CalleeOf(s.expression).None? ||
               (CalleeOf(s.expression).value.MemberExpression? && !IsRegisterCall(s.expression))))
    ensures Apply(t, StatementEffects(s)) == Completed(t)
  {
  }

  /** Walking a body writes the writes of its statements, in order. */
  lemma {:induction false} BodyEffectsPrefix(body: seq<Statement>, n: nat)
    requires n <= |body|
    ensures BodyEffects(body[..n]) <= BodyEffects(body)
    decreases |body|
  {
    if n < |body| {
      var init := body[..|body| - 1];
      assert init[..n] == body[..n];
      BodyEffectsPrefix(init, n);
    } else {
      assert body[..n] == body;
    }
  }

  /** The argument writes of a prefix of the argument list come first. */
  lemma {:induction false} ArgumentsEffectsPrefix(args: seq<Expr>, n: nat)
    requires n <= |args|
    ensures ArgumentsEffects(args[..n]) <= ArgumentsEffects(args)
    decreases |args|
  {
    if n < |args| {
      var init := args[..|args| - 1];
      assert init[..n] == args[..n];
      ArgumentsEffectsPrefix(init, n);
    } else {
      assert args[..n] == args;
    }
  }

  /** A module that does not parse records nothing and leaves the tables as
      they already were (they are never cleared). */
  lemma ParseFailureKeepsTables(t: Tables, text: string, parse: Parser)
    requires parse(RemoveUnhandledText(text)).None?
    ensures Apply(t, ContainerEffects(text, parse)) == Completed(t)
  {
  }

  /** Entries from an earlier analysis persist through a later one, whatever
      the later text is and whether or not its walk raises. */
  lemma EarlierEntriesPersist(t: Tables, first: string, second: string, parse: Parser)
    ensures var after := Apply(Apply(t, ContainerEffects(first, parse)).tables,
                               ContainerEffects(second, parse)).tables;
            t.variables.Keys <= after.variables.Keys && t.registered.Keys <= after.registered.Keys
  {
    var middle := Apply(t, ContainerEffects(first, parse)).tables;
    TablesOnlyGrow(t, ContainerEffects(first, parse));
    TablesOnlyGrow(middle, ContainerEffects(second, parse));
  }
}
