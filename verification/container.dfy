/**
  The walker as the source runs it: two module-level tables, `variables` and
  `registered`, written in place by index loops and never cleared, so every
  analysis adds to what earlier ones left.

  A TypeError raised by the code as written is a `false` result that every
  caller passes straight up (the exception propagating); the writes made
  before it stay in the tables. Each method is proved to leave the tables
  exactly as `Apply` replays the writes `Walker` lists for its input.
 */
module ContainerAnalysis {
  import opened Estree
  import opened SymbolTables
  import opened TextPrep
  import opened Walker
  import opened WalkerProperties

  class Container {
    var variables: map<string, Variable>
    var registered: map<string, Registration>

    function Snapshot(): Tables
      reads this
    {
      Tables(variables, registered)
    }

    /** The outcome a method reports: `ok` false means a TypeError was raised. */
    function Report(ok: bool): Outcome
      reads this
    {
      if ok then Completed(Snapshot()) else Failed(Snapshot())
    }

    /** The tables as the module is loaded: both empty. */
    constructor ()
      ensures variables == map[] && registered == map[]
    {
      variables := map[];
      registered := map[];
    }

    /** `parseIdentifierVariable`: one entry under the bound name, replacing
        any earlier one. */
    method ParseIdentifierVariable(d: Declarator)
      requires d.VariableDeclarator? && d.id.IdentifierPattern?
      modifies this
      ensures variables == old(variables)[d.id.name := IdentifierEntry(d)]
      ensures registered == old(registered)
      ensures Completed(Snapshot()) == Apply(old(Snapshot()), DeclaratorEffects(d))
    {
      variables := variables[d.id.name := IdentifierEntry(d)];
    }

    /** `parseObjectPatternVariable`. The `properties` test of the source always
        passes: an object pattern always has its list. */
    method ParseObjectPatternVariable(d: Declarator) returns (ok: bool)
      requires d.VariableDeclarator? && d.id.ObjectPattern?
      modifies this
      ensures Report(ok) == Apply(old(Snapshot()), DeclaratorEffects(d))
    {
      var props := d.id.properties;
      ghost var effects := PatternEffects(props, d.init, d.loc);
      for i := 0 to |props|
        invariant Apply(old(Snapshot()), effects[..i]) == Completed(Snapshot())
      {
        assert effects[..i + 1][..i] == effects[..i];
        if props[i].RestElement? {
          // `props[i].key.name` with no `key`
          FailurePersists(old(Snapshot()), effects[..i + 1], effects);
          return false;
        }
        var key := props[i].key;
        if TypeOf(key) == "Identifier" && d.init.None? {
          // `data.init.name` with no `init`
          FailurePersists(old(Snapshot()), effects[..i + 1], effects);
          return false;
        }
        var ref := if TypeOf(key) == "Identifier" then NameOf(d.init.value) else None;
        variables := variables[KeyOf(NameOf(key)) := Variable(NameOf(key), Some(TypeOf(key)), d.loc, None, ref)];
      }
      assert effects[..|props|] == effects;
      return true;
    }

    /** `parseObjectExpression`, for one object-literal argument of `register`. */
    method ParseObjectExpression(arg: Expr) returns (ok: bool)
      requires arg.ObjectExpression?
      modifies this
      ensures Report(ok) == Apply(old(Snapshot()), ObjectEffects(arg.properties))
    {
      var props := arg.properties;
      ghost var effects := ObjectEffects(props);
      for i := 0 to |props|
        invariant Apply(old(Snapshot()), effects[..i]) == Completed(Snapshot())
      {
        assert effects[..i + 1][..i] == effects[..i];
        if props[i].SpreadElement? {
          // `props[i].value.type` with no `value`
          FailurePersists(old(Snapshot()), effects[..i + 1], effects);
          return false;
        }
        var value := props[i].value;
        if TypeOf(value) != "CallExpression" {
          var callee := CalleeOf(value);
          if callee.None? {
            // `props[i].value.callee.type` with no `callee`
            FailurePersists(old(Snapshot()), effects[..i + 1], effects);
            return false;
          }
          if TypeOf(callee.value) != "Identifier" {
            continue;
          }
        }
        var key := props[i].key;
        var output := Registration(NameOf(key), TypeOf(key), key.loc, NameOf(CalleeOf(value).value),
                                   ClassifyArguments(ArgumentsOf(value)));
        registered := registered[KeyOf(NameOf(key)) := output];
      }
      assert effects[..|props|] == effects;
      return true;
    }

    /** `parseVariableDeclarator`: identifiers and object patterns are walked,
        any other binding target is skipped. */
    method ParseVariableDeclarator(d: Declarator) returns (ok: bool)
      requires d.VariableDeclarator?
      modifies this
      ensures Report(ok) == Apply(old(Snapshot()), DeclaratorEffects(d))
    {
      match d.id
      case IdentifierPattern(_, _) =>
        ParseIdentifierVariable(d);
        ok := true;
      case ObjectPattern(_, _) =>
        ok := ParseObjectPatternVariable(d);
      case OtherPattern(_, _) =>
        ok := true;
    }

    /** `parseVariableDeclaration`: returns after the first `VariableDeclarator`. */
    method ParseVariableDeclaration(decls: seq<Declarator>) returns (ok: bool)
      modifies this
      ensures Report(ok) == Apply(old(Snapshot()), DeclarationEffects(decls))
    {
      for i := 0 to |decls|
        invariant forall j :: 0 <= j < i ==> !decls[j].VariableDeclarator?
        invariant Snapshot() == old(Snapshot())
      {
        if decls[i].VariableDeclarator? {
          OnlyFirstDeclarator(decls, i);
          ok := ParseVariableDeclarator(decls[i]);
          return;
        }
      }
      NoDeclaratorNoEffects(decls);
      return true;
    }

    /** `parseExpressionStatement`: only `<obj>.register(...)` calls are walked,
        and of their arguments only object literals. */
    method ParseExpressionStatement(s: Statement) returns (ok: bool)
      requires s.ExpressionStatement?
      modifies this
      ensures Report(ok) == Apply(old(Snapshot()), ExpressionEffects(s.expression))
    {
      var callee := CalleeOf(s.expression);
      if callee.None? {
        return true;
      }
      if !callee.value.MemberExpression? {
        // `callee.property.name` with no `property`
        assert ExpressionEffects(s.expression)[..0] == [];
        return false;
      }
      if NameOf(callee.value.property) != Some("register") {
        return true;
      }
      var args := ArgumentsOf(s.expression);
      for i := 0 to |args|
        invariant Apply(old(Snapshot()), ArgumentsEffects(args[..i])) == Completed(Snapshot())
      {
        assert args[..i + 1][..i] == args[..i];
        ApplyConcat(old(Snapshot()), ArgumentsEffects(args[..i]), ArgumentEffects(args[i]));
        if TypeOf(args[i]) == "ObjectExpression" {
          var argOk := ParseObjectExpression(args[i]);
          if !argOk {
            ArgumentsEffectsPrefix(args, i + 1);
            FailurePersists(old(Snapshot()), ArgumentsEffects(args[..i + 1]), ArgumentsEffects(args));
            return false;
          }
        }
      }
      assert args[..|args|] == args;
      return true;
    }

    /** `getTheVars`: every statement of the module body, in order. */
    method GetTheVars(body: seq<Statement>) returns (ok: bool)
      modifies this
      ensures Report(ok) == Apply(old(Snapshot()), BodyEffects(body))
    {
      if |body| == 0 {
        // "No declarations found" is logged
        return true;
      }
      for i := 0 to |body|
        invariant Apply(old(Snapshot()), BodyEffects(body[..i])) == Completed(Snapshot())
      {
        assert body[..i + 1][..i] == body[..i];
        ApplyConcat(old(Snapshot()), BodyEffects(body[..i]), StatementEffects(body[i]));
        var stepOk := true;
        match body[i] {
          case VariableDeclaration(decls, _) =>
            stepOk := ParseVariableDeclaration(decls);
          case ExpressionStatement(_, _) =>
            stepOk := ParseExpressionStatement(body[i]);
          case OtherStatement(_, _) =>
        }
        if !stepOk {
          BodyEffectsPrefix(body, i + 1);
          FailurePersists(old(Snapshot()), BodyEffects(body[..i + 1]), BodyEffects(body));
          return false;
        }
      }
      assert body[..|body|] == body;
      return true;
    }

    /** `parseContainer`: the tables after walking the parsed text, or
        `None` when the walk raised (the returned promise rejects). A parse
        failure is caught and the tables are returned as they were. The
        result is a value: later analyses do not change it. */
    method ParseContainer(text: string, parse: Parser) returns (result: Option<Tables>)
      modifies this
      ensures Snapshot() == Apply(old(Snapshot()), ContainerEffects(text, parse)).tables
      ensures result.Some? <==> Apply(old(Snapshot()), ContainerEffects(text, parse)).Completed?
      ensures result.Some? ==> result.value == Snapshot()
    {
      var preparedText := RemoveUnhandledText(text);
      var parsed := parse(preparedText);
      if parsed.Some? {
        var ok := GetTheVars(parsed.value);
        if !ok {
          return None;
        }
      }
      return Some(Snapshot());
    }
  }
}
