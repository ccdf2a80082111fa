/**
  Worked examples on concrete syntax trees, as esprima lays them out
  (1-based lines, 0-based columns).
 */
module Scenarios {
  import opened Estree
  import opened SymbolTables
  import opened Walker

  function At(line: int, column: int, endLine: int, endColumn: int): Span
  {
    Span(Position(line, column), Position(endLine, endColumn))
  }

  const Empty := Tables(map[], map[])

  /** const container = require('awilix').createContainer(); */
  const ContainerDeclaration: Statement :=
    VariableDeclaration([
      VariableDeclarator(
        IdentifierPattern("container", At(1, 6, 1, 15)),
        Some(CallExpression(
          MemberExpression(
            CallExpression(Identifier("require", At(1, 18, 1, 25)),
                           [Literal("'awilix'", At(1, 26, 1, 34))], At(1, 18, 1, 35)),
            Identifier("createContainer", At(1, 36, 1, 51)), At(1, 18, 1, 51)),
          [], At(1, 18, 1, 53))),
        At(1, 6, 1, 53))],
      At(1, 0, 1, 54))

  /** container.register({
        userService: asClass(UserService)
      }); */
  const RegisterUserService: Statement :=
    ExpressionStatement(
      CallExpression(
        MemberExpression(Identifier("container", At(2, 0, 2, 9)),
                         Identifier("register", At(2, 10, 2, 18)), At(2, 0, 2, 18)),
        [ObjectExpression([
           Property(Identifier("userService", At(3, 2, 3, 13)),
                    CallExpression(Identifier("asClass", At(3, 15, 3, 22)),
                                   [Identifier("UserService", At(3, 23, 3, 34))], At(3, 15, 3, 35)),
                    At(3, 2, 3, 35))],
           At(2, 19, 4, 1))],
        At(2, 0, 4, 2)),
      At(2, 0, 4, 3))

  /** The chained `require('awilix').createContainer()` is an ordinary call
      (its callee is a member access, so it has no `ref`), not a `require`;
      the registration points at the `userService` key and names `asClass`
      and `UserService`. */
  lemma ContainerScenario()
    ensures Apply(Empty, BodyEffects([ContainerDeclaration, RegisterUserService])) ==
            Completed(Tables(
              map["container" := Variable(Some("container"), Some("CallExpression"), At(1, 6, 1, 53), None, None)],
              map["userService" := Registration(Some("userService"), "Identifier", At(3, 2, 3, 13), Some("asClass"),
                                                Some(ArgumentInfo("Identifier", Some("UserService"), None)))]))
  {
    var body := [ContainerDeclaration, RegisterUserService];
    assert body[..1] == [ContainerDeclaration];
    assert body[..1][..0] == [];
    var d := ContainerDeclaration.declarations[0];
    assert DeclarationEffects(ContainerDeclaration.declarations) == [SetVariable("container", IdentifierEntry(d))];
    var args := RegisterUserService.expression.arguments;
    assert args[..0] == [];
    assert ArgumentsEffects(args) == ArgumentEffects(args[0]);
    assert BodyEffects(body) == BodyEffects(body[..1]) + StatementEffects(RegisterUserService);
    ApplyConcat(Empty, BodyEffects(body[..1]), StatementEffects(RegisterUserService));
  }

  /** const { a, b } = obj; */
  const Destructuring: Statement :=
    VariableDeclaration([
      VariableDeclarator(
        ObjectPattern([PatternProperty(Identifier("a", At(1, 8, 1, 9)), At(1, 8, 1, 9)),
                       PatternProperty(Identifier("b", At(1, 11, 1, 12)), At(1, 11, 1, 12))],
                      At(1, 6, 1, 14)),
        Some(Identifier("obj", At(1, 17, 1, 20))),
        At(1, 6, 1, 20))],
      At(1, 0, 1, 21))

  /** Both names are bound, each with `ref` "obj" and the declarator's location. */
  lemma DestructuringScenario()
    ensures Apply(Empty, StatementEffects(Destructuring)) ==
            Completed(Tables(
              map["a" := Variable(Some("a"), Some("Identifier"), At(1, 6, 1, 20), None, Some("obj")),
                  "b" := Variable(Some("b"), Some("Identifier"), At(1, 6, 1, 20), None, Some("obj"))],
              map[]))
  {
  }

  /** init();  (on line 1, after the destructuring) */
  const PlainCall: Statement :=
    ExpressionStatement(CallExpression(Identifier("init", At(1, 22, 1, 26)), [], At(1, 22, 1, 28)), At(1, 22, 1, 29))

  /** The module
        const { a, b } = obj; init();
        container.register({
          userService: asClass(UserService)
        });
      A top-level call of a plain function raises a TypeError: the entries
      written before it stay, and the walk goes no further. */
  lemma PlainCallScenario()
    ensures Apply(Empty, BodyEffects([Destructuring, PlainCall, RegisterUserService])).Failed?
    ensures Apply(Empty, BodyEffects([Destructuring, PlainCall, RegisterUserService])).tables ==
            Apply(Empty, StatementEffects(Destructuring)).tables
  {
    var body := [Destructuring, PlainCall, RegisterUserService];
    assert body[..2][..1] == [Destructuring];
    assert body[..2][..1][..0] == [];
    assert body[..2] == [Destructuring, PlainCall];
    var first := StatementEffects(Destructuring);
    assert StatementEffects(PlainCall) == [TypeError];
    assert BodyEffects([Destructuring]) == first;
    assert BodyEffects(body[..2]) == BodyEffects([Destructuring]) + StatementEffects(PlainCall);
    ApplyConcat(Empty, first, [TypeError]);
    DestructuringScenario();
    assert [TypeError][..0] == [];
    FailurePersists(Empty, BodyEffects(body[..2]), BodyEffects(body));
  }

  /** container.register({
        userService: asClass(...deps)
      }); */
  const RegisterSpreadDeps: Statement :=
    ExpressionStatement(
      CallExpression(
        MemberExpression(Identifier("container", At(2, 0, 2, 9)),
                         Identifier("register", At(2, 10, 2, 18)), At(2, 0, 2, 18)),
        [ObjectExpression([
           Property(Identifier("userService", At(3, 2, 3, 13)),
                    CallExpression(Identifier("asClass", At(3, 15, 3, 22)),
                                   [OtherExpression("SpreadElement", At(3, 23, 3, 30))], At(3, 15, 3, 31)),
                    At(3, 2, 3, 31))],
           At(2, 19, 4, 1))],
        At(2, 0, 4, 2)),
      At(2, 0, 4, 3))

  /** A spread as the builder's first argument is described by its tag alone. */
  lemma SpreadArgumentScenario()
    ensures Apply(Empty, StatementEffects(RegisterSpreadDeps)) ==
            Completed(Tables(
              map[],
              map["userService" := Registration(Some("userService"), "Identifier", At(3, 2, 3, 13), Some("asClass"),
                                                Some(ArgumentInfo("SpreadElement", None, None)))]))
  {
  }

  /** container.register(...list);  A spread argument is not an object
      literal, so the call registers nothing. */
  const RegisterSpreadList: Statement :=
    ExpressionStatement(
      CallExpression(
        MemberExpression(Identifier("container", At(1, 0, 1, 9)),
                         Identifier("register", At(1, 10, 1, 18)), At(1, 0, 1, 18)),
        [OtherExpression("SpreadElement", At(1, 19, 1, 26))],
        At(1, 0, 1, 27)),
      At(1, 0, 1, 28))

  lemma SpreadListScenario()
    ensures Apply(Empty, StatementEffects(RegisterSpreadList)) == Completed(Empty)
  {
  }
}
