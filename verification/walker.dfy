/**
  The container walker of `src/parseContainer.ts` as pure functions: for each
  construct, the sequence of table writes the walker performs on it, in order,
  ending in a TypeError where the code as written dereferences a missing
  field. `ContainerAnalysis` replays these writes on its two tables.
 */
module Walker {
  import opened Estree
  import opened SymbolTables
  import opened TextPrep

  /** The parser, `esprima.parseModule(text, { loc: true })`: the module body,
      or `None` when it throws. */
  type Parser = string -> Option<seq<Statement>>

  /** `init` is a call of the identifier `require`. */
  predicate IsRequireCall(init: Expr)
  {
    init.CallExpression? && init.callee.Identifier? && init.callee.name == "require"
  }

  /** The entry `parseIdentifierVariable` stores for `const <name> = <init>`. */
  function IdentifierEntry(d: Declarator): (v: Variable)
    requires d.VariableDeclarator? && d.id.IdentifierPattern?
    ensures v.name == Some(d.id.name) && v.loc == d.loc
    ensures v.kind == (if d.init.Some? then Some(TypeOf(d.init.value)) else None)
    ensures !(v.raw.Some? && v.ref.Some?)
    ensures v.raw.Some? <==> d.init.Some? && (IsRequireCall(d.init.value) || d.init.value.Literal?)
    ensures v.ref.Some? <==>
              d.init.Some? && !IsRequireCall(d.init.value) &&
              (d.init.value.Identifier? || (d.init.value.CallExpression? && d.init.value.callee.Identifier?))
    ensures d.init.Some? && IsRequireCall(d.init.value) ==> v.raw == Some(ArgumentList(d.init.value.arguments))
    ensures d.init.Some? && d.init.value.CallExpression? && !IsRequireCall(d.init.value) ==>
              v.ref == NameOf(d.init.value.callee)
    ensures d.init.Some? && d.init.value.Literal? ==> v.raw == Some(RawText(d.init.value.raw))
    ensures d.init.Some? && d.init.value.Identifier? ==> v.ref == Some(d.init.value.name)
  {
    var kind := if d.init.Some? then Some(TypeOf(d.init.value)) else None;
    var output := Variable(Some(d.id.name), kind, d.loc, None, None);
    if kind == Some("CallExpression") && IsRequireCall(d.init.value) then
      output.(raw := Some(ArgumentList(d.init.value.arguments)))
    else if kind == Some("CallExpression") then
      output.(ref := NameOf(d.init.value.callee))
    else if kind == Some("Literal") then
      output.(raw := Some(RawText(d.init.value.raw)))
    else if kind == Some("Identifier") then
      output.(ref := Some(d.init.value.name))
    else
      output
  }

  /** `parseObjectExpressionArguments`: nothing for an empty argument list,
      otherwise a description of the first argument alone. */
  function ClassifyArguments(args: seq<Expr>): (r: Option<ArgumentInfo>)
    ensures r.None? <==> args == []
    ensures r.Some? ==> r.value.argType == TypeOf(args[0])
    ensures r.Some? ==> (r.value.ref.Some? <==> args[0].Identifier?) && r.value.ref == NameOf(args[0])
    ensures r.Some? ==> (r.value.raw.Some? <==> args[0].Literal?)
    ensures r.Some? && args[0].Literal? ==> r.value.raw == Some(args[0].raw)
  {
    if |args| == 0 then None
    else
      var first := args[0];
      if TypeOf(first) == "Identifier" then Some(ArgumentInfo(TypeOf(first), Some(first.name), None))
      else if TypeOf(first) == "Literal" then Some(ArgumentInfo(TypeOf(first), None, Some(first.raw)))
      else Some(ArgumentInfo(TypeOf(first), None, None))
  }

  /** Arguments after the first do not change the classification. */
  lemma LaterArgumentsIgnored(args: seq<Expr>, more: seq<Expr>)
    requires args != []
    ensures ClassifyArguments(args[..1] + more) == ClassifyArguments(args)
  {
  }

  /** The write for one element of an object pattern (`parseObjectPatternVariable`,
      one loop iteration). `loc` is the whole declarator's. A rest element has no
      `key`, and an identifier key reads `init.name`, so both can raise. */
  function PatternEffect(p: PatternProperty, init: Option<Expr>, loc: Span): Effect
  {
    match p
    case RestElement(_) => TypeError
    case PatternProperty(key, _) =>
      if TypeOf(key) == "Identifier" && init.None? then TypeError
      else
        var ref := if TypeOf(key) == "Identifier" then NameOf(init.value) else None;
        SetVariable(KeyOf(NameOf(key)), Variable(NameOf(key), Some(TypeOf(key)), loc, None, ref))
  }

  function PatternEffects(props: seq<PatternProperty>, init: Option<Expr>, loc: Span): seq<Effect>
  {
    seq(|props|, i requires 0 <= i < |props| => PatternEffect(props[i], init, loc))
  }

  /** The entry `parseObjectExpression` stores for a property `key: value`
      where `value` has a `callee`. */
  function RegistrationOf(p: Property): Registration
    requires p.Property? && CalleeOf(p.value).Some?
  {
    Registration(NameOf(p.key), TypeOf(p.key), p.key.loc, NameOf(CalleeOf(p.value).value),
                 ClassifyArguments(ArgumentsOf(p.value)))
  }

  /** One loop iteration of `parseObjectExpression`. The guard tests that the
      value is not a call AND that its callee is not an identifier, so a call
      always passes, whatever its callee; a `new` expression passes when its
      callee is an identifier and is skipped by the `continue` otherwise; any
      other value has no `callee` and raises. A spread element has no
      `value`, so reading its `type` raises. */
  function RegistrationEffect(p: Property): Effect
  {
    if p.SpreadElement? then TypeError
    else if TypeOf(p.value) != "CallExpression" then
      match CalleeOf(p.value)
      case None => TypeError
      case Some(callee) =>
        if TypeOf(callee) != "Identifier" then Skip
        else SetRegistration(KeyOf(NameOf(p.key)), RegistrationOf(p))
    else SetRegistration(KeyOf(NameOf(p.key)), RegistrationOf(p))
  }

  function ObjectEffects(props: seq<Property>): seq<Effect>
  {
    seq(|props|, i requires 0 <= i < |props| => RegistrationEffect(props[i]))
  }

  /** One argument of a `register` call: only object literals are walked
      (the `type === 'ObjectExpression'` test, which `TypeOf` shows holds
      exactly of the `ObjectExpression` constructor). */
  function ArgumentEffects(arg: Expr): seq<Effect>
  {
    if arg.ObjectExpression? then ObjectEffects(arg.properties) else []
  }

  function ArgumentsEffects(args: seq<Expr>): seq<Effect>
    decreases |args|
  {
    if args == [] then []
    else ArgumentsEffects(args[..|args| - 1]) + ArgumentEffects(args[|args| - 1])
  }

  /** `parseExpressionStatement`: a call whose callee has no `property` raises. */
  function ExpressionEffects(e: Expr): seq<Effect>
  {
    match CalleeOf(e)
    case None => []
    case Some(callee) =>
      if !callee.MemberExpression? then [TypeError]
      else if NameOf(callee.property) == Some("register") then ArgumentsEffects(ArgumentsOf(e))
      else []
  }

  /** `parseVariableDeclarator`. */
  function DeclaratorEffects(d: Declarator): seq<Effect>
    requires d.VariableDeclarator?
  {
    match d.id
    case IdentifierPattern(name, _) => [SetVariable(name, IdentifierEntry(d))]
    case ObjectPattern(props, _) => PatternEffects(props, d.init, d.loc)
    case OtherPattern(_, _) => []
  }

  /** `parseVariableDeclaration`: the first declarator alone is walked. */
  function DeclarationEffects(decls: seq<Declarator>): seq<Effect>
    decreases |decls|
  {
    if decls == [] then []
    else if decls[0].VariableDeclarator? then DeclaratorEffects(decls[0])
    else DeclarationEffects(decls[1..])
  }

  /** One iteration of `getTheVars`. */
  function StatementEffects(s: Statement): seq<Effect>
  {
    match s
    case VariableDeclaration(decls, _) => DeclarationEffects(decls)
    case ExpressionStatement(e, _) => ExpressionEffects(e)
    case OtherStatement(_, _) => []
  }

  /** `getTheVars`: the statements of the module body, in order. */
  function BodyEffects(body: seq<Statement>): seq<Effect>
    decreases |body|
  {
    if body == [] then []
    else BodyEffects(body[..|body| - 1]) + StatementEffects(body[|body| - 1])
  }

  /** `parseContainer`: strip the placeholder, parse, walk the body if there is one. */
  function ContainerEffects(text: string, parse: Parser): seq<Effect>
  {
    match parse(RemoveUnhandledText(text))
    case None => []
    case Some(body) => BodyEffects(body)
  }
}
