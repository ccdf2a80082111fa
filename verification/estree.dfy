/**
  The subset of the ESTree syntax tree (as produced by esprima's `parseModule`
  with `loc: true`) that the container walker inspects.

  Every node kind the walker tests for has its own constructor; every other
  kind falls into an `Other…` constructor whose tag is a string that is NOT
  one of the modelled tags, so that the `type` string of a node and its
  constructor always agree.
 */
module Estree {

  datatype Option<+T> = None | Some(value: T)

  /** A source position: 1-based line, 0-based column. */
  datatype Position = Position(line: int, column: int)

  /** A node's `loc`: its start and end positions. */
  datatype Span = Span(start: Position, end: Position)

  /** The node tags the walker compares against. */
  const ModelledKinds: set<string> := {
    "Identifier", "Literal", "CallExpression", "NewExpression",
    "MemberExpression", "ObjectExpression", "ObjectPattern", "RestElement",
    "Property", "VariableDeclarator", "VariableDeclaration", "ExpressionStatement"
  }

  /** The tag of a node kind that the walker does not classify. */
  type OtherKind = s: string | s !in ModelledKinds witness "ThisExpression"

  datatype Expr =
    | Identifier(name: string, loc: Span)
    | Literal(raw: string, loc: Span)
    | CallExpression(callee: Expr, arguments: seq<Expr>, loc: Span)
    | NewExpression(callee: Expr, arguments: seq<Expr>, loc: Span)
    | MemberExpression(obj: Expr, property: Expr, loc: Span)
    | ObjectExpression(properties: seq<Property>, loc: Span)
    | OtherExpression(kind: OtherKind, loc: Span)

  /** An element of an object literal: a property `key: value`, or a spread
      `...argument`, which has neither `key` nor `value`. */
  datatype Property =
    | Property(key: Expr, value: Expr, loc: Span)
    | SpreadElement(argument: Expr, loc: Span)

  /** The binding target of a declarator. */
  datatype Pattern =
    | IdentifierPattern(name: string, loc: Span)
    | ObjectPattern(properties: seq<PatternProperty>, loc: Span)
    | OtherPattern(kind: OtherKind, loc: Span)

  /** An element of an object pattern: a `key` (with its binding), or `...rest`,
      which has no `key`. */
  datatype PatternProperty =
    | PatternProperty(key: Expr, loc: Span)
    | RestElement(loc: Span)

  datatype Declarator =
    | VariableDeclarator(id: Pattern, init: Option<Expr>, loc: Span)
    | OtherDeclarator(kind: OtherKind, loc: Span)

  datatype Statement =
    | VariableDeclaration(declarations: seq<Declarator>, loc: Span)
    | ExpressionStatement(expression: Expr, loc: Span)
    | OtherStatement(kind: OtherKind, loc: Span)

  /** The `type` tag of an expression node. */
  function TypeOf(e: Expr): (r: string)
    ensures r in ModelledKinds <==> !e.OtherExpression?
  {
    match e
    case Identifier(_, _) => "Identifier"
    case Literal(_, _) => "Literal"
    case CallExpression(_, _, _) => "CallExpression"
    case NewExpression(_, _, _) => "NewExpression"
    case MemberExpression(_, _, _) => "MemberExpression"
    case ObjectExpression(_, _) => "ObjectExpression"
    case OtherExpression(kind, _) => kind
  }

  /** `node.name`: present on identifiers only, `undefined` elsewhere. */
  function NameOf(e: Expr): (r: Option<string>)
    ensures r.Some? <==> TypeOf(e) == "Identifier"
  {
    if e.Identifier? then Some(e.name) else None
  }

  /** `node.callee`: present on call and `new` expressions only. */
  function CalleeOf(e: Expr): (r: Option<Expr>)
    ensures r.Some? <==> TypeOf(e) in {"CallExpression", "NewExpression"}
  {
    match e
    case CallExpression(callee, _, _) => Some(callee)
    case NewExpression(callee, _, _) => Some(callee)
    case _ => None
  }

  /** `node.arguments` of a call or `new` expression (the empty list elsewhere,
      where the walker never reads it). */
  function ArgumentsOf(e: Expr): seq<Expr>
  {
    match e
    case CallExpression(_, args, _) => args
    case NewExpression(_, args, _) => args
    case _ => []
  }
}
