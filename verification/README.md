# Awilix container definitions: the container walker, in Dafny

This project models the container-analysis walker of the VS Code extension
"awilix-vscode-container-definitions" (`src/parseContainer.ts`). The extension
answers "go to definition" for names declared in an Awilix container file. It
parses the file with esprima. It then walks the top-level statements and fills
two name-keyed tables:

- `variables` holds the top-level `const`/`let`/`var` bindings. These are
  simple identifiers and `{ a, b } = obj` destructuring.
- `registered` holds the services registered through `<obj>.register({ key:
  builder(arg), ... })`.

Both tables are module-level objects. They are written in place and never
cleared, so every analysis adds to what earlier analyses left.

Layout:

- `estree.dfy` (`Estree`) is the subset of the ESTree syntax tree the walker
  inspects. Every node kind it tests for has its own constructor. All other
  kinds fall into `Other…` constructors, whose tag can never be one of the
  modelled tags.
- `text_prep.dfy` (`TextPrep`) models `removeUnhandledText`: only the first
  `"..."` is removed, as with the string-pattern `String.prototype.replace`
  (ECMA-262, section 22.1.3.19).
- `symbol_tables.dfy` (`SymbolTables`) holds the table entries and the walker's
  steps (`Effect`: write a variable, write a registration, skip, or raise a
  TypeError). `Apply` replays a list of steps and stops at the first
  TypeError, keeping the writes made before it. Its lemmas cover last write
  wins, tables that only grow, and where a failing run stops.
- `walker.dfy` (`Walker`) states, as pure functions, the writes each source
  function performs on its input, in order. It also holds the pure
  classifications: `IdentifierEntry` (lines 33-59) and `ClassifyArguments`
  (`parseObjectExpressionArguments`).
- `walker_properties.dfy` (`WalkerProperties`) states, per statement shape,
  what ends up in the tables.
- `container.dfy` (`ContainerAnalysis.Container`) is the class with the two
  map fields. Its methods run the source's index loops and early returns.
  Each method is proved to leave the tables exactly as `Apply` leaves them
  after the writes `Walker` lists for its input.
- `scenarios.dfy` (`Scenarios`) holds worked examples on concrete trees.

Where the code raises a TypeError, the model raises one too. The `try` at
`src/parseContainer.ts:190-194` guards only the parse. So the exception
propagates out of `parseContainer` (its promise rejects), and the entries
written before it stay in the tables. The raising shapes are:

- a property value with no `callee` inside a `register` argument (line 105);
- a spread element `...services` inside a `register` argument: it has no
  `value`, so reading `value.type` raises (line 105);
- an expression statement whose callee has no `property`, such as a plain `init();` (line 149);
- a rest element in an object pattern, which has no `key` (line 68);
- an identifier key in an object pattern when the declarator has no
  initializer (line 72). The parser never produces this shape.

Where the code departs from what it evidently intends, the model follows the
code:

- At line 105 the guard is `value.type !== 'CallExpression' && value.callee.type !== 'Identifier'`.
  A call value is therefore always registered, whatever its callee. For a
  non-identifier callee, the stored `callee` name is `undefined`. A `new` value is registered
  when its callee is an identifier. A `new` whose callee is not an identifier
  is skipped by the `continue` at line 106. Every value without a `callee`
  raises. A reader would
  expect non-call values, and calls through a non-identifier callee, to be
  skipped.
- The tables are never reset. A parse failure returns the tables as they
  already were, not empty tables.
- Consider `const container = require('awilix').createContainer()`. It is
  recorded with `type` "CallExpression" and no `ref`, because the direct
  callee is a member access. It is not recorded as a module import.
- Entries store the node's `type` string rather than a separate enumeration of
  declaration kinds. `raw` and `ref` are never both set. A call through a
  non-identifier callee has neither, and so does any other initializer.

## Model

| member | source | states |
|---|---|---|
| TextPrep.FirstOccurrence | src/parseContainer.ts:181 | the index found is an occurrence of the pattern with none before it; no index means no occurrence at all |
| TextPrep.RemoveUnhandledText | src/parseContainer.ts:180-183 | text without "..." is returned unchanged; otherwise the result is 3 characters shorter and is the text with exactly its leftmost "..." cut out |
| TextPrep.LaterPlaceholdersSurvive | src/parseContainer.ts:180-183 | every "..." after the first survives, shifted left by 3; text before the first keeps its positions |
| SymbolTables.KeyOf | src/parseContainer.ts:68 | a present name is its own table key (a missing one becomes "undefined") |
| SymbolTables.ApplyConcat | src/parseContainer.ts:162-178 | walking two parts in sequence is walking the first, then, unless it raised, the second |
| SymbolTables.FailsIffTypeError | src/parseContainer.ts:185-201 | an analysis fails exactly when one of its steps raises a TypeError |
| SymbolTables.StopsAtTypeError | src/parseContainer.ts:190-197 | a TypeError ends the analysis, and exactly the writes before it remain in the tables |
| SymbolTables.VariablesLastWriteWins | src/parseContainer.ts:61 | after a run without TypeError each variable holds the value last written to it, or what it held before; nothing is removed |
| SymbolTables.RegistrationsLastWriteWins | src/parseContainer.ts:120 | after a run without TypeError each registration holds the value last written to it, or what it held before |
| SymbolTables.TablesOnlyGrow | src/parseContainer.ts:29-30 | no name ever leaves either table, whether or not the run raises |
| SymbolTables.UnwrittenVariableKept | src/parseContainer.ts:61-68 | a name no step writes keeps its variable entry (or its absence), even in a failing run |
| SymbolTables.UnwrittenRegistrationKept | src/parseContainer.ts:120 | a name no step writes keeps its registration (or its absence), even in a failing run |
| SymbolTables.VariablesUntouched | src/parseContainer.ts:147-160 | steps that write no variable leave `variables` equal to what it was |
| SymbolTables.RegistrationsUntouched | src/parseContainer.ts:125-145 | steps that write no registration leave `registered` equal to what it was |
| SymbolTables.FailurePersists | src/parseContainer.ts:190-197 | once a prefix of the walk has raised, the rest of the walk changes nothing |
| SymbolTables.LastVariableAt | src/parseContainer.ts:61 | a write with no later write to the same name is the one that remains |
| SymbolTables.LastRegistrationAt | src/parseContainer.ts:120 | a registration with no later one under the same name is the one that remains |
| SymbolTables.LastRegistrationConcat | src/parseContainer.ts:120 | of two runs in a row, the second's last registration under a name wins, else the first's |
| SymbolTables.NoLastRegistration | src/parseContainer.ts:120 | a run that writes no registration under a name has no last registration under it |
| Walker.IdentifierEntry | src/parseContainer.ts:32-62 | the entry is named after the binding, has the declarator's loc and the initializer's type, and never has both raw and ref; require(...) sets raw to the argument list, another call sets ref to the callee's name (absent for a non-identifier callee), a literal sets raw, an identifier sets ref, anything else neither |
| Walker.ClassifyArguments | src/parseContainer.ts:78-99 | nothing for an empty argument list; otherwise argType is the first argument's type, ref is set iff it is an Identifier (to its name), raw is set iff it is a Literal (to its text) |
| Walker.LaterArgumentsIgnored | src/parseContainer.ts:83-92 | arguments after the first never change the classification |
| WalkerProperties.OnlyFirstDeclarator | src/parseContainer.ts:136-145 | a declaration writes exactly what its first VariableDeclarator writes; later declarators add nothing |
| WalkerProperties.NoDeclaratorNoEffects | src/parseContainer.ts:136-145 | a declaration without a VariableDeclarator writes nothing |
| WalkerProperties.DeclaringIdentifier | src/parseContainer.ts:32-62 | `const x = init` writes one variable entry, under x, replacing any earlier one and changing nothing else; its type is the initializer's and at most one of raw/ref is set |
| WalkerProperties.ObjectPatternBinds | src/parseContainer.ts:64-76 | each destructured key is stored under its name with the key's type, the whole declarator's loc, and ref = the initializer's name exactly for identifier keys; a repeated key keeps the last element; `registered` is untouched |
| WalkerProperties.ObjectPatternOnlyBindsKeys | src/parseContainer.ts:64-76 | destructuring writes no name other than its keys |
| WalkerProperties.ObjectPatternFault | src/parseContainer.ts:67-72 | a rest element, or an identifier key without initializer, raises; the elements before it stay written |
| WalkerProperties.ArgumentsEffectsConcat | src/parseContainer.ts:151-158 | the arguments are walked one after another: the writes of two argument lists in a row are the writes of each, in order |
| WalkerProperties.NonObjectArgumentSkipped | src/parseContainer.ts:151-157 | an argument of `register` that is not an object literal is skipped: the call writes exactly what it writes without that argument |
| WalkerProperties.NoObjectArgumentNoEffects | src/parseContainer.ts:151-157 | an argument list without an object literal writes nothing |
| WalkerProperties.RegisterWithoutObjectKeepsTables | src/parseContainer.ts:147-160 | a `register` call without an object-literal argument leaves both tables as they were |
| WalkerProperties.ArgumentsLastRecord | src/parseContainer.ts:101-123 | among the writes of a `register` call's arguments, the last one under a property's name is that property's record, when the guard lets the property through and no later property, in its object or a later one, has the same name |
| WalkerProperties.ObjectLastRecord | src/parseContainer.ts:104-121 | within one object literal, the last write under a let-through property's name is its own record when no later property has that name |
| WalkerProperties.ArgumentAvoidsKey | src/parseContainer.ts:101-123 | an argument none of whose properties has a given name writes no registration under that name |
| WalkerProperties.ArgumentsAvoidKey | src/parseContainer.ts:150-153 | arguments none of whose object properties has a given name write no registration under that name, whatever their number |
| WalkerProperties.RegisterOnlyBindsKeys | src/parseContainer.ts:101-123 | a `register` call leaves the `registered` entry (or its absence) under every name no property of its object arguments carries, whether or not the walk raises |
| WalkerProperties.NewThroughMemberSkipped | src/parseContainer.ts:105-107 | a property whose value is a `new` of something other than an identifier is skipped: no write, no TypeError |
| WalkerProperties.ArgumentEffectsIncluded | src/parseContainer.ts:151-158 | the writes for one argument of `register` are among the writes of the whole call |
| WalkerProperties.RegisterCallRecords | src/parseContainer.ts:101-123 | after a `register` call whose walk does not raise, with any number of arguments, each property whose value is a call (any callee) or a `new` of an identifier is in `registered` under the key's name, unless a later property reuses the name; the entry has the key's type, the key's own loc, the callee's name and the first argument's classification; `variables` is unchanged |
| WalkerProperties.SingleObjectArgument | src/parseContainer.ts:147-160 | a `register` call with one object argument writes exactly that object's properties, in order |
| WalkerProperties.RegisterObjectBinds | src/parseContainer.ts:101-123 | for `register({ k: f(a), ... })` each key ends up registered to its own call's record (last one wins on repeats) and `variables` is untouched |
| WalkerProperties.ValueWithoutCalleeRaises | src/parseContainer.ts:105 | a spread element, or a property value with no callee, inside a `register` argument makes the walk raise |
| WalkerProperties.CalleeWithoutPropertyRaises | src/parseContainer.ts:149 | a call statement whose callee is not a member access raises before writing anything |
| WalkerProperties.DeclarationLeavesRegistrations | src/parseContainer.ts:125-145 | a declaration never writes a registration |
| WalkerProperties.ArgumentsLeaveVariables | src/parseContainer.ts:147-160 | a `register` call never writes a variable |
| WalkerProperties.StatementFrame | src/parseContainer.ts:168-177 | a declaration leaves `registered` as it was; an expression statement leaves `variables` as it was |
| WalkerProperties.NonRegistrationAddsNothing | src/parseContainer.ts:147-177 | an expression without callee, a call through a property other than `register`, and any other statement kind leave both tables unchanged |
| WalkerProperties.BodyEffectsPrefix | src/parseContainer.ts:168-177 | the statements are walked in order: the writes of a prefix of the body come first |
| WalkerProperties.ArgumentsEffectsPrefix | src/parseContainer.ts:151-158 | the arguments are walked in order: the writes of a prefix of the arguments come first |
| WalkerProperties.ParseFailureKeepsTables | src/parseContainer.ts:189-200 | a text that does not parse adds nothing and the tables come back as they were |
| WalkerProperties.EarlierEntriesPersist | src/parseContainer.ts:29-30 | names recorded before an analysis are still present after two more analyses of any texts |
| ContainerAnalysis.Container.constructor | src/parseContainer.ts:29-30 | both tables start empty |
| ContainerAnalysis.Container.ParseIdentifierVariable | src/parseContainer.ts:32-62 | writes the classified entry under the bound name and leaves `registered` alone |
| ContainerAnalysis.Container.ParseObjectPatternVariable | src/parseContainer.ts:64-76 | the index loop leaves the tables as the listed writes leave them, and reports a TypeError exactly where they raise |
| ContainerAnalysis.Container.ParseObjectExpression | src/parseContainer.ts:101-123 | the index loop (with its `continue`, its raising guard and the raise on a spread element) leaves the tables as the listed writes leave them |
| ContainerAnalysis.Container.ParseVariableDeclarator | src/parseContainer.ts:125-134 | identifiers and object patterns are dispatched, anything else writes nothing |
| ContainerAnalysis.Container.ParseVariableDeclaration | src/parseContainer.ts:136-145 | returns after walking the first VariableDeclarator, with the tables as its writes leave them |
| ContainerAnalysis.Container.ParseExpressionStatement | src/parseContainer.ts:147-160 | only `register` calls are walked, object arguments only; raises where the callee has no property |
| ContainerAnalysis.Container.GetTheVars | src/parseContainer.ts:162-178 | walks every statement in order and stops at the first TypeError, with the tables as the writes leave them |
| ContainerAnalysis.Container.ParseContainer | src/parseContainer.ts:185-201 | strips the placeholder, parses, walks; returns the tables' contents at that point, or nothing when the walk raised; the tables hold the accumulated writes either way |
| Scenarios.ContainerScenario | src/parseContainer.ts:43-52 | `const container = require('awilix').createContainer()` is a call with no ref; `register({ userService: asClass(UserService) })` registers userService at its key with callee asClass and ref UserService |
| Scenarios.DestructuringScenario | src/parseContainer.ts:64-76 | `const { a, b } = obj` binds a and b, both with ref obj and the declarator's loc |
| Scenarios.PlainCallScenario | src/parseContainer.ts:149 | a top-level `init();` raises, keeping the entries written before it and skipping everything after |
| Scenarios.SpreadArgumentScenario | src/parseContainer.ts:78-84 | in `register({ userService: asClass(...deps) })` the first argument is described by argType "SpreadElement" with no ref and no raw |
| Scenarios.SpreadListScenario | src/parseContainer.ts:150-155 | `container.register(...list)` has no object-literal argument and leaves both tables empty |

## Left out

- The esprima parser (`esprima.parseModule`) is a parameter: a function from the prepared text to a statement list, or to `None` when parsing throws.
- `src/extension.ts` is not part of this model. It is the editor glue: finding the container file, reading the configuration, building editor locations (including the `line - 1` conversion), and the activation messages.
- The `console.log` diagnostics (lines 164 and 193) are left out because they are output only.
- The `async` wrapper and `container.getText()` are left out. `ParseContainer` takes the text directly and returns synchronously. A rejected promise is the `None` result.
- JavaScript grammar beyond the listed node kinds is left out. Unclassified kinds are `Other…` nodes. A spread `...xs` among a call's arguments is such a node, tagged "SpreadElement".
- ContainerAnalysis.Container.ParseContainer: returns the tables as a value. The source returns the module-level objects themselves, so a later analysis also changes what an earlier caller holds. The model does not capture that aliasing.
- Fields the walker never reads are left out. This covers the binding target of a destructured property, a literal's value, and statement kinds (`const`/`let`/`var`).
- A field set to `undefined` and a field never set are both `None`. The model does not distinguish an own property holding `undefined` from a missing one.
- Table keys are plain map keys. The special behaviour of JavaScript object keys such as `__proto__` is not modelled.
- The `data.id.properties` and `props[i].value.arguments` truthiness tests (lines 65 and 115) are not modelled as branches. The parser always supplies these lists, and a list is truthy even when empty.
