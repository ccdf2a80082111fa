/**
  The two name-keyed symbol tables the container walker fills, and the
  writes it performs on them.

  The walker never reads either table: everything it does is a sequence of
  writes, cut short by the first TypeError it raises. `Apply` replays such a
  sequence; the lemmas here say what the tables hold afterwards (last write
  wins, nothing is ever removed, a TypeError keeps the writes before it).
 */
module SymbolTables {
  import opened Estree

  /** The `raw` of a variable: the argument list of a `require(...)` call, or
      the source text of a literal. */
  datatype Raw = ArgumentList(args: seq<Expr>) | RawText(text: string)

  /** An entry of `variables`. `kind` is the entry's `type` field; a field the
      walker sets to `undefined` (or does not set) is `None`. */
  datatype Variable = Variable(
    name: Option<string>,
    kind: Option<string>,
    loc: Span,
    raw: Option<Raw>,
    ref: Option<string>)

  /** What `parseObjectExpressionArguments` makes of a non-empty argument list. */
  datatype ArgumentInfo = ArgumentInfo(argType: string, ref: Option<string>, raw: Option<string>)

  /** An entry of `registered`. `argument` is `None` when the builder call has
      no arguments, in which case the entry has no `argType`, `ref` or `raw`. */
  datatype Registration = Registration(
    name: Option<string>,
    kind: string,
    loc: Span,
    callee: Option<string>,
    argument: Option<ArgumentInfo>)

  /** The two tables, `variables` and `registered`. */
  datatype Tables = Tables(variables: map<string, Variable>, registered: map<string, Registration>)

  /** The state after a run of the walker: it returned normally, or it raised
      a TypeError with the tables as they were when it was raised. */
  datatype Outcome = Completed(tables: Tables) | Failed(tables: Tables)

  /** One step of the walker. */
  datatype Effect =
    | SetVariable(key: string, variable: Variable)
    | SetRegistration(key: string, registration: Registration)
    | Skip
    | TypeError

  /** A JavaScript object key: a missing name is converted to "undefined". */
  function KeyOf(name: Option<string>): (k: string)
    ensures name.Some? ==> k == name.value
  {
    match name
    case Some(s) => s
    case None => "undefined"
  }

  function Lookup<V>(m: map<string, V>, k: string): Option<V>
  {
    if k in m then Some(m[k]) else None
  }

  function Perform(t: Tables, e: Effect): Outcome
  {
    match e
    case SetVariable(k, v) => Completed(t.(variables := t.variables[k := v]))
    case SetRegistration(k, r) => Completed(t.(registered := t.registered[k := r]))
    case Skip => Completed(t)
    case TypeError => Failed(t)
  }

  /** Replays `effects` on `t`, stopping at the first TypeError. */
  function Apply(t: Tables, effects: seq<Effect>): Outcome
    decreases |effects|
  {
    if effects == [] then Completed(t)
    else
      match Apply(t, effects[..|effects| - 1])
      case Failed(t') => Failed(t')
      case Completed(t') => Perform(t', effects[|effects| - 1])
  }

  /** Continues an outcome with more effects; a failure stays as it is. */
  function Then(o: Outcome, effects: seq<Effect>): Outcome
  {
    match o
    case Failed(t) => Failed(t)
    case Completed(t) => Apply(t, effects)
  }

  /** The value of the last write to `variables[k]` among `effects`. */
  function LastVariable(effects: seq<Effect>, k: string): Option<Variable>
    decreases |effects|
  {
    if effects == [] then None
    else
      var e := effects[|effects| - 1];
      if e.SetVariable? && e.key == k then Some(e.variable)
      else LastVariable(effects[..|effects| - 1], k)
  }

  /** The value of the last write to `registered[k]` among `effects`. */
  function LastRegistration(effects: seq<Effect>, k: string): Option<Registration>
    decreases |effects|
  {
    if effects == [] then None
    else
      var e := effects[|effects| - 1];
      if e.SetRegistration? && e.key == k then Some(e.registration)
      else LastRegistration(effects[..|effects| - 1], k)
  }

  /** No write in `effects` touches `variables`. */
  predicate LeavesVariables(effects: seq<Effect>)
  {
    forall i :: 0 <= i < |effects| ==> !effects[i].SetVariable?
  }

  /** No write in `effects` touches `registered`. */
  predicate LeavesRegistrations(effects: seq<Effect>)
  {
    forall i :: 0 <= i < |effects| ==> !effects[i].SetRegistration?
  }

  /** Replaying a concatenation is replaying the first part, then the second. */
  lemma {:induction false} ApplyConcat(t: Tables, a: seq<Effect>, b: seq<Effect>)
    ensures Apply(t, a + b) == Then(Apply(t, a), b)
    decreases |b|
  {
    if b == [] {
      assert a + b == a;
    } else {
      var b' := b[..|b| - 1];
      assert (a + b)[..|a + b| - 1] == a + b';
      assert (a + b)[|a + b| - 1] == b[|b| - 1];
      ApplyConcat(t, a, b');
    }
  }

  /** A run fails exactly when one of its effects is a TypeError. */
  lemma {:induction false} FailsIffTypeError(t: Tables, effects: seq<Effect>)
    ensures Apply(t, effects).Failed? <==> TypeError in effects
    decreases |effects|
  {
    if effects != [] {
      var init := effects[..|effects| - 1];
      FailsIffTypeError(t, init);
      assert effects == init + [effects[|effects| - 1]];
    }
  }

  /** A run that meets a TypeError keeps exactly the writes before it. */
  lemma {:induction false} StopsAtTypeError(t: Tables, effects: seq<Effect>, c: nat)
    requires c < |effects| && effects[c] == TypeError
    requires TypeError !in effects[..c]
    ensures Apply(t, effects) == Failed(Apply(t, effects[..c]).tables)
    ensures Apply(t, effects[..c]).Completed?
    decreases |effects|
  {
    FailsIffTypeError(t, effects[..c]);
    if c < |effects| - 1 {
      var init := effects[..|effects| - 1];
      assert init[..c] == effects[..c];
      StopsAtTypeError(t, init, c);
    } else {
      assert effects[..|effects| - 1] == effects[..c];
    }
  }

  /** Last write wins in `variables`: after a run without TypeError, a key
      holds the value last written to it, or else what it held before. In
      particular no entry is ever removed. */
  lemma {:induction false} VariablesLastWriteWins(t: Tables, effects: seq<Effect>, k: string)
    requires TypeError !in effects
    ensures Apply(t, effects).Completed?
    ensures Lookup(Apply(t, effects).tables.variables, k) ==
            if LastVariable(effects, k).Some? then LastVariable(effects, k)
            else Lookup(t.variables, k)
    decreases |effects|
  {
    if effects != [] {
      var init := effects[..|effects| - 1];
      assert forall e :: e in init ==> e in effects;
      VariablesLastWriteWins(t, init, k);
    }
  }

  /** Last write wins in `registered`, as in `variables`. */
  lemma {:induction false} RegistrationsLastWriteWins(t: Tables, effects: seq<Effect>, k: string)
    requires TypeError !in effects
    ensures Apply(t, effects).Completed?
    ensures Lookup(Apply(t, effects).tables.registered, k) ==
            if LastRegistration(effects, k).Some? then LastRegistration(effects, k)
            else Lookup(t.registered, k)
    decreases |effects|
  {
    if effects != [] {
      var init := effects[..|effects| - 1];
      assert forall e :: e in init ==> e in effects;
      RegistrationsLastWriteWins(t, init, k);
    }
  }

  /** The tables only grow, whether or not the run fails: entries from earlier
      runs persist. */
  lemma {:induction false} TablesOnlyGrow(t: Tables, effects: seq<Effect>)
    ensures t.variables.Keys <= Apply(t, effects).tables.variables.Keys
    ensures t.registered.Keys <= Apply(t, effects).tables.registered.Keys
    decreases |effects|
  {
    if effects != [] {
      TablesOnlyGrow(t, effects[..|effects| - 1]);
    }
  }

  /** A run without writes to `variables` leaves that table as it was. */
  lemma {:induction false} VariablesUntouched(t: Tables, effects: seq<Effect>)
    requires LeavesVariables(effects)
    ensures Apply(t, effects).tables.variables == t.variables
    decreases |effects|
  {
    if effects != [] {
      VariablesUntouched(t, effects[..|effects| - 1]);
    }
  }

  /** A run without writes to `registered` leaves that table as it was. */
  lemma {:induction false} RegistrationsUntouched(t: Tables, effects: seq<Effect>)
    requires LeavesRegistrations(effects)
    ensures Apply(t, effects).tables.registered == t.registered
    decreases |effects|
  {
    if effects != [] {
      RegistrationsUntouched(t, effects[..|effects| - 1]);
    }
  }

  /** The write at index `i` is the last one to `variables[k]` when no later
      effect writes that key. */
  lemma {:induction false} LastVariableAt(effects: seq<Effect>, i: nat)
    requires i < |effects| && effects[i].SetVariable?
    requires forall j :: i < j < |effects| ==> !(effects[j].SetVariable? && effects[j].key == effects[i].key)
    ensures LastVariable(effects, effects[i].key) == Some(effects[i].variable)
    decreases |effects|
  {
    if i < |effects| - 1 {
      LastVariableAt(effects[..|effects| - 1], i);
    }
  }

  /** The write at index `i` is the last one to `registered[k]` when no later
      effect writes that key. */
  lemma {:induction false} LastRegistrationAt(effects: seq<Effect>, i: nat)
    requires i < |effects| && effects[i].SetRegistration?
    requires forall j :: i < j < |effects| ==> !(effects[j].SetRegistration? && effects[j].key == effects[i].key)
    ensures LastRegistration(effects, effects[i].key) == Some(effects[i].registration)
    decreases |effects|
  {
    if i < |effects| - 1 {
      LastRegistrationAt(effects[..|effects| - 1], i);
    }
  }

  /** The last registration under `k` in two lists in a row is the second
      list's, if it has one, else the first's. */
  lemma {:induction false} LastRegistrationConcat(x: seq<Effect>, y: seq<Effect>, k: string)
    ensures LastRegistration(x + y, k) ==
            if LastRegistration(y, k).Some? then LastRegistration(y, k) else LastRegistration(x, k)
    decreases |y|
  {
    if y == [] {
      assert x + y == x;
    } else {
      assert (x + y)[..|x + y| - 1] == x + y[..|y| - 1];
      LastRegistrationConcat(x, y[..|y| - 1], k);
    }
  }

  /** A list without a registration under `k` has no last one. */
  lemma {:induction false} NoLastRegistration(effects: seq<Effect>, k: string)
    requires forall i :: 0 <= i < |effects| ==> !(effects[i].SetRegistration? && effects[i].key == k)
    ensures LastRegistration(effects, k).None?
    decreases |effects|
  {
    if effects != [] {
      NoLastRegistration(effects[..|effects| - 1], k);
    }
  }

  /** A key no effect writes keeps its entry (or its absence), even when the
      run fails part-way. */
  lemma {:induction false} UnwrittenVariableKept(t: Tables, effects: seq<Effect>, k: string)
    requires forall i :: 0 <= i < |effects| ==> !(effects[i].SetVariable? && effects[i].key == k)
    ensures Lookup(Apply(t, effects).tables.variables, k) == Lookup(t.variables, k)
    decreases |effects|
  {
    if effects != [] {
      UnwrittenVariableKept(t, effects[..|effects| - 1], k);
    }
  }

  /** A key no effect writes keeps its registration (or its absence). */
  lemma {:induction false} UnwrittenRegistrationKept(t: Tables, effects: seq<Effect>, k: string)
    requires forall i :: 0 <= i < |effects| ==> !(effects[i].SetRegistration? && effects[i].key == k)
    ensures Lookup(Apply(t, effects).tables.registered, k) == Lookup(t.registered, k)
    decreases |effects|
  {
    if effects != [] {
      UnwrittenRegistrationKept(t, effects[..|effects| - 1], k);
    }
  }

  /** Once a prefix of a run has failed, nothing after it changes the outcome. */
  lemma FailurePersists(t: Tables, prefix: seq<Effect>, effects: seq<Effect>)
    requires prefix <= effects && Apply(t, prefix).Failed?
    ensures Apply(t, effects) == Apply(t, prefix)
  {
    assert effects == prefix + effects[|prefix|..];
    ApplyConcat(t, prefix, effects[|prefix|..]);
  }
}
