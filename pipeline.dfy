/**
 * `MiddlewarePipe`: an ordered list of middleware around a terminal target, run by
 * continuation passing. `next(position, input)` hands the middleware at `position`
 * the current input, a continuation that moves on to `position + 1`, and the
 * context; with no entry at `position` it calls the target instead.
 *
 * A middleware is pure here: invoked with an input and the context it yields a
 * `Script` saying how often it calls the continuation, with which argument each
 * time, and what it returns from the results. `Next` runs the scripts and records
 * a trace of which middleware were entered and when the target ran.
 */
module Pipeline {
  import opened Wrappers

  /**
   * A middleware's behaviour for one invocation: it calls the continuation `calls`
   * times, the k-th time with `argument` of the k results so far (`None`: no
   * argument), and returns `finish` of all the results.
   */
  datatype Script<I, !O> = Script(calls: nat, argument: seq<O> -> Option<I>, finish: seq<O> -> O)

  /** A middleware descriptor as `add` stores it. */
  datatype Middleware<!I, !O, !C> =
    | Callable(invoke: (I, C) -> Script<I, O>)  // a closure, an object or an array callable
    | Reference(id: string)                     // a string, resolved through the container when reached
    | Null                                      // a `null` entry, which `isset` does not see

  /** What happened during a run, in order. */
  datatype Event<I, C> = Entered(position: nat, input: I, context: C) | TargetCalled(input: I)

  datatype Outcome<I, !O, C> = Outcome(result: O, trace: seq<Event<I, C>>)

  /**
   * Everything one `run` reads: the middleware list, the target, the context, the
   * container lookup for string middleware, and PHP truthiness on inputs.
   */
  datatype Chain<!I, !O, !C> = Chain(
    middleware: seq<Middleware<I, O, C>>,
    target: I -> O,
    context: C,
    resolve: string -> (I, C) -> Script<I, O>,
    truthy: I -> bool)

  /** `$contextInput ?: $input`. */
  function Chosen<I>(argument: Option<I>, input: I, truthy: I -> bool): I {
    if argument.Some? && truthy(argument.value) then argument.value else input
  }

  /** `is_string($middleware) ? Container::get($middleware) : $middleware`. */
  function Resolve<I, O, C>(m: Middleware<I, O, C>, resolve: string -> (I, C) -> Script<I, O>): (I, C) -> Script<I, O>
    requires !m.Null?
  {
    match m
    case Callable(f) => f
    case Reference(id) => resolve(id)
  }

  /** Whether `isset($this->middleware[$position])` holds. */
  predicate HasEntry<I, O, C>(chain: Chain<I, O, C>, position: nat) {
    position < |chain.middleware| && !chain.middleware[position].Null?
  }

  /** The script the middleware at `position` runs on `input`. */
  function ScriptAt<I, O, C>(chain: Chain<I, O, C>, position: nat, input: I): Script<I, O>
    requires HasEntry(chain, position)
  {
    Resolve(chain.middleware[position], chain.resolve)(input, chain.context)
  }

  /**
   * `next($position, $input)`: the run starts by entering the middleware at
   * `position`, or by calling the target when there is none, and then the target's
   * result is the result.
   */
  function Next<I, O, C>(chain: Chain<I, O, C>, position: nat, input: I): (r: Outcome<I, O, C>)
    ensures |r.trace| >= 1
    ensures r.trace[0] == if HasEntry(chain, position) then Entered(position, input, chain.context) else TargetCalled(input)
    ensures !HasEntry(chain, position) ==> r.result == chain.target(input) && |r.trace| == 1
    decreases |chain.middleware| - position, 1, 0
  {
    if !HasEntry(chain, position) then
      Outcome(chain.target(input), [TargetCalled(input)])
    else
      var body := Perform(chain, position, input, ScriptAt(chain, position, input), []);
      Outcome(body.result, [Entered(position, input, chain.context)] + body.trace)
  }

  /**
   * The middleware at `position`, having made the calls that produced `results`,
   * makes the rest: each goes to `position + 1` with the argument if it is truthy
   * and with the middleware's own input otherwise.
   */
  function Perform<I, O, C>(chain: Chain<I, O, C>, position: nat, input: I, script: Script<I, O>, results: seq<O>): (r: Outcome<I, O, C>)
    requires position < |chain.middleware| && |results| <= script.calls
    ensures |r.trace| >= script.calls - |results|
    decreases |chain.middleware| - position, 0, script.calls - |results|
  {
    if |results| == script.calls then
      Outcome(script.finish(results), [])
    else
      var down := Next(chain, position + 1, Chosen(script.argument(results), input, chain.truthy));
      var rest := Perform(chain, position, input, script, results + [down.result]);
      Outcome(rest.result, down.trace + rest.trace)
  }

  /**
   * Every call of the continuation, not only the first, goes to `position + 1`: the
   * closure captured the position by value, so the increment never accumulates.
   * The call gets the argument if it is truthy and the middleware's input otherwise.
   */
  lemma EveryCallInput<I, O, C>(chain: Chain<I, O, C>, position: nat, input: I, script: Script<I, O>, results: seq<O>)
    requires position < |chain.middleware| && |results| < script.calls
    ensures var passed := Chosen(script.argument(results), input, chain.truthy);
            var trace := Perform(chain, position, input, script, results).trace;
            |trace| >= 1
            && trace[0] == if HasEntry(chain, position + 1) then Entered(position + 1, passed, chain.context) else TargetCalled(passed)
  {
    var passed := Chosen(script.argument(results), input, chain.truthy);
    var down := Next(chain, position + 1, passed);
    var rest := Perform(chain, position, input, script, results + [down.result]);
    assert Perform(chain, position, input, script, results).trace == down.trace + rest.trace;
  }

  /** Every middleware entered during a run sees the run's own context. */
  lemma {:induction false} NextKeepsContext<I, O, C>(chain: Chain<I, O, C>, position: nat, input: I)
    ensures forall e :: e in Next(chain, position, input).trace && e.Entered? ==> e.context == chain.context
    decreases |chain.middleware| - position, 1, 0
  {
    if HasEntry(chain, position) {
      PerformKeepsContext(chain, position, input, ScriptAt(chain, position, input), []);
    }
  }

  lemma {:induction false} PerformKeepsContext<I, O, C>(chain: Chain<I, O, C>, position: nat, input: I, script: Script<I, O>, results: seq<O>)
    requires position < |chain.middleware| && |results| <= script.calls
    ensures forall e :: e in Perform(chain, position, input, script, results).trace && e.Entered? ==> e.context == chain.context
    decreases |chain.middleware| - position, 0, script.calls - |results|
  {
    if |results| < script.calls {
      var down := Next(chain, position + 1, Chosen(script.argument(results), input, chain.truthy));
      NextKeepsContext(chain, position + 1, Chosen(script.argument(results), input, chain.truthy));
      PerformKeepsContext(chain, position, input, script, results + [down.result]);
    }
  }

  /**
   * A middleware that never calls its continuation ends the run: its return value
   * is the result, and neither a later middleware nor the target runs.
   */
  lemma ShortCircuit<I, O, C>(chain: Chain<I, O, C>, position: nat, input: I)
    requires HasEntry(chain, position) && ScriptAt(chain, position, input).calls == 0
    ensures Next(chain, position, input)
         == Outcome(ScriptAt(chain, position, input).finish([]), [Entered(position, input, chain.context)])
  {
  }

  /**
   * The first call of the continuation goes to `position + 1`, with the argument if
   * it is truthy and with the current input otherwise.
   */
  lemma FirstCallInput<I, O, C>(chain: Chain<I, O, C>, position: nat, input: I)
    requires HasEntry(chain, position) && ScriptAt(chain, position, input).calls >= 1
    ensures var script := ScriptAt(chain, position, input);
            var passed := Chosen(script.argument([]), input, chain.truthy);
            |Next(chain, position, input).trace| >= 2
            && Next(chain, position, input).trace[1]
               == if HasEntry(chain, position + 1) then Entered(position + 1, passed, chain.context) else TargetCalled(passed)
  {
    var script := ScriptAt(chain, position, input);
    var passed := Chosen(script.argument([]), input, chain.truthy);
    var down := Next(chain, position + 1, passed);
    var empty: seq<O> := [];
    var rest := Perform(chain, position, input, script, empty + [down.result]);
    assert Perform(chain, position, input, script, empty).trace == down.trace + rest.trace;
    assert down.trace[0] == if HasEntry(chain, position + 1) then Entered(position + 1, passed, chain.context) else TargetCalled(passed);
  }

  /** Every middleware from `position` on calls its continuation exactly once, on every input. */
  ghost predicate ForwardsOnce<I(!new), O, C>(chain: Chain<I, O, C>, position: nat) {
    && (forall i :: position <= i < |chain.middleware| ==> HasEntry(chain, i))
    && (forall i, x :: position <= i < |chain.middleware| && HasEntry(chain, i) ==> ScriptAt(chain, i, x).calls == 1)
  }

  /**
   * When every middleware calls its continuation exactly once, each is entered once,
   * in list order, and then the target runs exactly once.
   */
  lemma {:induction false} ForwardsInOrder<I(!new), O, C>(chain: Chain<I, O, C>, position: nat, input: I)
    requires position <= |chain.middleware| && ForwardsOnce(chain, position)
    ensures var trace := Next(chain, position, input).trace;
            && |trace| == |chain.middleware| - position + 1
            && (forall k :: 0 <= k < |trace| - 1 ==> trace[k].Entered? && trace[k].position == position + k)
            && trace[|trace| - 1].TargetCalled?
    decreases |chain.middleware| - position
  {
    if position < |chain.middleware| {
      var script := ScriptAt(chain, position, input);
      var passed := Chosen(script.argument([]), input, chain.truthy);
      var down := Next(chain, position + 1, passed);
      ForwardsInOrder(chain, position + 1, passed);
      assert Perform(chain, position, input, script, []).trace == down.trace + [];
    }
  }

  /** Whether the middleware at `j` is entered somewhere in `trace`. */
  predicate Reaches<I, C>(trace: seq<Event<I, C>>, j: nat) {
    exists k :: 0 <= k < |trace| && trace[k].Entered? && trace[k].position == j
  }

  lemma ReachesConcat<I, C>(a: seq<Event<I, C>>, b: seq<Event<I, C>>, j: nat)
    ensures Reaches(a + b, j) <==> Reaches(a, j) || Reaches(b, j)
  {
    if Reaches(a, j) {
      var k :| 0 <= k < |a| && a[k].Entered? && a[k].position == j;
      assert (a + b)[k] == a[k];
    }
    if Reaches(b, j) {
      var k :| 0 <= k < |b| && b[k].Entered? && b[k].position == j;
      assert (a + b)[|a| + k] == b[k];
    }
  }

  /**
   * Middleware is resolved lazily: an entry the run never reaches can be replaced by
   * any other, such as a reference the container cannot resolve, without changing
   * anything about the run.
   */
  lemma {:induction false} UnreachedIrrelevant<I, O, C>(chain: Chain<I, O, C>, j: nat, m: Middleware<I, O, C>, position: nat, input: I)
    requires HasEntry(chain, j) && !m.Null?
    requires !Reaches(Next(chain, position, input).trace, j)
    ensures Next(chain.(middleware := chain.middleware[j := m]), position, input) == Next(chain, position, input)
    decreases |chain.middleware| - position, 1, 0
  {
    var other := chain.(middleware := chain.middleware[j := m]);
    if HasEntry(chain, position) {
      assert position != j by {
        assert Next(chain, position, input).trace[0] == Entered(position, input, chain.context);
      }
      var script := ScriptAt(chain, position, input);
      assert ScriptAt(other, position, input) == script;
      var body := Perform(chain, position, input, script, []);
      ReachesConcat([Entered(position, input, chain.context)], body.trace, j);
      PerformIgnoresUnreached(chain, j, m, position, input, script, []);
    } else {
      assert position != j;
    }
  }

  lemma {:induction false} PerformIgnoresUnreached<I, O, C>(chain: Chain<I, O, C>, j: nat, m: Middleware<I, O, C>, position: nat, input: I,
                                                           script: Script<I, O>, results: seq<O>)
    requires HasEntry(chain, j) && !m.Null?
    requires position < |chain.middleware| && |results| <= script.calls
    requires !Reaches(Perform(chain, position, input, script, results).trace, j)
    ensures Perform(chain.(middleware := chain.middleware[j := m]), position, input, script, results)
         == Perform(chain, position, input, script, results)
    decreases |chain.middleware| - position, 0, script.calls - |results|
  {
    if |results| < script.calls {
      var passed := Chosen(script.argument(results), input, chain.truthy);
      var down := Next(chain, position + 1, passed);
      var rest := Perform(chain, position, input, script, results + [down.result]);
      ReachesConcat(down.trace, rest.trace, j);
      UnreachedIrrelevant(chain, j, m, position + 1, passed);
      PerformIgnoresUnreached(chain, j, m, position, input, script, results + [down.result]);
    }
  }

  /**
   * A middleware that calls its continuation once returns its `finish` of what the
   * rest of the chain returned for the input it passed on.
   */
  lemma ForwardResult<I, O, C>(chain: Chain<I, O, C>, position: nat, input: I)
    requires HasEntry(chain, position) && ScriptAt(chain, position, input).calls == 1
    ensures var script := ScriptAt(chain, position, input);
            Next(chain, position, input).result
            == script.finish([Next(chain, position + 1, Chosen(script.argument([]), input, chain.truthy)).result])
  {
    var script := ScriptAt(chain, position, input);
    var empty: seq<O> := [];
    var down := Next(chain, position + 1, Chosen(script.argument(empty), input, chain.truthy));
    assert empty + [down.result] == [down.result];
    var rest := Perform(chain, position, input, script, [down.result]);
    assert rest.result == script.finish([down.result]);
    assert Perform(chain, position, input, script, empty).result == rest.result;
  }

  /** The middleware from `position` on pass their input on unchanged and return what they get back. */
  ghost predicate PassesThrough<I(!new), O(!new), C>(chain: Chain<I, O, C>, position: nat) {
    forall i, x :: position <= i < |chain.middleware| && HasEntry(chain, i) ==>
      var script := ScriptAt(chain, i, x);
      && script.calls == 1
      && script.argument([]) == None
      && forall o :: script.finish([o]) == o
  }

  /** A chain of pass-through middleware returns what the target returns on the same input. */
  lemma {:induction false} PassThroughReturnsTarget<I(!new), O(!new), C>(chain: Chain<I, O, C>, position: nat, input: I)
    requires PassesThrough(chain, position)
    requires forall i :: position <= i < |chain.middleware| ==> HasEntry(chain, i)
    ensures Next(chain, position, input).result == chain.target(input)
    decreases |chain.middleware| - position
  {
    if position < |chain.middleware| {
      ForwardResult(chain, position, input);
      PassThroughReturnsTarget(chain, position + 1, input);
    }
  }

  /** The pipe: a middleware list, a target and the context of the last run. */
  class MiddlewarePipe<I, O, C> {
    var middleware: seq<Middleware<I, O, C>>
    var target: Option<I -> O>
    var context: Option<C>

    constructor (middleware: seq<Middleware<I, O, C>>)
      ensures this.middleware == middleware && target == None && context == None
    {
      this.middleware := middleware;
      target := None;
      context := None;
    }

    /** `add`: append one descriptor as given; a string is not resolved here. */
    method Add(m: Middleware<I, O, C>) returns (self: MiddlewarePipe<I, O, C>)
      modifies this
      ensures self == this
      ensures middleware == old(middleware) + [m]
      ensures target == old(target) && context == old(context)
    {
      middleware := middleware + [m];
      self := this;
    }

    /** `target`: set or replace the terminal handler. */
    method Target(handler: I -> O) returns (self: MiddlewarePipe<I, O, C>)
      modifies this
      ensures self == this
      ensures target == Some(handler)
      ensures middleware == old(middleware) && context == old(context)
    {
      target := Some(handler);
      self := this;
    }

    /** `run`: store the context and run the chain from position 0. */
    method Run(input: I, context: C, resolve: string -> (I, C) -> Script<I, O>, truthy: I -> bool) returns (result: O)
      requires target.Some?
      modifies this
      ensures this.context == Some(context)
      ensures middleware == old(middleware) && target == old(target)
      ensures result == Next(Chain(middleware, target.value, context, resolve, truthy), 0, input).result
    {
      this.context := Some(context);
      result := Next(Chain(middleware, target.value, context, resolve, truthy), 0, input).result;
    }
  }
}
