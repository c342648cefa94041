/**
 * The trap server (src/sensu/snmp/server.py): it loads handler rules from the
 * rule file, routes each received trap to the first rule that accepts it and
 * hands the resulting event to the dispatcher thread.
 */
module Server {
  import opened Wrappers
  import opened Traps
  import opened Event
  import opened Handler
  import opened Dispatcher

  /** A `[module, symbol]` reference as written in the rule file. */
  type SymbolRef = seq<string>

  datatype ConfigError =
    | BadSymbol(ref: SymbolRef)                      // the reference does not unpack into two names
    | Unresolved(mibModule: string, symbol: string) // the resolver does not know the symbol

  /** One rule of the rule file: `trap.type`, the optional `trap.args` (token -> reference) and `event`. */
  datatype HandlerConfig = HandlerConfig(trapType: SymbolRef, args: Option<map<string, SymbolRef>>, event: Value)

  /** `tuple(ref)` unpacked into module and symbol, then resolved to an identifier. */
  function Resolve(ref: SymbolRef, lookup: (string, string) -> Option<Oid>): (r: Result<Oid, ConfigError>)
    ensures r.Ok? <==> |ref| == 2 && lookup(ref[0], ref[1]).Some?
    ensures r.Ok? ==> r.value == lookup(ref[0], ref[1]).value
  {
    if |ref| != 2 then Err(BadSymbol(ref))
    else
      match lookup(ref[0], ref[1])
      case Some(o) => Ok(o)
      case None => Err(Unresolved(ref[0], ref[1]))
  }

  /** Every argument reference of the rule resolves. */
  predicate ArgsResolve(args: map<string, SymbolRef>, lookup: (string, string) -> Option<Oid>)
  {
    forall t :: t in args ==> Resolve(args[t], lookup).Ok?
  }

  /** The identifiers that the given tokens' references resolve to. */
  function ResolvedOids(args: map<string, SymbolRef>, tokens: set<string>, lookup: (string, string) -> Option<Oid>): set<Oid>
  {
    set t | t in tokens && t in args && Resolve(args[t], lookup).Ok? :: Resolve(args[t], lookup).value
  }

  /**
   * `_load_trap_handler`: resolve the trap type, then invert the token ->
   * reference pairs into identifier -> token; when two tokens resolve to the
   * same identifier, one of them is kept.
   */
  method LoadTrapHandler(config: HandlerConfig, lookup: (string, string) -> Option<Oid>)
    returns (r: Result<TrapHandler, ConfigError>)
    ensures Resolve(config.trapType, lookup).Err? ==> r == Err(Resolve(config.trapType, lookup).error)
    ensures r.Ok? <==> Resolve(config.trapType, lookup).Ok? && (config.args.Some? ==> ArgsResolve(config.args.value, lookup))
    ensures r.Ok? ==> r.value.trapType == Resolve(config.trapType, lookup).value && r.value.event == config.event
    ensures r.Ok? && config.args.None? ==> r.value.trapArgs == map[]
    ensures r.Ok? && config.args.Some? ==>
      && r.value.trapArgs.Keys == ResolvedOids(config.args.value, config.args.value.Keys, lookup)
      && forall o :: o in r.value.trapArgs ==>
           r.value.trapArgs[o] in config.args.value && Resolve(config.args.value[r.value.trapArgs[o]], lookup) == Ok(o)
    ensures r.Ok? ==> forall trap :: r.value.DistinctTokens(trap)
  {
    var ty := Resolve(config.trapType, lookup);
    if ty.Err? {
      return Err(ty.error);
    }
    var trapArgs: map<Oid, string> := map[];
    if config.args.Some? {
      var args := config.args.value;
      var todo := args.Keys;
      while todo != {}
        invariant todo <= args.Keys
        invariant forall t :: t in args && t !in todo ==> Resolve(args[t], lookup).Ok?
        invariant trapArgs.Keys == ResolvedOids(args, args.Keys - todo, lookup)
        invariant forall o :: o in trapArgs ==> trapArgs[o] in args && Resolve(args[trapArgs[o]], lookup) == Ok(o)
        decreases todo
      {
        var t :| t in todo;
        var o := Resolve(args[t], lookup);
        if o.Err? {
          return Err(o.error);
        }
        assert ResolvedOids(args, args.Keys - (todo - {t}), lookup) == ResolvedOids(args, args.Keys - todo, lookup) + {o.value};
        trapArgs := trapArgs[o.value := t];
        todo := todo - {t};
      }
    }
    r := Ok(TrapHandler(ty.value, trapArgs, config.event));
    if config.args.Some? {
      ResolvedTokensDistinct(r.value, config.args.value, lookup);
    }
  }

  /**
   * A rule whose tokens each name the identifier their reference resolves to
   * binds every token to at most one identifier, so the substitution map it
   * builds does not depend on iteration order.
   */
  lemma ResolvedTokensDistinct(h: TrapHandler, args: map<string, SymbolRef>, lookup: (string, string) -> Option<Oid>)
    requires forall o :: o in h.trapArgs ==> h.trapArgs[o] in args && Resolve(args[h.trapArgs[o]], lookup) == Ok(o)
    ensures forall trap :: h.DistinctTokens(trap)
  {
    forall trap ensures h.DistinctTokens(trap) {
      forall o1, o2 | o1 in h.trapArgs && o2 in h.trapArgs && h.BindsToken(trap, o1, h.trapArgs[o2]) && o2 in trap.arguments
        ensures o1 == o2
      {
        assert Resolve(args[h.trapArgs[o1]], lookup) == Ok(o1);
        assert Resolve(args[h.trapArgs[o2]], lookup) == Ok(o2);
      }
    }
  }

  /** What `_handle_trap` did with a trap. */
  datatype HandleOutcome =
    | NoHandler
    | Handled(index: nat, id: string, result: Result<TrapEvent, TemplateError>)

  class SensuTrapServer {
    /** The rules, in the order the routing loop visits them. */
    const handlers: seq<(string, TrapHandler)>
    var running: bool
    const dispatcher: TrapEventDispatcherThread

    constructor (handlers: seq<(string, TrapHandler)>, retry: int, checkResponse: bool)
      ensures this.handlers == handlers && !running
      ensures fresh(dispatcher) && fresh(dispatcher.transport)
      ensures dispatcher.events == [] && dispatcher.backoff == 0 && !dispatcher.running && dispatcher.retry == retry
      ensures dispatcher.transport.checkResponse == checkResponse && dispatcher.transport.socket == null
    {
      this.handlers := handlers;
      running := false;
      dispatcher := new TrapEventDispatcherThread(retry, checkResponse);
    }

    /**
     * `_handle_trap`: the first rule that accepts the trap transforms it and its
     * event is enqueued; at most one event is enqueued per trap.
     */
    method HandleTrap(trap: Trap) returns (outcome: HandleOutcome)
      modifies dispatcher`events
      ensures outcome.NoHandler? <==> forall i :: 0 <= i < |handlers| ==> !handlers[i].1.Accepts(trap)
      ensures outcome.NoHandler? ==> dispatcher.events == old(dispatcher.events)
      ensures outcome.Handled? ==>
        && outcome.index < |handlers|
        && handlers[outcome.index].0 == outcome.id
        && handlers[outcome.index].1.Accepts(trap)
        && (forall j :: 0 <= j < outcome.index ==> !handlers[j].1.Accepts(trap))
        && (exists subs :: handlers[outcome.index].1.IsSubstitutionMap(trap, subs)
              && outcome.result == NewTrapEvent(handlers[outcome.index].1.event, subs))
        && dispatcher.events == old(dispatcher.events) + (if outcome.result.Ok? then [outcome.result.value] else [])
    {
      var i := 0;
      while i < |handlers|
        invariant 0 <= i <= |handlers|
        invariant forall j :: 0 <= j < i ==> !handlers[j].1.Accepts(trap)
        invariant dispatcher.events == old(dispatcher.events)
      {
        var (id, th) := handlers[i];
        var accepts := th.Handles(trap);
        if accepts {
          var event := th.Transform(trap);
          if event.Ok? {
            var _ := dispatcher.Dispatch(event.value);
          }
          // a render error propagates to the caller and nothing is enqueued
          return Handled(i, id, event);
        }
        i := i + 1;
      }
      return NoHandler;
    }

    /** `run` up to its wait loop: the server and the dispatcher thread are running. */
    method Run()
      modifies this`running, dispatcher`running, dispatcher`backoff
      ensures running && dispatcher.running && dispatcher.backoff == 0
    {
      running := true;
      dispatcher.Start();
    }

    /** `stop`: only a running server stops its dispatcher thread; a second call does nothing. */
    method Stop()
      modifies this`running, dispatcher`running, dispatcher.transport, dispatcher.transport.socket
      ensures !running
      ensures old(running) ==> !dispatcher.running && dispatcher.transport.socket == null
      ensures old(running) && old(dispatcher.transport.socket) != null ==> !old(dispatcher.transport.socket).isOpen
      ensures !old(running) ==> unchanged(this, dispatcher, dispatcher.transport)
      ensures !old(running) && dispatcher.transport.socket != null ==> unchanged(dispatcher.transport.socket)
    {
      if !running {
        return;
      }
      running := false;
      dispatcher.Stop();
    }
  }
}
