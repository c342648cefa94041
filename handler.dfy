/**
 * A trap handler rule (src/sensu/snmp/handler.py): the identifier of the trap
 * type it handles, the argument identifiers it declares (each bound to a
 * substitution token) and the event template it renders.
 */
module Handler {
  import opened Wrappers
  import opened Traps
  import opened Event

  /** Identifier of sysUpTime, which every trap may carry without declaring it. */
  const SysUpTime: Oid := "1.3.6.1.2.1.1.3.0"

  datatype TrapHandler = TrapHandler(trapType: Oid, trapArgs: map<Oid, string>, event: Value) {

    /** Tokens of the identifiers among `oids` that are declared and carried by the trap. */
    function TokensOf(trap: Trap, oids: set<Oid>): set<string>
    {
      set o | o in oids && o in trapArgs && o in trap.arguments :: trapArgs[o]
    }

    /** Tokens of the declared argument identifiers that the trap carries. */
    function ArgTokens(trap: Trap): set<string>
    {
      TokensOf(trap, trapArgs.Keys)
    }

    /** The acceptance rule: the type matches and every argument is sysUpTime or declared. */
    predicate Accepts(trap: Trap)
      ensures Accepts(trap) <==> trap.oid == trapType && trap.arguments.Keys - {SysUpTime} <= trapArgs.Keys
    {
      trap.oid == trapType && forall a :: a in trap.arguments ==> a == SysUpTime || a in trapArgs
    }

    /** `handles`: a loop over the trap's arguments that returns early on the first undeclared one. */
    method Handles(trap: Trap) returns (b: bool)
      ensures b == Accepts(trap)
    {
      if trap.oid == trapType {
        var rest := trap.arguments.Keys;
        while rest != {}
          invariant rest <= trap.arguments.Keys
          invariant forall a :: a in trap.arguments && a !in rest ==> a == SysUpTime || a in trapArgs
          decreases rest
        {
          var a :| a in rest;
          if a != SysUpTime && a !in trapArgs {
            return false;
          }
          rest := rest - {a};
        }
        return true;
      }
      return false;
    }

    /**
     * What `_build_substitutions` may return, whatever order Python iterates
     * the dictionaries in: the keys are "oid", the property names and the
     * tokens of declared arguments the trap carries; a token takes the value of
     * one argument declaring it; a property name keeps its value unless a token
     * overrides it; "oid" keeps the trap identifier unless overridden.
     */
    ghost predicate IsSubstitutionMap(trap: Trap, subs: map<string, string>)
    {
      && subs.Keys == {"oid"} + trap.properties.Keys + ArgTokens(trap)
      && (forall t :: t in ArgTokens(trap) ==> exists o :: BindsToken(trap, o, t) && subs[t] == Show(trap.arguments[o]))
      && (forall k :: k in trap.properties && k !in ArgTokens(trap) ==> subs[k] == Show(trap.properties[k]))
      && ("oid" !in trap.properties && "oid" !in ArgTokens(trap) ==> subs["oid"] == trap.oid)
    }

    /** The declared argument `o`, carried by the trap, is bound to token `t`. */
    predicate BindsToken(trap: Trap, o: Oid, t: string)
    {
      o in trapArgs && o in trap.arguments && trapArgs[o] == t
    }

    /** The map after the argument layer has been written for the identifiers in `done`. */
    ghost predicate ArgLayerDone(trap: Trap, subs: map<string, string>, done: set<Oid>)
    {
      && subs.Keys == {"oid"} + trap.properties.Keys + TokensOf(trap, done)
      && (forall t :: t in TokensOf(trap, done) ==> exists o :: o in done && BindsToken(trap, o, t) && subs[t] == Show(trap.arguments[o]))
      && (forall k :: k in trap.properties && k !in TokensOf(trap, done) ==> subs[k] == Show(trap.properties[k]))
      && ("oid" !in trap.properties && "oid" !in TokensOf(trap, done) ==> subs["oid"] == trap.oid)
    }

    /** Writing the token of one more declared identifier keeps the argument-layer invariant. */
    lemma ArgLayerStep(trap: Trap, subs: map<string, string>, done: set<Oid>, o: Oid)
      requires ArgLayerDone(trap, subs, done) && o in trapArgs
      ensures ArgLayerDone(trap, if o in trap.arguments then subs[trapArgs[o] := Show(trap.arguments[o])] else subs, done + {o})
    {
      var done' := done + {o};
      assert TokensOf(trap, done') == TokensOf(trap, done) + (if o in trap.arguments then {trapArgs[o]} else {});
      if o in trap.arguments {
        var t0 := trapArgs[o];
        var subs' := subs[t0 := Show(trap.arguments[o])];
        forall t | t in TokensOf(trap, done')
          ensures exists o' :: o' in done' && BindsToken(trap, o', t) && subs'[t] == Show(trap.arguments[o'])
        {
          if t == t0 {
            assert o in done' && BindsToken(trap, o, t) && subs'[t] == Show(trap.arguments[o]);
          } else {
            var o' :| o' in done && BindsToken(trap, o', t) && subs[t] == Show(trap.arguments[o']);
            assert o' in done' && subs'[t] == subs[t];
          }
        }
      } else {
        assert TokensOf(trap, done') == TokensOf(trap, done);
        forall t | t in TokensOf(trap, done')
          ensures exists o' :: o' in done' && BindsToken(trap, o', t) && subs[t] == Show(trap.arguments[o'])
        {
          var o' :| o' in done && BindsToken(trap, o', t) && subs[t] == Show(trap.arguments[o']);
          assert o' in done';
        }
      }
    }

    /** Once "oid" and the properties are written, the argument layer starts from no identifier. */
    lemma PropertyLayerDone(trap: Trap, subs: map<string, string>)
      requires subs.Keys == {"oid"} + trap.properties.Keys
      requires forall k :: k in trap.properties ==> subs[k] == Show(trap.properties[k])
      requires "oid" !in trap.properties ==> subs["oid"] == trap.oid
      ensures ArgLayerDone(trap, subs, {})
    {
      assert TokensOf(trap, {}) == {};
    }

    /** The argument layer written for every declared identifier gives a substitution map. */
    lemma ArgLayerComplete(trap: Trap, subs: map<string, string>)
      requires ArgLayerDone(trap, subs, trapArgs.Keys)
      ensures IsSubstitutionMap(trap, subs)
    {
      forall t | t in ArgTokens(trap) ensures exists o :: BindsToken(trap, o, t) && subs[t] == Show(trap.arguments[o]) {
        var o :| o in trapArgs.Keys && BindsToken(trap, o, t) && subs[t] == Show(trap.arguments[o]);
      }
    }

    /** `_build_substitutions`: three layers written in turn, later writes overwriting earlier ones. */
    method BuildSubstitutions(trap: Trap) returns (subs: map<string, string>)
      ensures IsSubstitutionMap(trap, subs)
    {
      subs := map["oid" := trap.oid];
      var props := trap.properties.Keys;
      while props != {}
        invariant props <= trap.properties.Keys
        invariant subs.Keys == {"oid"} + (trap.properties.Keys - props)
        invariant forall k :: k in trap.properties && k !in props ==> subs[k] == Show(trap.properties[k])
        invariant "oid" !in trap.properties || "oid" in props ==> subs["oid"] == trap.oid
        decreases props
      {
        var k :| k in props;
        subs := subs[k := Show(trap.properties[k])];
        props := props - {k};
      }
      var oids := trapArgs.Keys;
      ghost var done: set<Oid> := {};
      PropertyLayerDone(trap, subs);
      while oids != {}
        invariant oids <= trapArgs.Keys && done == trapArgs.Keys - oids
        invariant ArgLayerDone(trap, subs, done)
        decreases oids
      {
        var o :| o in oids;
        ArgLayerStep(trap, subs, done, o);
        if o in trap.arguments {
          subs := subs[trapArgs[o] := Show(trap.arguments[o])];
        }
        oids := oids - {o};
        done := done + {o};
      }
      ArgLayerComplete(trap, subs);
    }

    /** `transform`: build the substitutions, then the event from this handler's template. */
    method Transform(trap: Trap) returns (r: Result<TrapEvent, TemplateError>)
      ensures exists subs :: IsSubstitutionMap(trap, subs) && r == NewTrapEvent(event, subs)
    {
      var subs := BuildSubstitutions(trap);
      r := NewTrapEvent(event, subs);
      assert IsSubstitutionMap(trap, subs) && r == NewTrapEvent(event, subs);
    }
  
    /** No two declared identifiers carried by the trap share a token. */
    predicate DistinctTokens(trap: Trap)
    {
      forall o1, o2 :: o1 in trapArgs && o2 in trapArgs && BindsToken(trap, o1, trapArgs[o2]) && o2 in trap.arguments ==> o1 == o2
    }

    /** A token declared by a single carried argument takes that argument's value, the last layer. */
    lemma TokenTakesArgument(trap: Trap, subs: map<string, string>, o: Oid)
      requires IsSubstitutionMap(trap, subs) && DistinctTokens(trap)
      requires o in trapArgs && o in trap.arguments
      ensures trapArgs[o] in subs && subs[trapArgs[o]] == Show(trap.arguments[o])
    {
      var t := trapArgs[o];
      assert t in ArgTokens(trap);
      var o' :| BindsToken(trap, o', t) && subs[t] == Show(trap.arguments[o']);
      assert o' == o;
    }

    /** With distinct tokens the iteration order does not matter: the substitution map is unique. */
    lemma SubstitutionsDetermined(trap: Trap, s1: map<string, string>, s2: map<string, string>)
      requires IsSubstitutionMap(trap, s1) && IsSubstitutionMap(trap, s2) && DistinctTokens(trap)
      ensures s1 == s2
    {
      forall k | k in s1 ensures s1[k] == s2[k] {
        if k in ArgTokens(trap) {
          var o :| o in trapArgs.Keys && o in trapArgs && o in trap.arguments && trapArgs[o] == k;
          TokenTakesArgument(trap, s1, o);
          TokenTakesArgument(trap, s2, o);
        }
      }
    }
  }

  /**
   * A rule for trap type 1.3.6.1.4.1.99.1 with argument 1.3.6.1.4.1.99.2 bound
   * to token "user" accepts the trap carrying "alice" in that argument, and
   * every substitution map it may build has user = "alice" and oid = the type.
   */
  lemma ScenarioUserArgument()
    ensures var h := TrapHandler("1.3.6.1.4.1.99.1", map["1.3.6.1.4.1.99.2" := "user"], Dict([]));
      var trap := Trap("userTrap", "1.3.6.1.4.1.99.1", map["1.3.6.1.4.1.99.2" := AStr("alice")], map[]);
      && h.Accepts(trap)
      && forall subs :: h.IsSubstitutionMap(trap, subs) ==>
           "user" in subs && subs["user"] == "alice" && "oid" in subs && subs["oid"] == "1.3.6.1.4.1.99.1"
  {
    var h := TrapHandler("1.3.6.1.4.1.99.1", map["1.3.6.1.4.1.99.2" := "user"], Dict([]));
    var trap := Trap("userTrap", "1.3.6.1.4.1.99.1", map["1.3.6.1.4.1.99.2" := AStr("alice")], map[]);
    var o := "1.3.6.1.4.1.99.2";
    assert o in h.trapArgs && o in trap.arguments;
    assert h.trapArgs[o] in h.ArgTokens(trap);
    assert h.ArgTokens(trap) == {"user"};
    forall subs | h.IsSubstitutionMap(trap, subs)
      ensures "user" in subs && subs["user"] == "alice" && "oid" in subs && subs["oid"] == "1.3.6.1.4.1.99.1"
    {
      h.TokenTakesArgument(trap, subs, "1.3.6.1.4.1.99.2");
    }
  }
}
