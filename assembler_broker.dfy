/** TurbineAssemblerBrokerService: a registry from assembler type to the
    ordered list of factories registered for it. A lookup asks the
    factories in registration order and keeps the first assembler one of
    them hands out. */
module AssemblerBroker {
  import opened Wrappers
  import opened Errors

  /** AssemblerBrokerService.ACTION_TYPE and the other five type names. */
  const ACTION_TYPE: string := "action"
  const SCREEN_TYPE: string := "screen"
  const NAVIGATION_TYPE: string := "navigation"
  const LAYOUT_TYPE: string := "layout"
  const PAGE_TYPE: string := "page"
  const SCHEDULEDJOB_TYPE: string := "scheduledjob"

  /** The order in which init registers the factories of each type. */
  const TYPES: seq<string> :=
    [ACTION_TYPE, SCREEN_TYPE, NAVIGATION_TYPE, LAYOUT_TYPE, PAGE_TYPE, SCHEDULEDJOB_TYPE]

  /** The run-time class of an assembler (the Java interface it implements). */
  datatype Kind = Action | Screen | Navigation | Layout | Page | ScheduledJob

  /** An assembler instance handed out by a factory. */
  datatype Assembler = Assembler(kind: Kind, className: string)

  /** What AssemblerFactory.getAssembler(name) does for one name: return an
      assembler, return null, or throw. */
  datatype Lookup = Found(assembler: Assembler) | NotFound | Threw(cause: Error)

  /** A registered AssemblerFactory: its class name (used in error
      messages) and its behaviour, which the model does not look into. */
  datatype Factory = Factory(className: string, lookup: string -> Lookup)

  /** The factories built for one type: those constructed before the first
      failure, and the failure if there was one. */
  datatype Registration = Registration(built: seq<Factory>, failure: Option<Error>)

  /** The registry and its error after registering a sequence of types. */
  datatype InitOutcome = InitOutcome(factories: map<string, seq<Factory>>, failure: Option<Error>)

  function GroupIn(m: map<string, seq<Factory>>, assemblerType: string): seq<Factory>
  {
    if assemblerType in m then m[assemblerType] else []
  }

  /** The registry after appending fs to the type's group. Nothing is stored
      when fs is empty, since then getFactoryGroup is never called. */
  function WithRegistered(m: map<string, seq<Factory>>, assemblerType: string, fs: seq<Factory>): (r: map<string, seq<Factory>>)
    ensures GroupIn(r, assemblerType) == GroupIn(m, assemblerType) + fs
    ensures forall t :: t != assemblerType ==> (t in r <==> t in m) && GroupIn(r, t) == GroupIn(m, t)
  {
    if |fs| == 0 then m else m[assemblerType := GroupIn(m, assemblerType) + fs]
  }

  lemma WithRegisteredTwice(m: map<string, seq<Factory>>, assemblerType: string, fs: seq<Factory>, gs: seq<Factory>)
    ensures WithRegistered(WithRegistered(m, assemblerType, fs), assemblerType, gs) == WithRegistered(m, assemblerType, fs + gs)
  {
    assert GroupIn(m, assemblerType) + fs + gs == GroupIn(m, assemblerType) + (fs + gs);
    if |fs| == 0 { assert fs + gs == gs; }
    if |gs| == 0 { assert fs + gs == fs; }
  }

  function FailedToLoad(name: string, assemblerType: string, factory: Factory, cause: Error): Error
  {
    TurbineException("Failed to load an assembler for " + name + " from the "
                     + assemblerType + " factory " + factory.className, Some(cause))
  }

  /** getAssembler over one group: the first factory that answers decides. */
  function Resolve(facs: seq<Factory>, assemblerType: string, name: string): Result<Option<Assembler>, Error>
  {
    if |facs| == 0 then Success(None)
    else
      match facs[0].lookup(name)
      case Found(a) => Success(Some(a))
      case NotFound => Resolve(facs[1..], assemblerType, name)
      case Threw(e) => Failure(FailedToLoad(name, assemblerType, facs[0], e))
  }

  /** The factories before index i all return null for name. */
  ghost predicate NoneBefore(facs: seq<Factory>, name: string, i: int)
    requires 0 <= i <= |facs|
  {
    forall j :: 0 <= j < i ==> facs[j].lookup(name) == NotFound
  }

  /** The assembler of the first factory that returns one is the result. */
  lemma {:induction false} ResolveFirstFound(facs: seq<Factory>, assemblerType: string, name: string, i: nat)
    requires i < |facs| && NoneBefore(facs, name, i) && facs[i].lookup(name).Found?
    ensures Resolve(facs, assemblerType, name) == Success(Some(facs[i].lookup(name).assembler))
  {
    if i > 0 {
      assert facs[0].lookup(name) == NotFound;
      ResolveFirstFound(facs[1..], assemblerType, name, i - 1);
    }
  }

  /** The first factory that throws ends the lookup with a TurbineException
      naming the name, the type and that factory's class. */
  lemma {:induction false} ResolveFirstThrows(facs: seq<Factory>, assemblerType: string, name: string, i: nat)
    requires i < |facs| && NoneBefore(facs, name, i) && facs[i].lookup(name).Threw?
    ensures Resolve(facs, assemblerType, name) == Failure(FailedToLoad(name, assemblerType, facs[i], facs[i].lookup(name).cause))
  {
    if i > 0 {
      assert facs[0].lookup(name) == NotFound;
      ResolveFirstThrows(facs[1..], assemblerType, name, i - 1);
    }
  }

  /** null comes back exactly when every factory returns null, the empty
      group included. */
  lemma {:induction false} ResolveNullIff(facs: seq<Factory>, assemblerType: string, name: string)
    ensures Resolve(facs, assemblerType, name) == Success(None) <==> NoneBefore(facs, name, |facs|)
  {
    if |facs| > 0 {
      ResolveNullIff(facs[1..], assemblerType, name);
      if facs[0].lookup(name) == NotFound {
        assert NoneBefore(facs, name, |facs|) <==> NoneBefore(facs[1..], name, |facs| - 1) by {
          forall j | 0 < j < |facs| ensures facs[j] == facs[1..][j - 1] { }
        }
      }
    }
  }

  /** Once a factory answers, the factories registered after it play no
      part: they are never asked. */
  lemma {:induction false} ResolveIgnoresLater(p: seq<Factory>, q: seq<Factory>, assemblerType: string, name: string)
    requires !NoneBefore(p, name, |p|)
    ensures Resolve(p + q, assemblerType, name) == Resolve(p, assemblerType, name)
  {
    assert (p + q)[0] == p[0];
    if p[0].lookup(name) == NotFound {
      assert (p + q)[1..] == p[1..] + q;
      assert !NoneBefore(p[1..], name, |p| - 1) by {
        var j :| 0 <= j < |p| && p[j].lookup(name) != NotFound;
        assert p[1..][j - 1] == p[j];
      }
      ResolveIgnoresLater(p[1..], q, assemblerType, name);
    }
  }

  class AssemblerBrokerService {
    /** The registered factories per type. */
    var factories: map<string, seq<Factory>>
    /** Whether init completed (setInit(true)). */
    var initialized: bool
    /** The class names configured for each type. */
    const configuration: map<string, seq<string>>
    /** Class.forName(className).newInstance(), cast to AssemblerFactory. */
    const construct: string -> Result<Factory, Error>

    constructor(configuration: map<string, seq<string>>, construct: string -> Result<Factory, Error>)
      ensures factories == map[] && !initialized
      ensures this.configuration == configuration && this.construct == construct
    {
      factories := map[];
      initialized := false;
      this.configuration := configuration;
      this.construct := construct;
    }

    function Group(assemblerType: string): seq<Factory>
      reads this
    {
      GroupIn(factories, assemblerType)
    }

    /** getConfiguration().getList(assemblerType): an absent key is an empty list. */
    function Configured(assemblerType: string): seq<string>
    {
      if assemblerType in configuration then configuration[assemblerType] else []
    }

    /** registerFactories(assemblerType) over the given class names. */
    function Register(assemblerType: string, names: seq<string>): Registration
    {
      if |names| == 0 then Registration([], None)
      else
        match construct(names[0])
        case Failure(e) =>
          Registration([], Some(TurbineException("Failed registering " + assemblerType + " factory: " + names[0], Some(e))))
        case Success(f) =>
          var rest := Register(assemblerType, names[1..]);
          Registration([f] + rest.built, rest.failure)
    }

    /** The factories built are those of the longest prefix of names whose
        construction succeeds, in order; the failure, if any, is that of
        the name right after it. */
    lemma {:induction false} RegisterBuildsPrefix(assemblerType: string, names: seq<string>)
      ensures var reg := Register(assemblerType, names);
        && |reg.built| <= |names|
        && (forall i :: 0 <= i < |reg.built| ==> construct(names[i]) == Success(reg.built[i]))
        && (reg.failure.None? <==> |reg.built| == |names|)
        && (reg.failure.Some? ==>
              && construct(names[|reg.built|]).Failure?
              && reg.failure.value == TurbineException("Failed registering " + assemblerType + " factory: " + names[|reg.built|],
                                                         Some(construct(names[|reg.built|]).error)))
    {
      if |names| > 0 && construct(names[0]).Success? {
        RegisterBuildsPrefix(assemblerType, names[1..]);
        var reg := Register(assemblerType, names);
        forall i | 0 < i < |reg.built| ensures construct(names[i]) == Success(reg.built[i]) {
          assert names[i] == names[1..][i - 1];
        }
      }
    }

    /** init's loop over types, from the registry m. */
    function RegisterTypes(m: map<string, seq<Factory>>, types: seq<string>): InitOutcome
      decreases |types|
    {
      if |types| == 0 then InitOutcome(m, None)
      else
        var reg := Register(types[0], Configured(types[0]));
        var m' := WithRegistered(m, types[0], reg.built);
        if reg.failure.Some? then InitOutcome(m', reg.failure)
        else RegisterTypes(m', types[1..])
    }

    /** When the registration of types[k] is the first to fail, init reports
        that failure and the groups of the types after it are left as they
        were. */
    lemma {:induction false} RegisterTypesStopsAtFailure(m: map<string, seq<Factory>>, types: seq<string>, k: nat)
      decreases |types|
      requires k < |types|
      requires forall j :: 0 <= j < k ==> Register(types[j], Configured(types[j])).failure.None?
      requires Register(types[k], Configured(types[k])).failure.Some?
      ensures RegisterTypes(m, types).failure == Register(types[k], Configured(types[k])).failure
      ensures forall t :: t !in types[..k + 1] ==>
                (t in RegisterTypes(m, types).factories <==> t in m)
                && GroupIn(RegisterTypes(m, types).factories, t) == GroupIn(m, t)
    {
      var reg := Register(types[0], Configured(types[0]));
      var m' := WithRegistered(m, types[0], reg.built);
      if k > 0 {
        forall j | 0 <= j < k - 1
          ensures Register(types[1..][j], Configured(types[1..][j])).failure.None?
        {
          assert types[1..][j] == types[j + 1];
        }
        RegisterTypesStopsAtFailure(m', types[1..], k - 1);
        forall t | t !in types[..k + 1]
          ensures t !in types[1..][..k] && t != types[0]
        {
          assert types[1..][..k] == types[1..k + 1];
        }
      }
    }

    /** When every type registers without failure and the types are
        distinct, each type's group is its old group followed by all of its
        configured factories, in configuration order. */
    lemma {:induction false} RegisterTypesAllSucceed(m: map<string, seq<Factory>>, types: seq<string>)
      decreases |types|
      requires forall j :: 0 <= j < |types| ==> Register(types[j], Configured(types[j])).failure.None?
      requires forall i, j :: 0 <= i < j < |types| ==> types[i] != types[j]
      ensures RegisterTypes(m, types).failure.None?
      ensures forall j :: 0 <= j < |types| ==>
                GroupIn(RegisterTypes(m, types).factories, types[j])
                == GroupIn(m, types[j]) + Register(types[j], Configured(types[j])).built
    {
      if |types| > 0 {
        var reg := Register(types[0], Configured(types[0]));
        var m' := WithRegistered(m, types[0], reg.built);
        RegisterTypesAllSucceed(m', types[1..]);
        forall j | 1 <= j < |types|
          ensures GroupIn(RegisterTypes(m, types).factories, types[j])
                  == GroupIn(m, types[j]) + Register(types[j], Configured(types[j])).built
        {
          assert types[1..][j - 1] == types[j];
          assert types[0] != types[j];
        }
        assert types[0] !in types[1..] by {
          forall j | 0 <= j < |types| - 1 ensures types[1..][j] != types[0] {
            assert types[1..][j] == types[j + 1];
          }
        }
        RegisterTypesKeepsOthers(m', types[1..], types[0]);
      }
    }

    /** Registering types leaves the group of any other type alone. */
    lemma {:induction false} RegisterTypesKeepsOthers(m: map<string, seq<Factory>>, types: seq<string>, t: string)
      decreases |types|
      requires t !in types
      ensures GroupIn(RegisterTypes(m, types).factories, t) == GroupIn(m, t)
    {
      if |types| > 0 {
        var reg := Register(types[0], Configured(types[0]));
        var m' := WithRegistered(m, types[0], reg.built);
        if reg.failure.None? {
          assert t !in types[1..];
          RegisterTypesKeepsOthers(m', types[1..], t);
        }
      }
    }

    /** getFactoryGroup: the type's group, stored as an empty group first
        when the type has none, so even this read changes the registry. */
    method GetFactoryGroup(assemblerType: string) returns (group: seq<Factory>)
      modifies this
      ensures factories == if assemblerType in old(factories) then old(factories) else old(factories)[assemblerType := []]
      ensures group == Group(assemblerType) == old(Group(assemblerType))
      ensures initialized == old(initialized)
    {
      if assemblerType !in factories {
        factories := factories[assemblerType := []];
      }
      group := factories[assemblerType];
    }

    /** registerFactory: appends factory to the type's group; duplicates are
        kept and no other group changes. */
    method RegisterFactory(assemblerType: string, factory: Factory)
      modifies this
      ensures factories == WithRegistered(old(factories), assemblerType, [factory])
      ensures Group(assemblerType) == old(Group(assemblerType)) + [factory]
      ensures forall t :: t != assemblerType ==> Group(t) == old(Group(t))
      ensures initialized == old(initialized)
    {
      var group := GetFactoryGroup(assemblerType);
      factories := factories[assemblerType := group + [factory]];
    }

    /** registerFactories: constructs and registers the configured
        factories of assemblerType in order, stopping at the first failure and
        keeping those registered before it. */
    method RegisterFactories(assemblerType: string) returns (r: Result<(), Error>)
      modifies this
      ensures var reg := Register(assemblerType, Configured(assemblerType));
        && factories == WithRegistered(old(factories), assemblerType, reg.built)
        && r == (if reg.failure.Some? then Failure(reg.failure.value) else Success(()))
      ensures initialized == old(initialized)
    {
      var names := Configured(assemblerType);
      ghost var built: seq<Factory> := [];
      var i := 0;
      while i < |names|
        invariant 0 <= i <= |names|
        invariant factories == WithRegistered(old(factories), assemblerType, built)
        invariant var rest := Register(assemblerType, names[i..]);
          Register(assemblerType, names) == Registration(built + rest.built, rest.failure)
        invariant initialized == old(initialized)
      {
        var name := names[i];
        var made := construct(name);
        ghost var rest := Register(assemblerType, names[i..]);
        ghost var later := Register(assemblerType, names[i + 1..]);
        assert names[i..][0] == name && names[i..][1..] == names[i + 1..];
        match made {
          case Failure(e) =>
            assert rest == Registration([], Some(TurbineException("Failed registering " + assemblerType + " factory: " + name, Some(e))));
            assert built + [] == built;
            return Failure(TurbineException("Failed registering " + assemblerType + " factory: " + name, Some(e)));
          case Success(f) =>
            assert rest == Registration([f] + later.built, later.failure);
            assert built + rest.built == (built + [f]) + later.built;
            RegisterFactory(assemblerType, f);
            WithRegisteredTwice(old(factories), assemblerType, built, [f]);
            built := built + [f];
        }
        i := i + 1;
      }
      assert built + [] == built;
      r := Success(());
    }

    /** init: a fresh registry filled type by type in the order of TYPES;
        any failure is wrapped in an InitializationException and leaves the
        service not marked initialised. */
    method Init() returns (r: Result<(), Error>)
      modifies this
      ensures var outcome := RegisterTypes(map[], TYPES);
        && factories == outcome.factories
        && (outcome.failure.None? ==> r == Success(()) && initialized)
        && (outcome.failure.Some? ==>
              && r == Failure(InitializationException("AssemblerBrokerService failed to initialize", outcome.failure))
              && initialized == old(initialized))
    {
      factories := map[];
      var i := 0;
      while i < |TYPES|
        invariant 0 <= i <= |TYPES|
        invariant RegisterTypes(map[], TYPES) == RegisterTypes(factories, TYPES[i..])
        invariant initialized == old(initialized)
      {
        assert TYPES[i..][1..] == TYPES[i + 1..];
        var registered := RegisterFactories(TYPES[i]);
        if registered.Failure? {
          return Failure(InitializationException("AssemblerBrokerService failed to initialize", Some(registered.error)));
        }
        i := i + 1;
      }
      initialized := true;
      r := Success(());
    }

    /** getAssembler: asks the type's factories in registration order until one
        returns an assembler; null when none does, a TurbineException when
        one throws. */
    method GetAssembler(assemblerType: string, name: string) returns (r: Result<Option<Assembler>, Error>)
      modifies this
      ensures factories == if assemblerType in old(factories) then old(factories) else old(factories)[assemblerType := []]
      ensures r == Resolve(Group(assemblerType), assemblerType, name)
      ensures initialized == old(initialized)
    {
      var facs := GetFactoryGroup(assemblerType);
      var assembler: Option<Assembler> := None;
      var i := 0;
      while assembler == None && i < |facs|
        invariant 0 <= i <= |facs|
        invariant assembler == None ==> Resolve(facs, assemblerType, name) == Resolve(facs[i..], assemblerType, name)
        invariant assembler != None ==> Resolve(facs, assemblerType, name) == Success(assembler)
      {
        var fac := facs[i];
        assert facs[i..][1..] == facs[i + 1..];
        match fac.lookup(name) {
          case Found(a) =>
            assembler := Some(a);
          case NotFound =>
          case Threw(e) =>
            return Failure(FailedToLoad(name, assemblerType, fac, e));
        }
        i := i + 1;
      }
      r := Success(assembler);
    }
    /** When every configured factory of every type can be constructed,
        init registers all of them, each type's group holding its
        configured factories in configuration order. */
    lemma InitRegistersEveryType()
      requires forall t :: t in TYPES ==> Register(t, Configured(t)).failure.None?
      ensures RegisterTypes(map[], TYPES).failure.None?
      ensures forall j :: 0 <= j < |TYPES| ==>
                GroupIn(RegisterTypes(map[], TYPES).factories, TYPES[j]) == Register(TYPES[j], Configured(TYPES[j])).built
    {
      RegisterTypesAllSucceed(map[], TYPES);
    }
  }
}
