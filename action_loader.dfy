/** ActionLoader: hands out Action instances by name, from its own cache
    when caching is on, otherwise from the assembler broker. */
module ActionLoader {
  import opened Wrappers
  import opened Errors
  import opened JavaLang
  import opened AssemblerBroker

  /** Action.NAME: the assembler type actions are registered under. */
  const ACTION_NAME: string := ACTION_TYPE

  const NOT_FOUND_PREFIX: string := "\n\n\tRequested Action not found: "

  /** The packages named in the not-found message: the configured
      module.packages, with the base package added at the end when it is
      not among them. */
  function SearchPath(modulePackages: seq<string>, basePackage: string): (r: seq<string>)
    ensures basePackage in r
    ensures |modulePackages| <= |r| && r[..|modulePackages|] == modulePackages
    ensures |r| == if basePackage in modulePackages then |modulePackages| else |modulePackages| + 1
  {
    if basePackage in modulePackages then modulePackages else modulePackages + [basePackage]
  }

  /** The ClassNotFoundException message for a missing action. */
  function NotFoundMessage(name: string, packages: seq<string>): (m: string)
    ensures |NOT_FOUND_PREFIX| + |name| <= |m|
    ensures m[|NOT_FOUND_PREFIX|..|NOT_FOUND_PREFIX| + |name|] == name
  {
    var m := NOT_FOUND_PREFIX + name
      + "\n\tTurbine looked in the following " + "modules.packages path: \n\t" + ListToString(packages) + "\n";
    assert m[|NOT_FOUND_PREFIX|..|NOT_FOUND_PREFIX| + |name|] == (NOT_FOUND_PREFIX + name)[|NOT_FOUND_PREFIX|..];
    m
  }

  /** The outcome of one getInstance call: its result, the cache after it,
      and whether the broker was asked. */
  datatype Instance = Instance(result: Result<Assembler, Error>, cache: map<string, Assembler>, askedBroker: bool)

  /** The result of getInstance on a cache miss, from the broker's answer:
      a broker exception propagates; null and an assembler that is not an
      Action both become a ClassNotFoundException. */
  function FromBroker(answer: Result<Option<Assembler>, Error>, name: string, packages: seq<string>): Result<Assembler, Error>
  {
    match answer
    case Failure(e) => Failure(e)
    case Success(Some(a)) =>
      if a.kind == Action then Success(a)
      else Failure(ClassNotFoundException(NotFoundMessage(name, packages)))
    case Success(None) => Failure(ClassNotFoundException(NotFoundMessage(name, packages)))
  }

  /** getInstance, given the cache switch, the cache, the broker's action
      factories and the search path. */
  function InstanceOf(name: string, cacheEnabled: bool, cache: map<string, Assembler>,
                      group: seq<Factory>, packages: seq<string>): Instance
  {
    if cacheEnabled && name in cache then Instance(Success(cache[name]), cache, false)
    else
      var r := FromBroker(Resolve(group, ACTION_NAME, name), name, packages);
      var cache' := if cacheEnabled && r.Success? then cache[name := r.value] else cache;
      Instance(r, cache', true)
  }

  /** A cache hit returns the cached action and asks the broker nothing. */
  lemma CacheHitSkipsBroker(name: string, cache: map<string, Assembler>, group: seq<Factory>, packages: seq<string>)
    requires name in cache
    ensures InstanceOf(name, true, cache, group, packages) == Instance(Success(cache[name]), cache, false)
  {
  }

  /** A broker answer that is not an Action is treated exactly as null. */
  lemma NotAnActionIsNotFound(a: Assembler, name: string, packages: seq<string>)
    requires a.kind != Action
    ensures FromBroker(Success(Some(a)), name, packages) == FromBroker(Success(None), name, packages)
    ensures FromBroker(Success(None), name, packages).Failure?
  {
  }

  /** Each answer of the broker determines the result: a found action, the
      broker's own exception, or not-found for anything else. */
  lemma FromBrokerCases(answer: Result<Option<Assembler>, Error>, name: string, packages: seq<string>)
    ensures var r := FromBroker(answer, name, packages);
      && (r.Success? <==> answer.Success? && answer.value.Some? && answer.value.value.kind == Action)
      && (r.Success? ==> r.value == answer.value.value)
      && (answer.Failure? ==> r == Failure(answer.error))
      && (answer.Success? && r.Failure? ==> r.error == ClassNotFoundException(NotFoundMessage(name, packages)))
  {
  }

  /** Only the cache switch lets a lookup write the cache, and a lookup
      writes at most its own name, with the action it returns. */
  lemma CacheWrittenOnlyWhenEnabled(name: string, cacheEnabled: bool, cache: map<string, Assembler>,
                                    group: seq<Factory>, packages: seq<string>)
    ensures var o := InstanceOf(name, cacheEnabled, cache, group, packages);
      && (!cacheEnabled ==> o.cache == cache && o.askedBroker)
      && (o.cache == cache || (o.result.Success? && o.cache == cache[name := o.result.value]))
  {
  }

  /** With caching on, a successful lookup makes the next lookup of the
      same name return the identical action without asking the broker,
      whatever the broker's factories have become. */
  lemma SecondLookupIsCached(name: string, cache: map<string, Assembler>,
                             group: seq<Factory>, group': seq<Factory>, packages: seq<string>)
    requires InstanceOf(name, true, cache, group, packages).result.Success?
    ensures var first := InstanceOf(name, true, cache, group, packages);
      var second := InstanceOf(name, true, first.cache, group', packages);
      second.result == first.result && !second.askedBroker && second.cache == first.cache
  {
  }

  /** The action a successful lookup of a not yet cached name returns is
      the first Action the broker's factories hand out. */
  lemma MissReturnsFirstFactoryAction(name: string, cacheEnabled: bool, cache: map<string, Assembler>,
                                      group: seq<Factory>, packages: seq<string>, i: nat)
    requires !(cacheEnabled && name in cache)
    requires i < |group| && NoneBefore(group, name, i)
    requires group[i].lookup(name).Found? && group[i].lookup(name).assembler.kind == Action
    ensures InstanceOf(name, cacheEnabled, cache, group, packages).result == Success(group[i].lookup(name).assembler)
  {
    ResolveFirstFound(group, ACTION_NAME, name, i);
  }

  class ActionLoader {
    /** The loader's own table of loaded actions. */
    var cache: map<string, Assembler>
    /** GenericLoader.cache(): whether loaded actions are kept. */
    const cacheEnabled: bool
    /** The assembler broker (ab). */
    const broker: AssemblerBrokerService
    /** The configured module.packages list. */
    const modulePackages: seq<string>
    /** GenericLoader.getBasePackage(). */
    const basePackage: string

    /** Only actions are ever cached. */
    ghost predicate Valid()
      reads this
    {
      forall n :: n in cache ==> cache[n].kind == Action
    }

    constructor(cacheEnabled: bool, broker: AssemblerBrokerService, modulePackages: seq<string>, basePackage: string)
      ensures Valid() && cache == map[]
      ensures this.cacheEnabled == cacheEnabled && this.broker == broker
      ensures this.modulePackages == modulePackages && this.basePackage == basePackage
    {
      cache := map[];
      this.cacheEnabled := cacheEnabled;
      this.broker := broker;
      this.modulePackages := modulePackages;
      this.basePackage := basePackage;
    }

    /** addInstance: stores the action only when caching is on. */
    method AddInstance(name: string, action: Assembler)
      requires Valid() && action.kind == Action
      modifies this
      ensures Valid()
      ensures cache == if cacheEnabled then old(cache)[name := action] else old(cache)
    {
      if cacheEnabled {
        cache := cache[name := action];
      }
    }

    /** getInstance: the cached action on a hit, else the broker's, cached
        when caching is on; a missing action is a ClassNotFoundException. */
    method GetInstance(name: string) returns (r: Result<Assembler, Error>)
      requires Valid()
      modifies this, broker
      ensures Valid()
      ensures r.Success? ==> r.value.kind == Action
      ensures var o := InstanceOf(name, cacheEnabled, old(cache), old(broker.Group(ACTION_NAME)),
                                  SearchPath(modulePackages, basePackage));
        && r == o.result && cache == o.cache
        && broker.factories == (if !o.askedBroker || ACTION_NAME in old(broker.factories) then old(broker.factories)
                                else old(broker.factories)[ACTION_NAME := []])
      ensures broker.initialized == old(broker.initialized)
    {
      if cacheEnabled && name in cache {
        return Success(cache[name]);
      }
      var answer := broker.GetAssembler(ACTION_NAME, name);
      match answer {
        case Failure(e) =>
          r := Failure(e);
        case Success(found) =>
          if found.Some? && found.value.kind == Action {
            r := Success(found.value);
            if cacheEnabled {
              AddInstance(name, found.value);
            }
          } else {
            var packages := SearchPath(modulePackages, basePackage);
            r := Failure(ClassNotFoundException(NotFoundMessage(name, packages)));
          }
      }
    }

    /** getAssembler: the same lookup as getInstance. */
    method GetAssembler(name: string) returns (r: Result<Assembler, Error>)
      requires Valid()
      modifies this, broker
      ensures Valid()
      ensures var o := InstanceOf(name, cacheEnabled, old(cache), old(broker.Group(ACTION_NAME)),
                                  SearchPath(modulePackages, basePackage));
        && r == o.result && cache == o.cache
        && broker.factories == (if !o.askedBroker || ACTION_NAME in old(broker.factories) then old(broker.factories)
                                else old(broker.factories)[ACTION_NAME := []])
      ensures broker.initialized == old(broker.initialized)
    {
      r := GetInstance(name);
    }

    /** exec: looks the action up and performs it; an exception from either
        step propagates as it is. */
    method Exec(name: string, perform: Assembler -> Result<(), Error>) returns (r: Result<(), Error>)
      requires Valid()
      modifies this, broker
      ensures Valid()
      ensures var o := InstanceOf(name, cacheEnabled, old(cache), old(broker.Group(ACTION_NAME)),
                                  SearchPath(modulePackages, basePackage));
        && cache == o.cache
        && r == (match o.result case Success(a) => perform(a) case Failure(e) => Failure(e))
        && broker.factories == (if !o.askedBroker || ACTION_NAME in old(broker.factories) then old(broker.factories)
                                else old(broker.factories)[ACTION_NAME := []])
      ensures broker.initialized == old(broker.initialized)
    {
      var action := GetInstance(name);
      match action {
        case Failure(e) => r := Failure(e);
        case Success(a) => r := perform(a);
      }
    }
  }
}
