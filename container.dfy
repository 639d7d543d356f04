/** The dependency-injection container of core/container.py: `DIContainer`
    (register, get, has, clear, configure) and the lazily created global
    container of `get_container`.

    Interfaces are named by their class name. An instance is identified by
    a serial number the container hands out as it creates instances, which
    is how "the same instance" is observable in the model. Whether running
    a factory or a constructor raises is a parameter of `get`. */
module Container {
  import opened Common

  /** The configuration object passed to `configure`. */
  type Config = string

  /** An implementation class: its name, whether its constructor takes a
      `config` parameter, and whether its instances have `configure`. */
  datatype Impl = Impl(name: string, takesConfig: bool, hasConfigure: bool)

  /** How an instance was made: by the registered factory, or by calling
      the class (with the container's configuration when it takes one). */
  datatype Source = FromFactory | FromClass(impl: Impl, config: Option<Config>)

  /** An instance, and the configurations later passed to its
      `configure`. */
  datatype Instance = Instance(serial: nat, source: Source, reconfigured: seq<Config>)

  /** `ServiceRegistration` */
  datatype Registration = Registration(implementation: Impl, hasFactory: bool, singleton: bool,
                                       instance: Option<Instance>)

  /** The container's state. */
  datatype Snapshot = Snapshot(services: map<string, Registration>, config: Option<Config>, created: nat)

  /** Every cached instance was created before the next serial. */
  predicate Valid(s: Snapshot) {
    forall i :: i in s.services && s.services[i].instance.Some? ==> s.services[i].instance.value.serial < s.created
  }

  /** `register(interface, implementation, factory, singleton)` */
  function RegisterSpec(s: Snapshot, interface: string, impl: Impl, hasFactory: bool, singleton: bool): Snapshot {
    s.(services := s.services[interface := Registration(impl, hasFactory, singleton, None)])
  }

  /** `_create_instance(implementation)`: the configuration is passed when
      the constructor takes one and the container has one; a raising
      constructor becomes a GraphRAGError. */
  function CreateSpec(s: Snapshot, impl: Impl, ctor: Outcome): Result<Source> {
    if ctor.Fail? then
      Failure(Error(GraphRagError, "Failed to create instance of " + impl.name + ": " + ctor.error.message))
    else if impl.takesConfig && s.config.Some? then Success(FromClass(impl, s.config))
    else Success(FromClass(impl, None))
  }

  /** `get(interface)`: the result and the new state, given whether the
      factory or constructor it runs raises. */
  function GetSpec(s: Snapshot, interface: string, ctor: Outcome): (Result<Instance>, Snapshot) {
    if interface !in s.services then
      (Failure(Error(GraphRagError, "Service " + interface + " not registered")), s)
    else
      var reg := s.services[interface];
      if reg.singleton && reg.instance.Some? then (Success(reg.instance.value), s)
      else
        var made := if reg.hasFactory then (if ctor.Fail? then Failure(ctor.error) else Success(FromFactory))
                    else CreateSpec(s, reg.implementation, ctor);
        match made
        case Failure(e) => (Failure(e), s)
        case Success(source) =>
          var inst := Instance(s.created, source, []);
          var services := if reg.singleton then s.services[interface := reg.(instance := Some(inst))]
                          else s.services;
          (Success(inst), Snapshot(services, s.config, s.created + 1))
  }

  /** What `configure` does to one registration: a cached instance that has
      `configure` receives the configuration. The code tests the cached
      instance itself (it must be truthy and have a `configure` attribute);
      the model tests the registered implementation's `hasConfigure`, so an
      instance a factory built from another class, or a falsy instance, is
      not distinguished. */
  function ConfigureOne(reg: Registration, config: Config): Registration {
    if reg.instance.Some? && reg.implementation.hasConfigure then
      reg.(instance := Some(reg.instance.value.(reconfigured := reg.instance.value.reconfigured + [config])))
    else reg
  }

  class DIContainer {
    var services: map<string, Registration>
    var config: Option<Config>
    var created: nat

    function State(): Snapshot
      reads this
    {
      Snapshot(services, config, created)
    }

    constructor ()
      ensures State() == Snapshot(map[], None, 0)
    {
      services := map[];
      config := None;
      created := 0;
    }

    method Register(interface: string, impl: Impl, hasFactory: bool, singleton: bool)
      modifies this
      ensures State() == RegisterSpec(old(State()), interface, impl, hasFactory, singleton)
      ensures Has(interface)
    {
      services := services[interface := Registration(impl, hasFactory, singleton, None)];
    }

    method Get(interface: string, ctor: Outcome) returns (r: Result<Instance>)
      modifies this
      ensures (r, State()) == GetSpec(old(State()), interface, ctor)
    {
      if interface !in services {
        return Failure(Error(GraphRagError, "Service " + interface + " not registered"));
      }
      var reg := services[interface];
      if reg.singleton && reg.instance.Some? {
        return Success(reg.instance.value);
      }
      var source: Source;
      if reg.hasFactory {
        if ctor.Fail? {
          return Failure(ctor.error);
        }
        source := FromFactory;
      } else {
        var made := CreateSpec(State(), reg.implementation, ctor);
        if made.Failure? {
          return Failure(made.error);
        }
        source := made.value;
      }
      var inst := Instance(created, source, []);
      if reg.singleton {
        services := services[interface := reg.(instance := Some(inst))];
      }
      created := created + 1;
      r := Success(inst);
    }

    /** `configure(config)`: stores the configuration and passes it to
        every cached instance that has `configure`. */
    method Configure(c: Config)
      modifies this
      ensures config == Some(c) && created == old(created)
      ensures services.Keys == old(services).Keys
      ensures forall i :: i in services ==> services[i] == ConfigureOne(old(services)[i], c)
    {
      config := Some(c);
      var todo := services.Keys;
      ghost var before := services;
      while todo != {}
        invariant config == Some(c) && created == old(created)
        invariant todo <= services.Keys && services.Keys == before.Keys
        invariant forall i :: i in services ==>
                    services[i] == if i in todo then before[i] else ConfigureOne(before[i], c)
        decreases todo
      {
        var i :| i in todo;
        services := services[i := ConfigureOne(services[i], c)];
        todo := todo - {i};
      }
    }

    method Clear()
      modifies this
      ensures services == map[] && config == None && created == old(created)
      ensures forall i :: !Has(i)
    {
      services := map[];
      config := None;
    }

    predicate Has(interface: string)
      reads this
    {
      interface in services
    }
  }

  // ---------------------------------------------------------------------
  // Properties
  // ---------------------------------------------------------------------

  /** `get` of an interface never registered raises a GraphRAGError and
      changes nothing. */
  lemma GetUnregisteredFails(s: Snapshot, interface: string, ctor: Outcome)
    requires interface !in s.services
    ensures var (r, after) := GetSpec(s, interface, ctor);
            r.Failure? && r.error.kind == GraphRagError && after == s
  {
  }

  /** After `register`, the interface is known, with no cached instance
      (re-registering drops the old one), and other registrations are
      untouched. */
  lemma RegisterReplaces(s: Snapshot, interface: string, impl: Impl, hasFactory: bool, singleton: bool)
    ensures var after := RegisterSpec(s, interface, impl, hasFactory, singleton);
            && interface in after.services
            && after.services[interface] == Registration(impl, hasFactory, singleton, None)
            && (forall i :: i != interface ==> (i in after.services <==> i in s.services))
            && (forall i :: i != interface && i in s.services ==> after.services[i] == s.services[i])
            && after.config == s.config
  {
  }

  /** `get` preserves the validity of the state, and an instance it creates
      is new: its serial differs from every cached instance's. */
  lemma GetCreatesFresh(s: Snapshot, interface: string, ctor: Outcome)
    requires Valid(s)
    ensures var (r, after) := GetSpec(s, interface, ctor);
            && Valid(after)
            && (after.created > s.created ==>
                  r.Success? && r.value.serial == s.created
                  && forall i :: i in s.services && s.services[i].instance.Some? ==>
                       s.services[i].instance.value != r.value)
  {
  }

  /** For a singleton, once `get` has succeeded every later `get` returns
      the same instance and changes nothing, whatever a constructor would
      do. */
  lemma SingletonIsCached(s: Snapshot, interface: string, ctor1: Outcome, ctor2: Outcome)
    requires interface in s.services && s.services[interface].singleton
    ensures var (r1, s1) := GetSpec(s, interface, ctor1);
            r1.Success? ==> GetSpec(s1, interface, ctor2) == (r1, s1)
  {
  }

  /** A non-singleton is never cached: two successful `get`s return two
      different instances. */
  lemma NonSingletonIsFresh(s: Snapshot, interface: string, ctor1: Outcome, ctor2: Outcome)
    requires Valid(s) && interface in s.services && !s.services[interface].singleton
    ensures var (r1, s1) := GetSpec(s, interface, ctor1);
            var (r2, s2) := GetSpec(s1, interface, ctor2);
            && s1.services == s.services && s2.services == s.services
            && (r1.Success? && r2.Success? ==> r1.value != r2.value)
  {
  }

  /** A new instance comes from the factory when one is registered, and
      otherwise from the class, configured when its constructor takes the
      configuration and the container has one. */
  lemma FactoryOrClass(s: Snapshot, interface: string, ctor: Outcome)
    requires interface in s.services
    requires !(s.services[interface].singleton && s.services[interface].instance.Some?)
    ensures var reg := s.services[interface];
            var r := GetSpec(s, interface, ctor).0;
            && (r.Success? <==> ctor.Pass?)
            && (r.Success? && reg.hasFactory ==> r.value.source == FromFactory)
            && (r.Success? && !reg.hasFactory ==>
                  r.value.source == FromClass(reg.implementation,
                                              if reg.implementation.takesConfig then s.config else None))
            && (r.Failure? && !reg.hasFactory ==> r.error.kind == GraphRagError)
            && (r.Failure? && reg.hasFactory ==> r.error == ctor.error)
  {
  }

  /** `configure` reaches exactly the cached instances that have
      `configure`, and registration by registration nothing else changes. */
  lemma ConfigureReachesCachedOnly(reg: Registration, c: Config)
    ensures var after := ConfigureOne(reg, c);
            && after.implementation == reg.implementation && after.singleton == reg.singleton
            && after.hasFactory == reg.hasFactory
            && (after.instance.Some? <==> reg.instance.Some?)
            && (reg.instance.Some? ==> after.instance.value.serial == reg.instance.value.serial)
            && (reg.instance.Some? && reg.implementation.hasConfigure ==>
                  after.instance.value.reconfigured == reg.instance.value.reconfigured + [c])
            && (!(reg.instance.Some? && reg.implementation.hasConfigure) ==> after == reg)
  {
  }

  // ---------------------------------------------------------------------
  // get_container
  // ---------------------------------------------------------------------

  /** The module-level `_container` variable. */
  class Globals {
    var container: DIContainer?

    constructor ()
      ensures container == null
    {
      container := null;
    }

    /** `get_container()`: creates the global container on first use and
        returns the same one afterwards. */
    method GetContainer() returns (c: DIContainer)
      modifies this
      ensures old(container) != null ==> c == old(container)
      ensures old(container) == null ==> fresh(c) && c.State() == Snapshot(map[], None, 0)
      ensures container == c
    {
      if container == null {
        container := new DIContainer();
      }
      c := container;
    }

    /** `configure_services(config)`: the global container, created empty
        on first use, configured as `configure` does. */
    method ConfigureServices(cfg: Config) returns (c: DIContainer)
      modifies this, container
      ensures old(container) != null ==>
                && c == old(container)
                && c.created == old(container.created)
                && c.services.Keys == old(container.services).Keys
                && forall i :: i in c.services ==> c.services[i] == ConfigureOne(old(container.services)[i], cfg)
      ensures old(container) == null ==> fresh(c) && c.State() == Snapshot(map[], Some(cfg), 0)
      ensures container == c && c.config == Some(cfg)
    {
      c := GetContainer();
      c.Configure(cfg);
    }
  }
}
