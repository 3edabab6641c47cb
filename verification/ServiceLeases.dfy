/** Leases on host services, shared by the scripts that import natives and by the menus extensions show. */
module ServiceLeases {
  type Script = nat
  type Registration = nat
  type MenuSlot = nat

  datatype Service = Service(name: string, version: nat)

  /** The host lends a service once at a time; a call it refuses changes nothing. */
  class ServiceHost {
    var held: set<Service>
    ghost var refusals: nat

    constructor ()
      ensures held == {}
    {
      held, refusals := {}, 0;
    }

    method Acquire(service: Service) returns (done: bool)
      requires service !in held
      modifies this
      ensures held == if done then old(held) + {service} else old(held)
      ensures refusals == old(refusals) + (if done then 0 else 1)
    {
      done := *;
      if done { held := held + {service}; } else { refusals := refusals + 1; }
    }

    method Release(service: Service) returns (done: bool)
      requires service in held
      modifies this
      ensures held == if done then old(held) - {service} else old(held)
      ensures refusals == old(refusals) + (if done then 0 else 1)
    {
      done := *;
      if done { held := held - {service}; } else { refusals := refusals + 1; }
    }
  }

  /** A registered native: who offers it, and how many scripts and running calls use it. */
  datatype Provider = Provider(extension: nat, native: string, service: Service, users: nat, active: nat)

  type Providers = map<Registration, Provider>
  type Bindings = map<Script, set<Registration>>
  type Menus = map<MenuSlot, Service>

  /** A reason to hold a lease. */
  datatype Claim = ByScript(script: Script, registration: Registration) | ByMenu(slot: MenuSlot)

  function UsersOf(bindings: Bindings, registration: Registration): set<Script> {
    set script | script in bindings && registration in bindings[script]
  }

  function ScriptClaims(providers: Providers, bindings: Bindings, service: Service): set<Claim> {
    set script, registration |
      script in bindings && registration in bindings[script] && registration in providers &&
      providers[registration].service == service :: ByScript(script, registration)
  }

  function MenuClaims(menus: Menus, service: Service): set<Claim> {
    set slot | slot in menus && menus[slot] == service :: ByMenu(slot)
  }

  function Claims(providers: Providers, bindings: Bindings, menus: Menus, service: Service): set<Claim> {
    ScriptClaims(providers, bindings, service) + MenuClaims(menus, service)
  }

  predicate Counted(providers: Providers, bindings: Bindings) {
    forall registration :: registration in providers ==>
      providers[registration].users == |UsersOf(bindings, registration)|
  }

  predicate Bound(providers: Providers, bindings: Bindings) {
    forall script :: script in bindings ==> bindings[script] <= providers.Keys
  }

  ghost predicate HeldExactly(providers: Providers, bindings: Bindings, menus: Menus, held: set<Service>) {
    forall service :: service in held <==> Claims(providers, bindings, menus, service) != {}
  }

  ghost predicate Sound(providers: Providers, bindings: Bindings, menus: Menus, held: set<Service>) {
    Counted(providers, bindings) && Bound(providers, bindings) && HeldExactly(providers, bindings, menus, held)
  }

  // ----- changes ---------------------------------------------------------------------------

  function Users(providers: Providers, registration: Registration, users: nat): Providers
    requires registration in providers
  {
    providers[registration := providers[registration].(users := users)]
  }

  function WithBinding(bindings: Bindings, script: Script, registration: Registration): Bindings
    requires script in bindings
  {
    bindings[script := bindings[script] + {registration}]
  }

  function WithoutBinding(bindings: Bindings, script: Script, registration: Registration): Bindings
    requires script in bindings
  {
    bindings[script := bindings[script] - {registration}]
  }

  /** Counts and running calls do not matter to claims. */
  lemma SameServicesSameClaims(before: Providers, after: Providers, bindings: Bindings, service: Service)
    requires before.Keys == after.Keys
    requires forall r :: r in before ==> after[r].service == before[r].service
    ensures ScriptClaims(after, bindings, service) == ScriptClaims(before, bindings, service)
  {
  }

  lemma BindUsers(bindings: Bindings, script: Script, registration: Registration, other: Registration)
    requires script in bindings && registration !in bindings[script]
    ensures |UsersOf(WithBinding(bindings, script, registration), other)| ==
              |UsersOf(bindings, other)| + (if other == registration then 1 else 0)
  {
    var before, after := UsersOf(bindings, other), UsersOf(WithBinding(bindings, script, registration), other);
    if other == registration {
      assert after == before + {script} && script !in before;
    } else {
      assert after == before;
    }
  }

  lemma UnbindUsers(bindings: Bindings, script: Script, registration: Registration, other: Registration)
    requires script in bindings && registration in bindings[script]
    ensures |UsersOf(bindings, other)| ==
              |UsersOf(WithoutBinding(bindings, script, registration), other)| + (if other == registration then 1 else 0)
  {
    var before, after := UsersOf(bindings, other), UsersOf(WithoutBinding(bindings, script, registration), other);
    if other == registration {
      assert before == after + {script} && script !in after;
    } else {
      assert after == before;
    }
  }

  lemma BindClaims(providers: Providers, bindings: Bindings, script: Script, registration: Registration, service: Service)
    requires script in bindings && registration in providers
    ensures ScriptClaims(providers, WithBinding(bindings, script, registration), service) ==
              ScriptClaims(providers, bindings, service) +
              (if providers[registration].service == service then {ByScript(script, registration)} else {})
  {
  }

  lemma UnbindClaims(providers: Providers, bindings: Bindings, script: Script, registration: Registration, service: Service)
    requires script in bindings && registration in providers
    ensures ScriptClaims(providers, WithoutBinding(bindings, script, registration), service) ==
              ScriptClaims(providers, bindings, service) - {ByScript(script, registration)}
  {
  }

  lemma BindKeeps(providers: Providers, bindings: Bindings, menus: Menus, held: set<Service>,
                  script: Script, registration: Registration)
    requires Sound(providers, bindings, menus, held)
    requires script in bindings && registration in providers && registration !in bindings[script]
    ensures Sound(Users(providers, registration, providers[registration].users + 1),
                  WithBinding(bindings, script, registration), menus, held + {providers[registration].service})
  {
    var after, bound := Users(providers, registration, providers[registration].users + 1), WithBinding(bindings, script, registration);
    forall r | r in after ensures after[r].users == |UsersOf(bound, r)| { BindUsers(bindings, script, registration, r); }
    hide UsersOf, ScriptClaims, MenuClaims;
    forall service ensures service in held + {providers[registration].service} <==> Claims(after, bound, menus, service) != {} {
      BindClaims(providers, bindings, script, registration, service);
      SameServicesSameClaims(providers, after, bound, service);
      assert Claims(providers, bindings, menus, service) != {} <==> service in held;
    }
  }

  lemma BoundHasUsers(providers: Providers, bindings: Bindings, script: Script, registration: Registration)
    requires Counted(providers, bindings) && Bound(providers, bindings)
    requires script in bindings && registration in bindings[script]
    ensures registration in providers && providers[registration].users > 0
  {
    UnbindUsers(bindings, script, registration, registration);
  }

  lemma UnbindCounted(providers: Providers, bindings: Bindings, script: Script, registration: Registration)
    requires Counted(providers, bindings) && Bound(providers, bindings)
    requires script in bindings && registration in bindings[script]
    requires registration in providers && providers[registration].users > 0
    ensures Counted(Users(providers, registration, providers[registration].users - 1), WithoutBinding(bindings, script, registration))
    ensures Bound(Users(providers, registration, providers[registration].users - 1), WithoutBinding(bindings, script, registration))
  {
    hide UsersOf;
    forall r | r in providers { UnbindUsers(bindings, script, registration, r); }
  }

  /** The lease goes with its last claim. */
  lemma DropClaimHeld(before: Providers, bindingsBefore: Bindings, menusBefore: Menus, held: set<Service>,
                      after: Providers, bindings: Bindings, menus: Menus, service: Service, claim: Claim)
    requires HeldExactly(before, bindingsBefore, menusBefore, held)
    requires claim in Claims(before, bindingsBefore, menusBefore, service)
    requires forall s :: Claims(after, bindings, menus, s) ==
               if s == service then Claims(before, bindingsBefore, menusBefore, s) - {claim}
               else Claims(before, bindingsBefore, menusBefore, s)
    ensures HeldExactly(after, bindings, menus,
                        if |Claims(before, bindingsBefore, menusBefore, service)| == 1 then held - {service} else held)
  {
    hide Claims;
    var claims := Claims(before, bindingsBefore, menusBefore, service);
    OneOrMore(claims, claim);
    var left := if |claims| == 1 then held - {service} else held;
    forall s ensures s in left <==> Claims(after, bindings, menus, s) != {} {
      assert s in held <==> Claims(before, bindingsBefore, menusBefore, s) != {};
    }
  }

  lemma UnbindClaimsExactly(providers: Providers, bindings: Bindings, menus: Menus, script: Script, registration: Registration,
                            users: nat, service: Service)
    requires script in bindings && registration in providers
    ensures Claims(Users(providers, registration, users), WithoutBinding(bindings, script, registration), menus, service) ==
              if service == providers[registration].service
              then Claims(providers, bindings, menus, service) - {ByScript(script, registration)}
              else Claims(providers, bindings, menus, service)
  {
    UnbindClaims(providers, bindings, script, registration, service);
    SameServicesSameClaims(providers, Users(providers, registration, users), WithoutBinding(bindings, script, registration), service);
    NotAMenu(menus, service, script, registration);
    if service != providers[registration].service {
      assert ByScript(script, registration) !in ScriptClaims(providers, bindings, service);
    }
  }

  lemma UnbindKeeps(providers: Providers, bindings: Bindings, menus: Menus, held: set<Service>,
                    script: Script, registration: Registration)
    requires Sound(providers, bindings, menus, held)
    requires script in bindings && registration in bindings[script]
    requires registration in providers && providers[registration].users > 0
    ensures var service := providers[registration].service;
            Sound(Users(providers, registration, providers[registration].users - 1),
                  WithoutBinding(bindings, script, registration), menus,
                  if |Claims(providers, bindings, menus, service)| == 1 then held - {service} else held)
  {
    UnbindCounted(providers, bindings, script, registration);
    var service := providers[registration].service;
    assert ByScript(script, registration) in ScriptClaims(providers, bindings, service);
    var after := Users(providers, registration, providers[registration].users - 1);
    hide Counted, Bound;
    forall s { UnbindClaimsExactly(providers, bindings, menus, script, registration, providers[registration].users - 1, s); }
    DropClaimHeld(providers, bindings, menus, held, after, WithoutBinding(bindings, script, registration), menus,
                  service, ByScript(script, registration));
  }

  lemma MenuOpens(providers: Providers, bindings: Bindings, menus: Menus, held: set<Service>, slot: MenuSlot, service: Service)
    requires Sound(providers, bindings, menus, held) && slot !in menus
    ensures Sound(providers, bindings, menus[slot := service], held + {service})
  {
    hide Counted, Bound, ScriptClaims;
    forall s ensures s in held + {service} <==> Claims(providers, bindings, menus[slot := service], s) != {} {
      assert s in held <==> Claims(providers, bindings, menus, s) != {};
      assert MenuClaims(menus[slot := service], s) == MenuClaims(menus, s) + (if s == service then {ByMenu(slot)} else {});
    }
  }

  lemma MenuCloses(providers: Providers, bindings: Bindings, menus: Menus, held: set<Service>, slot: MenuSlot)
    requires Sound(providers, bindings, menus, held) && slot in menus
    ensures Sound(providers, bindings, menus - {slot},
                  if |Claims(providers, bindings, menus, menus[slot])| == 1 then held - {menus[slot]} else held)
  {
    assert ByMenu(slot) in MenuClaims(menus, menus[slot]);
    forall s ensures Claims(providers, bindings, menus - {slot}, s) ==
                       if s == menus[slot] then Claims(providers, bindings, menus, s) - {ByMenu(slot)}
                       else Claims(providers, bindings, menus, s)
    {
      assert MenuClaims(menus - {slot}, s) == MenuClaims(menus, s) - {ByMenu(slot)};
      assert ByMenu(slot) !in ScriptClaims(providers, bindings, s);
      assert s != menus[slot] ==> ByMenu(slot) !in MenuClaims(menus, s);
    }
    hide Counted, Bound;
    DropClaimHeld(providers, bindings, menus, held, providers, bindings, menus - {slot}, menus[slot], ByMenu(slot));
  }

  lemma NotAMenu(menus: Menus, service: Service, script: Script, registration: Registration)
    ensures ByScript(script, registration) !in MenuClaims(menus, service)
  {
  }

  lemma OneOrMore(claims: set<Claim>, claim: Claim)
    requires claim in claims
    ensures claims - {claim} == {} <==> claims == {claim}
    ensures |claims| == 1 <==> claims == {claim}
  {
    assert claims == (claims - {claim}) + {claim};
  }

  // ----- counting ---------------------------------------------------------------------------

  function ClaimsThrough(bindings: Bindings, registration: Registration): set<Claim> {
    set script | script in UsersOf(bindings, registration) :: ByScript(script, registration)
  }

  function ClaimsAmong(providers: Providers, bindings: Bindings, service: Service, some: set<Registration>): set<Claim> {
    set script, registration |
      script in bindings && registration in bindings[script] && registration in some && registration in providers &&
      providers[registration].service == service :: ByScript(script, registration)
  }

  lemma {:induction false} TaggedSize(scripts: set<Script>, registration: Registration)
    ensures |set script | script in scripts :: ByScript(script, registration)| == |scripts|
    decreases |scripts|
  {
    if scripts != {} {
      var script :| script in scripts;
      TaggedSize(scripts - {script}, registration);
      assert (set s | s in scripts :: ByScript(s, registration)) ==
             (set s | s in scripts - {script} :: ByScript(s, registration)) + {ByScript(script, registration)};
    } else {
      assert (set s | s in scripts :: ByScript(s, registration)) == {};
    }
  }

  /** One more registration adds its users, when it is of the service. */
  lemma CountOne(providers: Providers, bindings: Bindings, service: Service, some: set<Registration>, registration: Registration)
    requires registration in providers && registration !in some
    ensures |ClaimsAmong(providers, bindings, service, some + {registration})| ==
              |ClaimsAmong(providers, bindings, service, some)| +
              (if providers[registration].service == service then |UsersOf(bindings, registration)| else 0)
  {
    var before, after := ClaimsAmong(providers, bindings, service, some), ClaimsAmong(providers, bindings, service, some + {registration});
    var added := ClaimsThrough(bindings, registration);
    TaggedSize(UsersOf(bindings, registration), registration);
    if providers[registration].service == service {
      assert after == before + added && before !! added;
    } else {
      assert after == before;
    }
  }

  lemma {:induction false} MenuTaggedSize(slots: set<MenuSlot>)
    ensures |set slot | slot in slots :: ByMenu(slot)| == |slots|
    decreases |slots|
  {
    if slots != {} {
      var slot :| slot in slots;
      MenuTaggedSize(slots - {slot});
      assert (set s | s in slots :: ByMenu(s)) == (set s | s in slots - {slot} :: ByMenu(s)) + {ByMenu(slot)};
    } else {
      assert (set s | s in slots :: ByMenu(s)) == {};
    }
  }

  lemma AllClaimsCounted(providers: Providers, bindings: Bindings, menus: Menus, service: Service, slots: set<MenuSlot>)
    requires Bound(providers, bindings)
    requires forall slot :: slot in slots <==> slot in menus && menus[slot] == service
    ensures |ClaimsAmong(providers, bindings, service, providers.Keys)| + |slots| ==
              |Claims(providers, bindings, menus, service)|
  {
    assert ClaimsAmong(providers, bindings, service, providers.Keys) == ScriptClaims(providers, bindings, service);
    MenuTaggedSize(slots);
    assert MenuClaims(menus, service) == set slot | slot in slots :: ByMenu(slot);
    assert ScriptClaims(providers, bindings, service) !! MenuClaims(menus, service);
  }

  // ----- the leases --------------------------------------------------------------------------

  class Leases {
    const host: ServiceHost
    var providers: Providers
    var bindings: Bindings
    var menus: Menus
    var nextRegistration: Registration

    ghost predicate Valid()
      reads this, host
    {
      Sound(providers, bindings, menus, host.held) && Named(providers, nextRegistration)
    }

    constructor (host: ServiceHost)
      requires host.held == {}
      ensures Valid() && this.host == host && providers == map[] && bindings == map[] && menus == map[]
    {
      this.host := host;
      providers, bindings, menus, nextRegistration := map[], map[], map[], 1;
    }

    /** How many scripts and menus use a service. */
    method ServiceUsers(service: Service) returns (users: nat)
      requires Valid()
      ensures users == |Claims(providers, bindings, menus, service)|
    {
      hide Claims, ClaimsAmong, UsersOf, HeldExactly;
      users := 0;
      var rest := providers.Keys;
      NobodyYet(service);
      while rest != {}
        invariant rest <= providers.Keys
        invariant users == |ClaimsAmong(providers, bindings, service, providers.Keys - rest)|
        decreases rest
      {
        var registration :| registration in rest;
        CountOne(providers, bindings, service, providers.Keys - rest, registration);
        assert providers.Keys - rest + {registration} == providers.Keys - (rest - {registration});
        if providers[registration].service == service { users := users + providers[registration].users; }
        rest := rest - {registration};
      }
      assert providers.Keys - rest == providers.Keys;
      var slots := set slot | slot in menus && menus[slot] == service;
      AllClaimsCounted(providers, bindings, menus, service, slots);
      users := users + |slots|;
    }

    lemma NobodyYet(service: Service)
      ensures |ClaimsAmong(providers, bindings, service, providers.Keys - providers.Keys)| == 0
    {
      assert ClaimsAmong(providers, bindings, service, providers.Keys - providers.Keys) == {};
    }

    lemma HeldIfUsed(service: Service)
      requires Valid()
      ensures service in host.held <==> |Claims(providers, bindings, menus, service)| > 0
    {
      hide Claims;
      assert service in host.held <==> Claims(providers, bindings, menus, service) != {};
    }

    /** A native becomes available under a name nobody has taken; zero when it cannot. */
    method RegisterNative(extension: nat, native: string, service: Service) returns (registration: Registration)
      requires Valid()
      modifies this`providers, this`nextRegistration
      ensures Valid()
      ensures registration == 0 ==> providers == old(providers)
      ensures registration != 0 ==>
                registration !in old(providers) && providers == old(providers)[registration := Provider(extension, native, service, 0, 0)]
      ensures registration == 0 <==>
                old(nextRegistration) == LastId || exists r :: r in old(providers) && old(providers)[r].native == native
    {
      if nextRegistration == LastId || exists r :: r in providers && providers[r].native == native { return 0; }
      registration := nextRegistration;
      FreshKeeps(providers, bindings, menus, host.held, registration, Provider(extension, native, service, 0, 0));
      providers, nextRegistration := providers[registration := Provider(extension, native, service, 0, 0)], nextRegistration + 1;
    }

    /** A native nobody uses goes. */
    method UnregisterNative(extension: nat, registration: Registration) returns (done: bool)
      requires Valid()
      modifies this`providers
      ensures Valid()
      ensures done <==> registration in old(providers) && old(providers)[registration].extension == extension &&
                        UsersOf(bindings, registration) == {} && old(providers)[registration].active == 0
      ensures providers == if done then old(providers) - {registration} else old(providers)
    {
      if registration !in providers || providers[registration].extension != extension { return false; }
      assert providers[registration].users == |UsersOf(bindings, registration)|;
      if providers[registration].users > 0 || providers[registration].active > 0 { return false; }
      UnusedKeeps(providers, bindings, menus, host.held, registration);
      providers := providers - {registration};
      return true;
    }

    /** A script's call into a native begins: while it runs, nobody can take the native away. */
    method BeginCall(registration: Registration)
      requires Valid() && registration in providers
      modifies this`providers
      ensures Valid() && registration in providers && providers[registration].active == old(providers)[registration].active + 1
      ensures providers == old(providers)[registration := old(providers)[registration].(active := providers[registration].active)]
    {
      hide Sound, Named;
      SetActive(registration, providers[registration].active + 1);
    }

    /** The call is over, whether it returned or threw. */
    method EndCall(registration: Registration)
      requires Valid() && registration in providers && providers[registration].active > 0
      modifies this`providers
      ensures Valid() && registration in providers && providers[registration].active == old(providers)[registration].active - 1
      ensures providers == old(providers)[registration := old(providers)[registration].(active := providers[registration].active)]
    {
      hide Sound, Named;
      SetActive(registration, providers[registration].active - 1);
    }

    method SetActive(registration: Registration, active: nat)
      requires Valid() && registration in providers
      modifies this`providers
      ensures Valid() && providers == old(providers)[registration := old(providers)[registration].(active := active)]
    {
      hide ScriptClaims, MenuClaims, UsersOf;
      ActiveKeeps(providers, bindings, menus, host.held, registration, active);
      SameNames(providers, nextRegistration, registration, providers[registration].(active := active));
      hide Named;
      providers := providers[registration := providers[registration].(active := active)];
    }

    method Admit(script: Script)
      requires Valid() && script !in bindings
      modifies this`bindings
      ensures Valid() && bindings == old(bindings)[script := {}]
    {
      AdmitKeeps(providers, bindings, menus, host.held, script);
      bindings := bindings[script := {}];
    }

    method Dismiss(script: Script)
      requires Valid() && script in bindings && bindings[script] == {}
      modifies this`bindings
      ensures Valid() && bindings == old(bindings) - {script}
    {
      DismissKeeps(providers, bindings, menus, host.held, script);
      bindings := bindings - {script};
    }

    /** The natives are the same, with perhaps other numbers of users. */
    static predicate OnlyUsers(before: Providers, after: Providers) {
      after.Keys == before.Keys && forall r :: r in before ==> after[r] == before[r].(users := after[r].users)
    }

    /** Binds a script to the natives it imports; the first user of a service takes the lease. */
    method Bind(script: Script, imports: set<Registration>) returns (done: bool)
      requires Valid() && script in bindings && bindings[script] == {}
      modifies this`providers, this`bindings, host
      ensures Valid() && script in bindings && bindings == old(bindings)[script := bindings[script]]
      ensures bindings[script] <= imports * old(providers).Keys
      ensures done ==> bindings[script] == imports * old(providers).Keys
      ensures host.refusals == old(host.refusals) ==> done
      ensures OnlyUsers(old(providers), providers) && menus == old(menus)
    {
      hide Sound;
      var rest := imports * providers.Keys;
      while rest != {}
        invariant Valid() && script in bindings && bindings == old(bindings)[script := bindings[script]]
        invariant rest !! bindings[script] && rest + bindings[script] == imports * old(providers).Keys
        invariant OnlyUsers(old(providers), providers) && menus == old(menus)
        invariant host.refusals == old(host.refusals)
        decreases rest
      {
        var registration :| registration in rest;
        var bound := BindOne(script, registration);
        if !bound { return false; }
        rest := rest - {registration};
      }
      return true;
    }

    /** The first user of a service takes the lease. */
    method TakeLease(service: Service) returns (done: bool)
      requires Valid()
      modifies host
      ensures if done then host.held == old(host.held) + {service} && host.refusals == old(host.refusals)
              else host.held == old(host.held) && host.refusals == old(host.refusals) + 1
    {
      hide Sound, Claims, Named;
      var users := ServiceUsers(service);
      HeldIfUsed(service);
      if users > 0 {
        assert host.held + {service} == host.held;
        return true;
      }
      done := host.Acquire(service);
    }

    /** The last user of a service gives the lease back. */
    method GiveLease(service: Service) returns (done: bool)
      requires Valid() && Claims(providers, bindings, menus, service) != {}
      modifies host
      ensures if done
              then && host.held == (if |Claims(providers, bindings, menus, service)| == 1 then old(host.held) - {service} else old(host.held))
                   && host.refusals == old(host.refusals)
              else host.held == old(host.held) && host.refusals == old(host.refusals) + 1
    {
      hide Sound, Claims, Named;
      var users := ServiceUsers(service);
      HeldIfUsed(service);
      if users != 1 { return true; }
      done := host.Release(service);
    }

    method BindOne(script: Script, registration: Registration) returns (done: bool)
      requires Valid() && script in bindings && registration in providers && registration !in bindings[script]
      modifies this`providers, this`bindings, host
      ensures Valid()
      ensures if done then && bindings == WithBinding(old(bindings), script, registration)
                           && providers == Users(old(providers), registration, old(providers)[registration].users + 1)
                           && host.refusals == old(host.refusals)
              else bindings == old(bindings) && providers == old(providers) && host.refusals == old(host.refusals) + 1
    {
      hide Sound, Claims, Named;
      BindKeeps(providers, bindings, menus, host.held, script, registration);
      SameNames(providers, nextRegistration, registration, providers[registration].(users := providers[registration].users + 1));
      var taken := TakeLease(providers[registration].service);
      if !taken { return false; }
      providers := providers[registration := providers[registration].(users := providers[registration].users + 1)];
      bindings := bindings[script := bindings[script] + {registration}];
      return true;
    }

    /** Takes one native from a script, unless a call into it is running. */
    method Unbind(script: Script, registration: Registration) returns (done: bool)
      requires Valid() && script in bindings && registration in bindings[script]
      requires registration in providers && providers[registration].users > 0
      modifies this`providers, this`bindings, host
      ensures Valid()
      ensures if done then && bindings == WithoutBinding(old(bindings), script, registration)
                           && providers == Users(old(providers), registration, old(providers)[registration].users - 1)
              else bindings == old(bindings) && providers == old(providers)
      ensures done ==> host.refusals == old(host.refusals)
      ensures !done ==> old(providers)[registration].active > 0 || host.refusals == old(host.refusals) + 1
      ensures old(providers)[registration].active > 0 ==> !done && host.held == old(host.held) && host.refusals == old(host.refusals)
      ensures host.refusals >= old(host.refusals)
    {
      hide Sound, Claims, Named;
      if providers[registration].active > 0 { return false; }
      ClaimOfBinding(providers, bindings, menus, script, registration);
      UnbindKeeps(providers, bindings, menus, host.held, script, registration);
      SameNames(providers, nextRegistration, registration, providers[registration].(users := providers[registration].users - 1));
      var given := GiveLease(providers[registration].service);
      if !given { return false; }
      providers := providers[registration := providers[registration].(users := providers[registration].users - 1)];
      bindings := bindings[script := bindings[script] - {registration}];
      return true;
    }

    /** One attempt at taking every native from a script. */
    method ReleaseAll(script: Script) returns (done: bool)
      requires Valid() && script in bindings
      modifies this`providers, this`bindings, host
      ensures Valid() && script in bindings && bindings == old(bindings)[script := bindings[script]]
      ensures bindings[script] <= old(bindings[script])
      ensures done <==> bindings[script] == {}
      ensures host.refusals >= old(host.refusals)
      ensures host.refusals == old(host.refusals) && AllIdle(old(providers), old(bindings[script])) ==> done
      ensures forall r :: r in old(bindings[script]) && r in old(providers) && old(providers)[r].active > 0 ==> r in bindings[script]
      ensures OnlyUsers(old(providers), providers) && menus == old(menus)
    {
      hide Sound;
      done := true;
      var rest := bindings[script];
      while rest != {}
        invariant Valid() && script in bindings && bindings == old(bindings)[script := bindings[script]]
        invariant rest <= bindings[script] <= old(bindings[script])
        invariant done <==> bindings[script] == rest
        invariant OnlyUsers(old(providers), providers) && menus == old(menus)
        invariant forall r :: r in old(bindings[script]) && r in old(providers) && old(providers)[r].active > 0 ==> r in bindings[script]
        invariant host.refusals >= old(host.refusals)
        invariant host.refusals == old(host.refusals) && AllIdle(old(providers), old(bindings[script])) ==> done
        decreases rest
      {
        var registration :| registration in rest;
        BoundUsed(script, registration);
        var released := Unbind(script, registration);
        done := done && released;
        rest := rest - {registration};
      }
    }

    lemma BoundUsed(script: Script, registration: Registration)
      requires Valid() && script in bindings && registration in bindings[script]
      ensures registration in providers && providers[registration].users > 0
    {
      BoundHasUsers(providers, bindings, script, registration);
    }

    /** No call into the natives is running. */
    static predicate AllIdle(providers: Providers, registrations: set<Registration>) {
      forall r :: r in registrations ==> r in providers && providers[r].active == 0
    }

    /** A menu opens: the first user of its service takes the lease. */
    method ClaimForMenu(slot: MenuSlot, service: Service) returns (done: bool)
      requires Valid() && slot !in menus
      modifies this`menus, host
      ensures Valid()
      ensures menus == if done then old(menus)[slot := service] else old(menus)
      ensures done <==> host.refusals == old(host.refusals)
      ensures host.refusals >= old(host.refusals)
    {
      hide Sound, Claims, Named;
      MenuOpens(providers, bindings, menus, host.held, slot, service);
      done := TakeLease(service);
      if done { menus := menus[slot := service]; }
    }

    /** A menu closes: the last user of its service gives the lease back first. */
    method DropForMenu(slot: MenuSlot) returns (done: bool)
      requires Valid() && slot in menus
      modifies this`menus, host
      ensures Valid()
      ensures menus == if done then old(menus) - {slot} else old(menus)
      ensures done <==> host.refusals == old(host.refusals)
      ensures host.refusals >= old(host.refusals)
    {
      hide Sound, Claims, Named;
      ClaimOfMenu(providers, bindings, menus, slot);
      MenuCloses(providers, bindings, menus, host.held, slot);
      done := GiveLease(menus[slot]);
      if done { menus := menus - {slot}; }
    }
  }

  lemma ClaimOfMenu(providers: Providers, bindings: Bindings, menus: Menus, slot: MenuSlot)
    requires slot in menus
    ensures Claims(providers, bindings, menus, menus[slot]) != {}
  {
    assert ByMenu(slot) in MenuClaims(menus, menus[slot]);
  }

  /** No two registrations share a native's name or will share a number. */
  predicate Named(providers: Providers, next: Registration) {
    && 0 < next
    && (forall r :: r in providers ==> r < next)
    && forall a, b :: a in providers && b in providers && providers[a].native == providers[b].native ==> a == b
  }

  lemma SameNames(providers: Providers, next: Registration, registration: Registration, provider: Provider)
    requires Named(providers, next) && registration in providers && provider.native == providers[registration].native
    ensures Named(providers[registration := provider], next)
  {
  }

  const LastId: nat := 0xFFFF_FFFF_FFFF_FFFF

  lemma ClaimOfBinding(providers: Providers, bindings: Bindings, menus: Menus, script: Script, registration: Registration)
    requires script in bindings && registration in bindings[script] && registration in providers
    ensures Claims(providers, bindings, menus, providers[registration].service) != {}
  {
    assert ByScript(script, registration) in ScriptClaims(providers, bindings, providers[registration].service);
  }

  lemma FreshKeeps(providers: Providers, bindings: Bindings, menus: Menus, held: set<Service>, registration: Registration,
                   provider: Provider)
    requires Sound(providers, bindings, menus, held) && registration !in providers && provider.users == 0
    ensures Sound(providers[registration := provider], bindings, menus, held)
  {
    var after := providers[registration := provider];
    assert UsersOf(bindings, registration) == {};
    forall service ensures Claims(after, bindings, menus, service) == Claims(providers, bindings, menus, service) {
      assert ScriptClaims(after, bindings, service) == ScriptClaims(providers, bindings, service);
    }
    hide Claims, UsersOf;
  }

  lemma UnusedKeeps(providers: Providers, bindings: Bindings, menus: Menus, held: set<Service>, registration: Registration)
    requires Sound(providers, bindings, menus, held) && registration in providers && UsersOf(bindings, registration) == {}
    ensures Sound(providers - {registration}, bindings, menus, held)
  {
    var after := providers - {registration};
    forall script | script in bindings ensures registration !in bindings[script] {
      assert script !in UsersOf(bindings, registration);
    }
    forall service ensures Claims(after, bindings, menus, service) == Claims(providers, bindings, menus, service) {
      assert ScriptClaims(after, bindings, service) == ScriptClaims(providers, bindings, service);
    }
    hide Claims, UsersOf;
  }

  lemma ActiveKeeps(providers: Providers, bindings: Bindings, menus: Menus, held: set<Service>, registration: Registration, active: nat)
    requires Sound(providers, bindings, menus, held) && registration in providers
    ensures Sound(providers[registration := providers[registration].(active := active)], bindings, menus, held)
  {
    var after := providers[registration := providers[registration].(active := active)];
    forall service ensures Claims(after, bindings, menus, service) == Claims(providers, bindings, menus, service) {
      SameServicesSameClaims(providers, after, bindings, service);
    }
    hide Claims, UsersOf;
  }

  lemma AdmitKeeps(providers: Providers, bindings: Bindings, menus: Menus, held: set<Service>, script: Script)
    requires Sound(providers, bindings, menus, held) && script !in bindings
    ensures Sound(providers, bindings[script := {}], menus, held)
  {
    var after := bindings[script := {}];
    forall r ensures UsersOf(after, r) == UsersOf(bindings, r) {}
    forall service ensures Claims(providers, after, menus, service) == Claims(providers, bindings, menus, service) {
      assert ScriptClaims(providers, after, service) == ScriptClaims(providers, bindings, service);
    }
    hide Claims, UsersOf;
  }

  lemma DismissKeeps(providers: Providers, bindings: Bindings, menus: Menus, held: set<Service>, script: Script)
    requires Sound(providers, bindings, menus, held) && script in bindings && bindings[script] == {}
    ensures Sound(providers, bindings - {script}, menus, held)
  {
    var after := bindings - {script};
    forall r ensures UsersOf(after, r) == UsersOf(bindings, r) {}
    forall service ensures Claims(providers, after, menus, service) == Claims(providers, bindings, menus, service) {
      assert ScriptClaims(providers, after, service) == ScriptClaims(providers, bindings, service);
    }
    hide Claims, UsersOf;
  }
}
