/** service/impl/ProfessionalServiceImpl.java: registering a professional,
    switching its verified and available flags, and editing the set of
    services it offers. The professionals table is a map from id to row;
    the Service entities a professional links are represented by their ids
    (within one persistence context there is one Service object per id). */
module Professionals {
  import opened Common
  import opened Accounts

  /** model/Professional.java: the User columns plus the professional's own
      flags and the ids of its services. */
  datatype Professional = Professional(user: User, isVerified: bool, isAvailable: bool, services: set<nat>)

  /** `new Professional()`: the User defaults, not verified, available, no
      services. */
  function NewProfessional(): (p: Professional)
    ensures p.user == NewUser()
    ensures !p.isVerified && p.isAvailable && p.services == {}
  {
    Professional(NewUser(), false, true, {})
  }

  /** The row registerProfessional saves under the id the table assigns:
      the request's name, email and phone, the encoded password, role
      ROLE_PROFESSIONAL, enabled, not verified and not available. The
      request's service ids are not read, so the row offers no service. */
  function Registered(id: nat, name: string, email: string, password: string, phone: string,
                      encode: Option<string> -> string): (p: Professional)
    ensures p.user.id == Some(id) && p.user.name == Some(name) && p.user.email == Some(email)
    ensures p.user.phone == Some(phone) && p.user.password == Some(encode(Some(password)))
    ensures p.user.role == Some(RoleProfessional) && p.user.enabled
    ensures !p.isVerified && !p.isAvailable && p.services == {}
    ensures !p.user.emailVerified && p.user.active
  {
    var blank := NewProfessional();
    blank.(user := blank.user.(id := Some(id), name := Some(name), email := Some(email),
                               password := Some(encode(Some(password))), phone := Some(phone),
                               role := Some(RoleProfessional), enabled := true),
           isVerified := false, isAvailable := false)
  }

  /** Whether q differs from p at most in the given flag and service set:
      the User columns are the same. */
  predicate SameUser(p: Professional, q: Professional) {
    q.user == p.user
  }

  /** Whether two tables agree everywhere except possibly at id. */
  predicate OthersUnchanged(ps: map<nat, Professional>, qs: map<nat, Professional>, id: nat) {
    qs.Keys == ps.Keys && forall k :: k in ps && k != id ==> qs[k] == ps[k]
  }

  /** updateVerificationStatus(id, verified) on the table. */
  function VerificationOutcome(ps: map<nat, Professional>, id: nat, verified: bool): (r: Result<map<nat, Professional>>)
    ensures id !in ps <==> r == Err(NotFound)
    ensures r.Ok? ==> OthersUnchanged(ps, r.value, id) && r.value[id].isVerified == verified &&
                      SameUser(ps[id], r.value[id]) && r.value[id].isAvailable == ps[id].isAvailable &&
                      r.value[id].services == ps[id].services
  {
    if id !in ps then Err(NotFound) else Ok(ps[id := ps[id].(isVerified := verified)])
  }

  /** updateAvailabilityStatus(id, available) on the table. */
  function AvailabilityOutcome(ps: map<nat, Professional>, id: nat, available: bool): (r: Result<map<nat, Professional>>)
    ensures id !in ps <==> r == Err(NotFound)
    ensures r.Ok? ==> OthersUnchanged(ps, r.value, id) && r.value[id].isAvailable == available &&
                      SameUser(ps[id], r.value[id]) && r.value[id].isVerified == ps[id].isVerified &&
                      r.value[id].services == ps[id].services
  {
    if id !in ps then Err(NotFound) else Ok(ps[id := ps[id].(isAvailable := available)])
  }

  /** addService(professionalId, serviceId): NotFound for an unknown
      professional, then for an unknown service; otherwise the service
      joins the professional's set (HashSet.add, so adding twice is
      harmless). */
  function AddServiceOutcome(ps: map<nat, Professional>, catalog: set<nat>, professionalId: nat, serviceId: nat)
    : (r: Result<map<nat, Professional>>)
    ensures professionalId !in ps ==> r == Err(NotFound)
    ensures professionalId in ps && serviceId !in catalog ==> r == Err(NotFound)
    ensures r.Ok? <==> professionalId in ps && serviceId in catalog
    ensures r.Ok? ==> OthersUnchanged(ps, r.value, professionalId) &&
                      r.value[professionalId].services == ps[professionalId].services + {serviceId} &&
                      r.value[professionalId].user == ps[professionalId].user &&
                      r.value[professionalId].isVerified == ps[professionalId].isVerified &&
                      r.value[professionalId].isAvailable == ps[professionalId].isAvailable
  {
    if professionalId !in ps then Err(NotFound)
    else if serviceId !in catalog then Err(NotFound)
    else
      var p := ps[professionalId];
      Ok(ps[professionalId := p.(services := p.services + {serviceId})])
  }

  /** `services.removeIf(s -> s.getId().equals(serviceId))`: the services
      kept, and whether any was removed. */
  function RemoveIfId(services: set<nat>, serviceId: nat): (r: (set<nat>, bool))
    ensures serviceId !in r.0 && r.0 <= services
    ensures forall s :: s in services && s != serviceId ==> s in r.0
    ensures r.1 <==> serviceId in services
  {
    (services - {serviceId}, serviceId in services)
  }

  /** removeService(professionalId, serviceId): NotFound for an unknown
      professional, and NotFound when nothing was removed; otherwise the
      professional no longer offers the service. */
  function RemoveServiceOutcome(ps: map<nat, Professional>, professionalId: nat, serviceId: nat)
    : (r: Result<map<nat, Professional>>)
    ensures r.Ok? <==> professionalId in ps && serviceId in ps[professionalId].services
    ensures r.Err? ==> r.error == NotFound
    ensures r.Ok? ==> OthersUnchanged(ps, r.value, professionalId) &&
                      r.value[professionalId].services == ps[professionalId].services - {serviceId} &&
                      r.value[professionalId].user == ps[professionalId].user &&
                      r.value[professionalId].isVerified == ps[professionalId].isVerified &&
                      r.value[professionalId].isAvailable == ps[professionalId].isAvailable
  {
    if professionalId !in ps then Err(NotFound)
    else
      var p := ps[professionalId];
      var (kept, removed) := RemoveIfId(p.services, serviceId);
      if !removed then Err(NotFound)
      else Ok(ps[professionalId := p.(services := kept)])
  }

  // ---------------------------------------------------------------------
  // Properties

  /** Registration overrides the entity's default: a new Professional is
      available, a registered one is not until it says so. */
  lemma RegistrationStartsUnavailable(id: nat, name: string, email: string, password: string, phone: string,
                                      encode: Option<string> -> string)
    ensures NewProfessional().isAvailable && !Registered(id, name, email, password, phone, encode).isAvailable
    ensures !NewProfessional().user.enabled && Registered(id, name, email, password, phone, encode).user.enabled
  {
  }

  /** Removing a service that was just added to a professional who did
      not offer it restores the table. */
  lemma RemoveUndoesAdd(ps: map<nat, Professional>, catalog: set<nat>, professionalId: nat, serviceId: nat)
    requires professionalId in ps && serviceId in catalog && serviceId !in ps[professionalId].services
    ensures AddServiceOutcome(ps, catalog, professionalId, serviceId).Ok?
    ensures RemoveServiceOutcome(AddServiceOutcome(ps, catalog, professionalId, serviceId).value, professionalId, serviceId)
            == Ok(ps)
  {
    var added := AddServiceOutcome(ps, catalog, professionalId, serviceId).value;
    var back := RemoveServiceOutcome(added, professionalId, serviceId).value;
    assert back[professionalId].services == ps[professionalId].services;
    assert back[professionalId] == ps[professionalId];
    assert back == ps;
  }

  /** Adding the same service twice is the same as adding it once. */
  lemma AddServiceIdempotent(ps: map<nat, Professional>, catalog: set<nat>, professionalId: nat, serviceId: nat)
    requires AddServiceOutcome(ps, catalog, professionalId, serviceId).Ok?
    ensures AddServiceOutcome(AddServiceOutcome(ps, catalog, professionalId, serviceId).value, catalog, professionalId, serviceId)
            == AddServiceOutcome(ps, catalog, professionalId, serviceId)
  {
    var once := AddServiceOutcome(ps, catalog, professionalId, serviceId).value;
    var twice := AddServiceOutcome(once, catalog, professionalId, serviceId).value;
    assert twice[professionalId] == once[professionalId];
    assert twice == once;
  }

  /** A removal is not repeatable: removing the same service again fails
      NotFound. */
  lemma RemoveTwiceFails(ps: map<nat, Professional>, professionalId: nat, serviceId: nat)
    requires RemoveServiceOutcome(ps, professionalId, serviceId).Ok?
    ensures RemoveServiceOutcome(RemoveServiceOutcome(ps, professionalId, serviceId).value, professionalId, serviceId)
            == Err(NotFound)
  {
  }

  /** The two flags are independent: setting them in either order gives the
      same table. */
  lemma FlagsCommute(ps: map<nat, Professional>, id: nat, verified: bool, available: bool)
    requires id in ps
    ensures AvailabilityOutcome(VerificationOutcome(ps, id, verified).value, id, available).value ==
            VerificationOutcome(AvailabilityOutcome(ps, id, available).value, id, verified).value
  {
    var a := AvailabilityOutcome(VerificationOutcome(ps, id, verified).value, id, available).value;
    var b := VerificationOutcome(AvailabilityOutcome(ps, id, available).value, id, verified).value;
    assert a[id] == b[id];
    assert a == b;
  }

  class ProfessionalService {
    /** The professionals table by id. */
    var professionals: map<nat, Professional>
    /** The identity the next registered professional receives. */
    var nextId: nat
    /** Ids of the stored services (ServiceRepository.findById). */
    const catalog: set<nat>

    /** Every row is stored under its own id, below nextId. */
    ghost predicate Valid()
      reads this
    {
      forall id :: id in professionals ==> id < nextId && professionals[id].user.id == Some(id)
    }

    constructor (catalog: set<nat>)
      ensures Valid() && professionals == map[] && nextId == 1 && this.catalog == catalog
    {
      professionals := map[];
      nextId := 1;
      this.catalog := catalog;
    }

    /** registerProfessional: build the row, save it under a new id and
        return that id (the response's userId; the tokens are not
        modelled). */
    method RegisterProfessional(name: string, email: string, password: string, phone: string,
                                encode: Option<string> -> string) returns (userId: nat)
      requires Valid()
      modifies this`professionals, this`nextId
      ensures Valid()
      ensures userId !in old(professionals)
      ensures professionals == old(professionals)[userId := Registered(userId, name, email, password, phone, encode)]
    {
      userId := nextId;
      var professional := Registered(userId, name, email, password, phone, encode);
      professionals := professionals[userId := professional];
      nextId := nextId + 1;
    }

    /** updateVerificationStatus */
    method UpdateVerificationStatus(id: nat, verified: bool) returns (r: Outcome)
      requires Valid()
      modifies this`professionals
      ensures Valid()
      ensures VerificationOutcome(old(professionals), id, verified).Ok? ==>
                r == Pass && professionals == VerificationOutcome(old(professionals), id, verified).value
      ensures VerificationOutcome(old(professionals), id, verified).Err? ==>
                r == Fail(NotFound) && professionals == old(professionals)
    {
      if id !in professionals {
        return Fail(NotFound);
      }
      professionals := professionals[id := professionals[id].(isVerified := verified)];
      r := Pass;
    }

    /** updateAvailabilityStatus */
    method UpdateAvailabilityStatus(id: nat, available: bool) returns (r: Outcome)
      requires Valid()
      modifies this`professionals
      ensures Valid()
      ensures AvailabilityOutcome(old(professionals), id, available).Ok? ==>
                r == Pass && professionals == AvailabilityOutcome(old(professionals), id, available).value
      ensures AvailabilityOutcome(old(professionals), id, available).Err? ==>
                r == Fail(NotFound) && professionals == old(professionals)
    {
      if id !in professionals {
        return Fail(NotFound);
      }
      professionals := professionals[id := professionals[id].(isAvailable := available)];
      r := Pass;
    }

    /** addService: look up the professional, then the service, then add. */
    method AddService(professionalId: nat, serviceId: nat) returns (r: Result<Professional>)
      requires Valid()
      modifies this`professionals
      ensures Valid()
      ensures AddServiceOutcome(old(professionals), catalog, professionalId, serviceId).Ok? ==>
                professionals == AddServiceOutcome(old(professionals), catalog, professionalId, serviceId).value &&
                r == Ok(professionals[professionalId])
      ensures AddServiceOutcome(old(professionals), catalog, professionalId, serviceId).Err? ==>
                r == Err(NotFound) && professionals == old(professionals)
    {
      if professionalId !in professionals {
        return Err(NotFound);
      }
      if serviceId !in catalog {
        return Err(NotFound);
      }
      var professional := professionals[professionalId];
      professional := professional.(services := professional.services + {serviceId});
      professionals := professionals[professionalId := professional];
      r := Ok(professional);
    }

    /** removeService: look up the professional, removeIf on the id, and
        NotFound when nothing went. */
    method RemoveService(professionalId: nat, serviceId: nat) returns (r: Result<Professional>)
      requires Valid()
      modifies this`professionals
      ensures Valid()
      ensures RemoveServiceOutcome(old(professionals), professionalId, serviceId).Ok? ==>
                professionals == RemoveServiceOutcome(old(professionals), professionalId, serviceId).value &&
                r == Ok(professionals[professionalId])
      ensures RemoveServiceOutcome(old(professionals), professionalId, serviceId).Err? ==>
                r == Err(NotFound) && professionals == old(professionals)
    {
      if professionalId !in professionals {
        return Err(NotFound);
      }
      var professional := professionals[professionalId];
      var (kept, removed) := RemoveIfId(professional.services, serviceId);
      if !removed {
        return Err(NotFound);
      }
      professional := professional.(services := kept);
      professionals := professionals[professionalId := professional];
      r := Ok(professional);
    }
  }
}
