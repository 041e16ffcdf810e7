/** The hand-written parts of mapper/ProfessionalMapper.java: building a
    professional's Address from the address fields of its DTO, updating an
    existing Address from them, and replacing the professional's services
    by the DTO's service ids. */
module ProfessionalMapping {
  import opened Common
  import opened Addresses
  import opened Professionals

  /** dto/ProfessionalDto.java, without the floating-point hourly rate and
      average rating. The address is flattened into five fields. */
  datatype ProfessionalDto = ProfessionalDto(
    id: Option<nat>,
    name: Option<string>,
    email: Option<string>,
    phone: Option<string>,
    bio: Option<string>,
    yearsOfExperience: Option<int>,
    verified: bool,
    available: bool,
    serviceIds: Option<set<nat>>,
    address: Option<string>,
    city: Option<string>,
    state: Option<string>,
    postalCode: Option<string>,
    country: Option<string>)

  /** Whether the DTO carries at least one of the five address fields. */
  predicate HasAddressFields(dto: ProfessionalDto) {
    dto.address.Some? || dto.city.Some? || dto.state.Some? || dto.postalCode.Some? || dto.country.Some?
  }

  /** The label mapToAddress gives a professional's address. */
  const ProfessionalAddressLabel := "Professional Address"

  /** Whether a holds the DTO's five address fields. */
  ghost predicate HoldsAddressOf(a: Address, dto: ProfessionalDto)
    reads a
  {
    a.addressLine1 == dto.address && a.city == dto.city && a.state == dto.state &&
    a.postalCode == dto.postalCode && a.country == dto.country
  }

  /** mapToAddress: null for a null DTO or one without address fields;
      otherwise a new Address with the five fields, not the default
      address and labelled "Professional Address". */
  method MapToAddress(dto: Option<ProfessionalDto>) returns (a: Address?)
    ensures a == null <==> dto.None? || !HasAddressFields(dto.value)
    ensures a != null ==> fresh(a) && HoldsAddressOf(a, dto.value)
    ensures a != null ==> !a.isDefault && a.labelText == Some(ProfessionalAddressLabel)
    ensures a != null ==> a.addressLine2.None? && a.customerId.None? && a.instructions.None?
  {
    if dto.None? || !HasAddressFields(dto.value) {
      return null;
    }
    var d := dto.value;
    a := new Address();
    a.addressLine1 := d.address;
    a.city := d.city;
    a.state := d.state;
    a.postalCode := d.postalCode;
    a.country := d.country;
    a.isDefault := false;
    a.labelText := Some(ProfessionalAddressLabel);
  }

  /** updateAddressFromDto: null for a null DTO or one without address
      fields, even when an address exists (which is then left alone);
      mapToAddress when none exists; otherwise the existing address itself,
      with the five fields overwritten and its label, default flag, second
      line, owner and instructions kept. */
  method UpdateAddressFromDto(dto: Option<ProfessionalDto>, existing: Address?) returns (a: Address?)
    modifies existing
    ensures dto.None? || !HasAddressFields(dto.value) ==>
              a == null && (existing != null ==> unchanged(existing))
    ensures dto.Some? && HasAddressFields(dto.value) && existing == null ==>
              a != null && fresh(a) && HoldsAddressOf(a, dto.value) &&
              !a.isDefault && a.labelText == Some(ProfessionalAddressLabel)
    ensures dto.Some? && HasAddressFields(dto.value) && existing != null ==>
              a == existing && HoldsAddressOf(a, dto.value) &&
              a.isDefault == old(existing.isDefault) && a.labelText == old(existing.labelText) &&
              a.addressLine2 == old(existing.addressLine2) && a.customerId == old(existing.customerId) &&
              a.instructions == old(existing.instructions)
  {
    if dto.None? || !HasAddressFields(dto.value) {
      return null;
    }
    if existing == null {
      a := MapToAddress(dto);
      return;
    }
    var d := dto.value;
    existing.addressLine1 := d.address;
    existing.city := d.city;
    existing.state := d.state;
    existing.postalCode := d.postalCode;
    existing.country := d.country;
    a := existing;
  }

  /** mapServices: a DTO with service ids replaces the professional's
      services by exactly those ids (one stub per id); a DTO without them
      leaves the services alone. Nothing else of the professional changes. */
  function MapServices(dto: ProfessionalDto, p: Professional): (q: Professional)
    ensures q.user == p.user && q.isVerified == p.isVerified && q.isAvailable == p.isAvailable
    ensures dto.serviceIds.None? ==> q == p
    ensures dto.serviceIds.Some? ==> forall s :: s in q.services <==> s in dto.serviceIds.value
  {
    if dto.serviceIds.Some? then p.(services := dto.serviceIds.value) else p
  }

  // ---------------------------------------------------------------------
  // Properties

  /** Mapping the services twice is the same as mapping them once, and the
      result does not depend on the services the professional had. */
  lemma MapServicesIdempotent(dto: ProfessionalDto, p: Professional, previous: set<nat>)
    ensures MapServices(dto, MapServices(dto, p)) == MapServices(dto, p)
    ensures dto.serviceIds.Some? ==>
              MapServices(dto, p.(services := previous)) == MapServices(dto, p)
  {
  }

  /** An address mapped from a DTO formats as the DTO's fields with no
      second line. */
  method MappedAddressFormat(dto: ProfessionalDto) returns (s: string)
    requires HasAddressFields(dto)
    ensures s == FullAddress(dto.address, None, dto.city, dto.state, dto.postalCode, dto.country)
  {
    var a := MapToAddress(Some(dto));
    s := a.GetFullAddress();
  }
}
