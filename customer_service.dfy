/** service/CustomerService.java: creating, updating, deleting and looking
    up customers over the customers table, through the customer mapper.
    Only the email is checked for uniqueness here; the password encoder is
    a parameter. */
module Customers {
  import opened Common
  import opened Accounts
  import opened CustomerMapping
  import Users

  /** The position of the customer with the email, if any. */
  function FindByEmail(customers: seq<User>, email: Option<string>): (r: Option<nat>)
    ensures r.Some? ==> r.value < |customers| && customers[r.value].email == email
    ensures r.None? ==> !EmailTaken(customers, email)
  {
    Users.Find(customers, Users.ByEmail(email))
  }

  /** The table without the rows carrying id (deleteById), in order. */
  function WithoutId(customers: seq<User>, id: nat): (r: seq<User>)
    ensures |r| <= |customers|
    ensures forall k :: 0 <= k < |r| ==> r[k].id != Some(id)
    ensures forall u :: u in r <==> u in customers && u.id != Some(id)
  {
    if customers == [] then []
    else if customers[|customers| - 1].id == Some(id) then WithoutId(customers[..|customers| - 1], id)
    else WithoutId(customers[..|customers| - 1], id) + [customers[|customers| - 1]]
  }

  /** The table keeps distinct ids below nextId and distinct emails. */
  predicate Consistent(customers: seq<User>, nextId: nat) {
    (forall i :: 0 <= i < |customers| ==> customers[i].id.Some? && customers[i].id.value < nextId) &&
    (forall i, j :: 0 <= i < j < |customers| ==> customers[i].id != customers[j].id) &&
    (forall i, j :: 0 <= i < j < |customers| ==> customers[i].email != customers[j].email)
  }

  /** getCustomerById: the mapped row, or NotFound. */
  function GetByIdOutcome(customers: seq<User>, id: nat): (r: Result<CustomerDto>)
    ensures r.Err? <==> IndexOfId(customers, id).None?
    ensures r.Err? ==> r.error == NotFound
    ensures r.Ok? ==> r.value.id == Some(id) &&
                      r.value == ToDto(Some(customers[IndexOfId(customers, id).value])).value
  {
    var found := IndexOfId(customers, id);
    if found.None? then Err(NotFound) else Ok(ToDto(Some(customers[found.value])).value)
  }

  /** getCustomerByEmail: the mapped row, or NotFound. */
  function GetByEmailOutcome(customers: seq<User>, email: string): (r: Result<CustomerDto>)
    ensures r.Err? <==> !EmailTaken(customers, Some(email))
    ensures r.Err? ==> r.error == NotFound
    ensures r.Ok? ==> r.value.email == Some(email)
    ensures r.Ok? ==> FindByEmail(customers, Some(email)).Some? &&
                      r.value == ToDto(Some(customers[FindByEmail(customers, Some(email)).value])).value
  {
    var found := FindByEmail(customers, Some(email));
    if found.None? then Err(NotFound) else Ok(ToDto(Some(customers[found.value])).value)
  }

  /** The row createCustomer saves: toEntity of the DTO with the encoded
      password, role ROLE_CUSTOMER and enabled, under the id the table
      assigns. */
  function Created(dto: CustomerDto, id: nat, encode: Option<string> -> string): (u: User)
    ensures u.id == Some(id) && u.password == Some(encode(dto.password))
    ensures u.role == Some(RoleCustomer) && u.enabled && u.active && !u.emailVerified
    ensures u.email == dto.email && u.phone == dto.phone && u.profileImageUrl == dto.profileImageUrl
    ensures u.name == Some(JoinName(dto.firstName, dto.lastName))
  {
    ToEntity(Some(dto)).value.(id := Some(id), password := Some(encode(dto.password)),
                               role := Some(RoleCustomer), enabled := true)
  }

  /** createCustomer: AlreadyExists for a taken email, otherwise the new row
      is appended. */
  function CreateOutcome(customers: seq<User>, nextId: nat, dto: CustomerDto, encode: Option<string> -> string)
    : (r: Result<seq<User>>)
    ensures r.Err? <==> EmailTaken(customers, dto.email)
    ensures r.Err? ==> r.error == AlreadyExists
    ensures r.Ok? ==> |r.value| == |customers| + 1 && r.value[..|customers|] == customers &&
                      r.value[|customers|] == Created(dto, nextId, encode)
  {
    if EmailTaken(customers, dto.email) then Err(AlreadyExists)
    else Ok(customers + [Created(dto, nextId, encode)])
  }

  /** updateCustomer's name: `firstName + " " + lastName`, so a null part
      prints as "null" and the space is always there. */
  function FullName(dto: CustomerDto): (s: string)
    ensures |s| == |Str(dto.firstName)| + 1 + |Str(dto.lastName)|
    ensures s[|Str(dto.firstName)|] == ' '
    ensures s[..|Str(dto.firstName)|] == Str(dto.firstName) && s[|Str(dto.firstName)| + 1..] == Str(dto.lastName)
  {
    Str(dto.firstName) + " " + Str(dto.lastName)
  }

  /** The row updateCustomer saves: the full name, the DTO's phone, and the
      encoded password only when one is supplied; nothing else changes. */
  function Updated(existing: User, dto: CustomerDto, encode: Option<string> -> string): (u: User)
    ensures u.name == Some(FullName(dto)) && u.phone == dto.phone
    ensures u.password == (if IsNullOrEmpty(dto.password) then existing.password else Some(encode(dto.password)))
    ensures u.(name := existing.name, phone := existing.phone, password := existing.password) == existing
  {
    var u := existing.(name := Some(FullName(dto)), phone := dto.phone);
    if !IsNullOrEmpty(dto.password) then u.(password := Some(encode(dto.password))) else u
  }

  /** updateCustomer: NotFound, or the row updated in place. */
  function UpdateOutcome(customers: seq<User>, id: nat, dto: CustomerDto, encode: Option<string> -> string)
    : (r: Result<seq<User>>)
    ensures r.Err? <==> IndexOfId(customers, id).None?
    ensures r.Err? ==> r.error == NotFound
    ensures r.Ok? ==> var i := IndexOfId(customers, id).value;
                      |r.value| == |customers| &&
                      (forall k :: 0 <= k < |customers| && k != i ==> r.value[k] == customers[k]) &&
                      r.value[i] == Updated(customers[i], dto, encode)
  {
    var found := IndexOfId(customers, id);
    if found.None? then Err(NotFound)
    else Ok(customers[found.value := Updated(customers[found.value], dto, encode)])
  }

  /** deleteCustomer: NotFound when no row has the id (existsById);
      otherwise the row is gone. */
  function DeleteOutcome(customers: seq<User>, id: nat): (r: Result<seq<User>>)
    ensures r.Err? <==> IndexOfId(customers, id).None?
    ensures r.Err? ==> r.error == NotFound
    ensures r.Ok? ==> IndexOfId(r.value, id).None? && |r.value| < |customers|
    ensures r.Ok? ==> forall u :: u in r.value <==> u in customers && u.id != Some(id)
  {
    if IndexOfId(customers, id).None? then Err(NotFound)
    else
      var i := IndexOfId(customers, id).value;
      assert customers[i] !in WithoutId(customers, id);
      WithoutIdShrinks(customers, id, i);
      Ok(WithoutId(customers, id))
  }

  lemma {:induction false} WithoutIdShrinks(customers: seq<User>, id: nat, i: nat)
    requires i < |customers| && customers[i].id == Some(id)
    ensures |WithoutId(customers, id)| < |customers|
  {
    var n := |customers|;
    if customers[n - 1].id != Some(id) {
      WithoutIdShrinks(customers[..n - 1], id, i);
    } else if n > 1 {
      assert |WithoutId(customers[..n - 1], id)| <= n - 1;
    }
  }

  // ---------------------------------------------------------------------
  // Properties

  /** updateCustomer and toEntity join names differently: with an empty
      last name updateCustomer keeps a trailing space that toEntity drops. */
  lemma UpdateNameKeepsTrailingSpace(dto: CustomerDto)
    requires dto.lastName == Some("")
    ensures FullName(dto) == JoinName(dto.firstName, dto.lastName) + " "
  {
  }

  /** With a non-empty last name the two joins agree. */
  lemma NamesAgreeWithLastName(dto: CustomerDto)
    requires dto.lastName.Some? && dto.lastName.value != ""
    ensures FullName(dto) == JoinName(dto.firstName, dto.lastName)
  {
    assert Str(dto.firstName) + " " + dto.lastName.value == Str(dto.firstName) + (" " + dto.lastName.value);
  }

  /** A password left out of the update (null or empty) keeps the stored
      one, and the update is then independent of the encoder. */
  lemma BlankPasswordKeepsStored(existing: User, dto: CustomerDto, e1: Option<string> -> string,
                                 e2: Option<string> -> string)
    requires IsNullOrEmpty(dto.password)
    ensures Updated(existing, dto, e1).password == existing.password
    ensures Updated(existing, dto, e1) == Updated(existing, dto, e2)
  {
  }

  /** A created customer can be found by its email, and maps to a DTO with
      the email, phone and id it was given. */
  lemma {:induction false} CreatedIsFoundByEmail(customers: seq<User>, nextId: nat, dto: CustomerDto, email: string,
                                                 encode: Option<string> -> string)
    requires Consistent(customers, nextId) && dto.email == Some(email)
    requires CreateOutcome(customers, nextId, dto, encode).Ok?
    ensures GetByEmailOutcome(CreateOutcome(customers, nextId, dto, encode).value, email) ==
            Ok(ToDto(Some(Created(dto, nextId, encode))).value)
  {
    var after := CreateOutcome(customers, nextId, dto, encode).value;
    var n := |customers|;
    forall k | 0 <= k < n ensures after[k].email != Some(email) {
      assert after[k] == customers[k];
    }
    var f := FindByEmail(after, Some(email)).value;
    assert f == n;
  }

  /** A deleted customer is no longer found by id. */
  lemma DeletedIsGone(customers: seq<User>, id: nat)
    requires DeleteOutcome(customers, id).Ok?
    ensures GetByIdOutcome(DeleteOutcome(customers, id).value, id) == Err(NotFound)
  {
  }

  lemma ConsistentAfterCreate(customers: seq<User>, nextId: nat, dto: CustomerDto, encode: Option<string> -> string)
    requires Consistent(customers, nextId) && CreateOutcome(customers, nextId, dto, encode).Ok?
    ensures Consistent(CreateOutcome(customers, nextId, dto, encode).value, nextId + 1)
  {
    var after := CreateOutcome(customers, nextId, dto, encode).value;
    assert forall k :: 0 <= k < |customers| ==> after[k] == customers[k];
  }

  lemma ConsistentAfterUpdate(customers: seq<User>, nextId: nat, id: nat, dto: CustomerDto, encode: Option<string> -> string)
    requires Consistent(customers, nextId) && UpdateOutcome(customers, id, dto, encode).Ok?
    ensures Consistent(UpdateOutcome(customers, id, dto, encode).value, nextId)
  {
    var i := IndexOfId(customers, id).value;
    var after := UpdateOutcome(customers, id, dto, encode).value;
    assert after[i].id == customers[i].id && after[i].email == customers[i].email;
    assert forall k :: 0 <= k < |customers| ==> after[k].id == customers[k].id && after[k].email == customers[k].email;
  }

  lemma {:induction false} ConsistentAfterDelete(customers: seq<User>, nextId: nat, id: nat)
    requires Consistent(customers, nextId)
    ensures Consistent(WithoutId(customers, id), nextId)
  {
    if customers != [] {
      var n := |customers|;
      ConsistentAfterDelete(customers[..n - 1], nextId, id);
      if customers[n - 1].id != Some(id) {
        var rest := WithoutId(customers[..n - 1], id);
        forall k | 0 <= k < |rest| ensures rest[k].id != customers[n - 1].id && rest[k].email != customers[n - 1].email {
          assert rest[k] in customers[..n - 1];
          var j :| 0 <= j < n - 1 && customers[..n - 1][j] == rest[k];
          assert customers[j] == rest[k];
        }
        ConsistentSnoc(rest, customers[n - 1], nextId);
      }
    }
  }

  /** A row whose id and email differ from every row before it can be
      appended. */
  lemma ConsistentSnoc(rest: seq<User>, x: User, nextId: nat)
    requires Consistent(rest, nextId) && x.id.Some? && x.id.value < nextId
    requires forall k :: 0 <= k < |rest| ==> rest[k].id != x.id && rest[k].email != x.email
    ensures Consistent(rest + [x], nextId)
  {
  }

  class CustomerService {
    /** The customers table, in insertion order. */
    var customers: seq<User>
    /** The identity the next saved customer receives. */
    var nextId: nat

    ghost predicate Valid()
      reads this
    {
      Consistent(customers, nextId)
    }

    constructor ()
      ensures Valid() && customers == [] && nextId == 1
    {
      customers := [];
      nextId := 1;
    }

    /** getCustomerById */
    function GetCustomerById(id: nat): (r: Result<CustomerDto>)
      reads this
      ensures r.Err? <==> forall k :: 0 <= k < |customers| ==> customers[k].id != Some(id)
      ensures r.Err? ==> r.error == NotFound
      ensures r.Ok? ==> r.value.id == Some(id)
    {
      GetByIdOutcome(customers, id)
    }

    /** getCustomerByEmail */
    function GetCustomerByEmail(email: string): (r: Result<CustomerDto>)
      reads this
      ensures r.Err? <==> forall k :: 0 <= k < |customers| ==> customers[k].email != Some(email)
      ensures r.Err? ==> r.error == NotFound
      ensures r.Ok? ==> r.value.email == Some(email)
      ensures Valid() ==> forall i :: 0 <= i < |customers| && customers[i].email == Some(email) ==>
                            r == Ok(ToDto(Some(customers[i])).value)
    {
      var r := GetByEmailOutcome(customers, email);
      assert Valid() ==> forall i :: 0 <= i < |customers| && customers[i].email == Some(email) ==>
                           FindByEmail(customers, Some(email)) == Some(i);
      r
    }

    /** createCustomer: the DTO's id is not used; the table assigns one. */
    method CreateCustomer(dto: CustomerDto, encode: Option<string> -> string) returns (r: Result<CustomerDto>)
      requires Valid()
      modifies this
      ensures Valid()
      ensures CreateOutcome(old(customers), old(nextId), dto, encode).Ok? ==>
                customers == CreateOutcome(old(customers), old(nextId), dto, encode).value &&
                nextId == old(nextId) + 1 &&
                r == Ok(ToDto(Some(Created(dto, old(nextId), encode))).value)
      ensures CreateOutcome(old(customers), old(nextId), dto, encode).Err? ==>
                r == Err(AlreadyExists) && customers == old(customers) && nextId == old(nextId)
    {
      if EmailTaken(customers, dto.email) {
        return Err(AlreadyExists);
      }
      ConsistentAfterCreate(customers, nextId, dto, encode);
      var customer := ToEntity(Some(dto)).value;
      customer := customer.(password := Some(encode(dto.password)));
      customer := customer.(role := Some(RoleCustomer), enabled := true);
      customer := customer.(id := Some(nextId));
      customers := customers + [customer];
      nextId := nextId + 1;
      r := Ok(ToDto(Some(customer)).value);
    }

    /** updateCustomer */
    method UpdateCustomer(id: nat, dto: CustomerDto, encode: Option<string> -> string) returns (r: Result<CustomerDto>)
      requires Valid()
      modifies this`customers
      ensures Valid()
      ensures UpdateOutcome(old(customers), id, dto, encode).Ok? ==>
                customers == UpdateOutcome(old(customers), id, dto, encode).value &&
                r == Ok(ToDto(Some(customers[IndexOfId(old(customers), id).value])).value)
      ensures UpdateOutcome(old(customers), id, dto, encode).Err? ==>
                r == Err(NotFound) && customers == old(customers)
    {
      var found := IndexOfId(customers, id);
      if found.None? {
        return Err(NotFound);
      }
      var i := found.value;
      var existing := customers[i];
      existing := existing.(name := Some(FullName(dto)));
      existing := existing.(phone := dto.phone);
      if dto.password.Some? && dto.password.value != "" {
        existing := existing.(password := Some(encode(dto.password)));
      }
      ghost var after := UpdateOutcome(customers, id, dto, encode).value;
      assert existing == Updated(customers[i], dto, encode);
      assert after == customers[i := existing];
      ConsistentAfterUpdate(customers, nextId, id, dto, encode);
      var d := ToDto(Some(existing)).value;
      customers := customers[i := existing];
      r := Ok(d);
      assert customers[i] == existing && i == IndexOfId(old(customers), id).value;
    }

    /** deleteCustomer */
    method DeleteCustomer(id: nat) returns (r: Outcome)
      requires Valid()
      modifies this`customers
      ensures Valid()
      ensures DeleteOutcome(old(customers), id).Ok? ==> r == Pass && customers == DeleteOutcome(old(customers), id).value
      ensures DeleteOutcome(old(customers), id).Err? ==> r == Fail(NotFound) && customers == old(customers)
    {
      if IndexOfId(customers, id).None? {
        return Fail(NotFound);
      }
      ConsistentAfterDelete(customers, nextId, id);
      customers := WithoutId(customers, id);
      r := Pass;
    }
  }
}
