/** The customer mapper's name handling (mapper/CustomerMapper.java, as
    generated into CustomerMapperImpl.java): toDto splits the stored name
    into first and last name, toEntity joins them back. The generated code
    splits with the Java 17 string literal "\s+", in which \s is the escape
    for U+0020, so the regular expression is " +": only the ASCII space
    separates words. The last name is cut after the first ASCII space, so the
    split and the cut agree on every name. */
module CustomerMapping {
  import opened Common
  import opened Accounts

  /** dto/CustomerDto.java */
  datatype CustomerDto = CustomerDto(
    id: Option<nat>,
    firstName: Option<string>,
    lastName: Option<string>,
    email: Option<string>,
    phone: Option<string>,
    password: Option<string>,
    profileImageUrl: Option<string>)

  /** The index of the first ASCII space, or |t| when there is none. */
  function FirstSpace(t: string): (k: nat)
    ensures k <= |t|
    ensures k < |t| ==> t[k] == ' '
    ensures forall i :: 0 <= i < k ==> t[i] != ' '
  {
    if t == [] then 0
    else if t[0] == ' ' then 0
    else 1 + FirstSpace(t[1..])
  }

  /** Drops a leading run of ASCII spaces. */
  function DropSpaces(t: string): (r: string)
    ensures |r| <= |t| && r == t[|t| - |r|..]
    ensures r == [] || r[0] != ' '
  {
    if t != [] && t[0] == ' ' then DropSpaces(t[1..]) else t
  }

  /** `t.split(" +")` for a t that does not start with a space (a trimmed
      string): the maximal runs of other characters, trailing empty strings
      removed, and [""] for the empty string. */
  function Tokens(t: string): (r: seq<string>)
    requires t == [] || t[0] != ' '
    ensures |r| >= 1
    ensures forall i :: 0 <= i < |r| ==> forall j :: 0 <= j < |r[i]| ==> r[i][j] != ' '
    decreases |t|
  {
    if t == [] then [""]
    else
      var k := FirstSpace(t);
      if k == |t| then [t]
      else
        var rest := DropSpaces(t[k..]);
        if rest == [] then [t[..k]] else [t[..k]] + Tokens(rest)
  }

  /** `t.indexOf(c)`: the first index of c, or -1. */
  function IndexOf(t: string, c: char): (i: int)
    ensures -1 <= i < |t|
    ensures i >= 0 ==> t[i] == c && forall j :: 0 <= j < i ==> t[j] != c
    ensures i == -1 ==> forall j :: 0 <= j < |t| ==> t[j] != c
  {
    if t == [] then -1
    else if t[0] == c then 0
    else
      var i := IndexOf(t[1..], c);
      if i == -1 then -1 else i + 1
  }

  /** A trimmed string does not start with a space, which trim removes. */
  lemma TrimmedStartsWithoutSpace(s: string)
    ensures Trim(s) == [] || Trim(s)[0] != ' '
  {
  }

  /** toDto's firstName: `name.trim().split(" +")[0]`, or null. */
  function FirstName(name: Option<string>): Option<string> {
    if name.None? then None
    else
      TrimmedStartsWithoutSpace(name.value);
      Some(Tokens(Trim(name.value))[0])
  }

  /** toDto's lastName: with more than one token, what follows the first
      ASCII space of the trimmed name (all of it when there is no space, as
      indexOf then returns -1); otherwise "". */
  function LastName(name: Option<string>): string {
    if name.None? then ""
    else
      var t := Trim(name.value);
      TrimmedStartsWithoutSpace(name.value);
      if |Tokens(t)| > 1 then t[IndexOf(t, ' ') + 1..] else ""
  }

  /** toEntity's name: the first name (null prints as "null"), then a space
      and the last name when the last name is neither null nor empty. */
  function JoinName(first: Option<string>, last: Option<string>): string {
    Str(first) + (if last.Some? && last.value != "" then " " + last.value else "")
  }

  /** toDto: the copied fields and the split name. A null customer maps to
      null; a customer with a null name to a null first name and an empty
      last name; ToDtoSplitsName says how a present name is split. */
  function ToDto(c: Option<User>): (d: Option<CustomerDto>)
    ensures d.None? <==> c.None?
    ensures c.Some? ==> d.value.id == c.value.id && d.value.email == c.value.email &&
                        d.value.phone == c.value.phone && d.value.password == c.value.password &&
                        d.value.profileImageUrl == c.value.profileImageUrl
    ensures c.Some? && c.value.name.None? ==> d.value.firstName.None? && d.value.lastName == Some("")
  {
    if c.None? then None
    else
      var u := c.value;
      Some(CustomerDto(u.id, FirstName(u.name), Some(LastName(u.name)), u.email, u.phone, u.password, u.profileImageUrl))
  }

  /** toDto on a named customer: the first name is the trimmed name up to
      its first space, the last name what follows that space, "" without
      one. */
  lemma ToDtoSplitsName(c: User)
    requires c.name.Some?
    ensures var t := Trim(c.name.value);
            var k := FirstSpace(t);
            ToDto(Some(c)).value.firstName == Some(t[..k]) &&
            ToDto(Some(c)).value.lastName == Some(if k < |t| then t[k + 1..] else "")
  {
    SplitCases(c.name.value);
  }

  /** toEntity: a new customer with the copied fields, the joined name, role
      ROLE_CUSTOMER and enabled set; the password is not copied. */
  function ToEntity(d: Option<CustomerDto>): (c: Option<User>)
    ensures c.None? <==> d.None?
    ensures d.Some? ==> c.value.role == Some(RoleCustomer) && c.value.enabled
    ensures d.Some? ==> c.value.id == d.value.id && c.value.email == d.value.email &&
                        c.value.phone == d.value.phone && c.value.password.None? &&
                        c.value.profileImageUrl == d.value.profileImageUrl
  {
    if d.None? then None
    else
      var v := d.value;
      Some(NewUser().(id := v.id, email := v.email, phone := v.phone, profileImageUrl := v.profileImageUrl,
                      role := Some(RoleCustomer), enabled := true,
                      name := Some(JoinName(v.firstName, v.lastName))))
  }

  // ---------------------------------------------------------------------
  // Properties

  /** The tokens of a trimmed string: one token exactly when it holds no
      space, the first token always being everything before the first
      space. */
  lemma TokensShape(t: string)
    requires t == [] || (!IsTrimmable(t[0]) && !IsTrimmable(t[|t| - 1]))
    ensures |Tokens(t)| > 1 <==> FirstSpace(t) < |t|
    ensures Tokens(t)[0] == t[..FirstSpace(t)]
  {
    var k := FirstSpace(t);
    if t != [] && k < |t| {
      DropSpacesDropsOnlySpaces(t[k..]);
      assert t[k..][|t| - 1 - k] == t[|t| - 1];
      assert DropSpaces(t[k..]) != [];
    }
  }

  lemma {:induction false} DropSpacesDropsOnlySpaces(t: string)
    ensures forall j :: 0 <= j < |t| - |DropSpaces(t)| ==> t[j] == ' '
  {
    if t != [] && t[0] == ' ' {
      DropSpacesDropsOnlySpaces(t[1..]);
      assert forall j :: 1 <= j < |t| ==> t[j] == t[1..][j - 1];
    }
  }

  /** A null name maps to a null first name and an empty last name. */
  lemma NullNameSplit()
    ensures FirstName(None) == None && LastName(None) == ""
  {
  }

  /** The split and the cut look at the same character: indexOf(' ') is the
      end of the first token, or -1 when the string holds no space. */
  lemma {:induction false} FirstSpaceIsIndexOfSpace(t: string)
    ensures IndexOf(t, ' ') == if FirstSpace(t) < |t| then FirstSpace(t) else -1
  {
    if t != [] && t[0] != ' ' {
      FirstSpaceIsIndexOfSpace(t[1..]);
    }
  }

  /** firstName is the trimmed name up to its first space; lastName is
      empty when there is no space, and otherwise what follows it. */
  lemma SplitCases(name: string)
    ensures var t := Trim(name);
            FirstName(Some(name)) == Some(t[..FirstSpace(t)]) &&
            (FirstSpace(t) == |t| ==> LastName(Some(name)) == "") &&
            (FirstSpace(t) < |t| ==> LastName(Some(name)) == t[FirstSpace(t) + 1..])
  {
    FirstNameCut(name);
    LastNameCut(name);
  }

  lemma FirstNameCut(name: string)
    ensures FirstName(Some(name)) == Some(Trim(name)[..FirstSpace(Trim(name))])
  {
    TokensShape(Trim(name));
  }

  lemma LastNameCut(name: string)
    ensures var t := Trim(name);
            LastName(Some(name)) == if FirstSpace(t) < |t| then t[FirstSpace(t) + 1..] else ""
  {
    var t := Trim(name);
    TokensShape(t);
    FirstSpaceIsIndexOfSpace(t);
    if FirstSpace(t) < |t| {
      assert |Tokens(t)| > 1 && IndexOf(t, ' ') == FirstSpace(t);
    } else {
      assert |Tokens(t)| <= 1;
    }
  }

  /** joinName: first alone when last is null or empty, otherwise both
      with one space between. */
  lemma JoinCases(first: Option<string>, last: Option<string>)
    ensures IsNullOrEmpty(last) ==> JoinName(first, last) == Str(first)
    ensures !IsNullOrEmpty(last) ==> JoinName(first, last) == Str(first) + " " + last.value
  {
  }

  /** Cutting a string around index k and joining the two parts with a
      space gives it back when t[k] is that space. */
  lemma JoinAroundSpace(t: string, k: nat)
    requires k < |t| - 1 && t[k] == ' '
    ensures JoinName(Some(t[..k]), Some(t[k + 1..])) == t
  {
    var first, last := t[..k], t[k + 1..];
    assert last != [];
    assert JoinName(Some(first), Some(last)) == first + (" " + last);
    assert first + (" " + last) == t;
  }

  /** Splitting any trimmed name at its first space and joining the parts
      gives it back. */
  lemma JoinOfSplit(t: string)
    requires t == [] || (!IsTrimmable(t[0]) && !IsTrimmable(t[|t| - 1]))
    ensures var k := FirstSpace(t);
            JoinName(Some(t[..k]), Some(if k < |t| then t[k + 1..] else "")) == t
  {
    var k := FirstSpace(t);
    if k < |t| {
      assert k != |t| - 1;
      JoinAroundSpace(t, k);
    } else {
      assert t[..k] == t;
    }
  }

  /** Round trip: mapping a customer to the DTO and back gives its trimmed
      name, whatever whitespace other than the ASCII space the name holds; a
      null name comes back as the string "null". */
  lemma RoundTrip(c: User)
    ensures c.name.Some? ==> ToEntity(ToDto(Some(c))).value.name == Some(Trim(c.name.value))
    ensures c.name.None? ==> ToEntity(ToDto(Some(c))).value.name == Some("null")
  {
    if c.name.Some? {
      NamedRoundTrip(c);
    } else {
      var d := ToDto(Some(c)).value;
      assert ToEntity(Some(d)).value.name == Some(JoinName(d.firstName, d.lastName));
      assert JoinName(None, Some("")) == "null";
    }
  }

  lemma NamedRoundTrip(c: User)
    requires c.name.Some?
    ensures ToEntity(ToDto(Some(c))).value.name == Some(Trim(c.name.value))
  {
    var d := ToDto(Some(c)).value;
    var t := Trim(c.name.value);
    var k := FirstSpace(t);
    ToDtoSplitsName(c);
    JoinOfSplit(t);
    assert d.firstName == Some(t[..k]) && d.lastName == Some(if k < |t| then t[k + 1..] else "");
    assert ToEntity(Some(d)).value.name == Some(JoinName(d.firstName, d.lastName));
  }

  /** A tab does not separate words: for words a and b without whitespace,
      the name a + "\t" + b is all first name, the last name is empty, and
      the join gives the name back unchanged. */
  lemma TabSeparatedName(a: string, b: string)
    requires a != [] && b != []
    requires forall i :: 0 <= i < |a| ==> a[i] > ' '
    requires forall i :: 0 <= i < |b| ==> b[i] > ' '
    ensures var n := a + "\t" + b;
            FirstName(Some(n)) == Some(n) && LastName(Some(n)) == "" &&
            JoinName(FirstName(Some(n)), Some(LastName(Some(n)))) == n
  {
    var n := a + "\t" + b;
    assert n[0] == a[0] && n[|n| - 1] == b[|b| - 1];
    TrimOfTrimmed(n);
    forall i | 0 <= i < |n| ensures n[i] != ' ' {
      if i < |a| {
        assert n[i] == a[i];
      } else if i > |a| {
        assert n[i] == b[i - |a| - 1];
      }
    }
    assert FirstSpace(n) == |n|;
    SplitCases(n);
    assert n[..|n|] == n;
  }
}
