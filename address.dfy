/** The two address formatters: Address.getFullAddress on the entity, which
    writes only the parts that are present and puts a separator only between
    written parts, and AddressDto.getFullAddress, which always writes every
    part but the second line. */
module Addresses {
  import opened Common

  /** One guarded step of the entity's formatter: the separator written
      before the part when something precedes it, and the part's text. */
  datatype Part = Part(separator: string, text: Option<string>)

  /** The six parts in their fixed order. The postal code follows the state
      after a space; every other later part after a comma. */
  function AddressParts(line1: Option<string>, line2: Option<string>, city: Option<string>,
                        state: Option<string>, postalCode: Option<string>, country: Option<string>): (ps: seq<Part>)
    ensures |ps| == 6
    ensures ps[0].text == line1 && ps[1].text == line2 && ps[2].text == city
    ensures ps[3].text == state && ps[4].text == postalCode && ps[5].text == country
  {
    [Part("", line1), Part(", ", line2), Part(", ", city), Part(", ", state), Part(" ", postalCode), Part(", ", country)]
  }

  /** One guarded append of getFullAddress: a part that is neither null nor
      empty is written, after its separator when the builder already holds
      something. */
  function Append(sb: string, p: Part): string {
    if p.text.Some? && |p.text.value| > 0 then
      (if |sb| > 0 then sb + p.separator else sb) + p.text.value
    else sb
  }

  /** The builder after the guarded appends of the parts, in order. */
  function Build(ps: seq<Part>): string {
    if ps == [] then "" else Append(Build(ps[..|ps| - 1]), ps[|ps| - 1])
  }

  /** What Address.getFullAddress returns for these six parts. */
  function FullAddress(line1: Option<string>, line2: Option<string>, city: Option<string>,
                       state: Option<string>, postalCode: Option<string>, country: Option<string>): string
  {
    Build(AddressParts(line1, line2, city, state, postalCode, country))
  }

  // A reference description of the same string: keep the parts that are
  // written, then join them.

  /** A written part: its separator and its non-empty text. */
  datatype Piece = Piece(separator: string, text: string)

  /** The parts neither null nor empty, in order. */
  function Written(ps: seq<Part>): (r: seq<Piece>)
    ensures |r| <= |ps|
    ensures forall i :: 0 <= i < |r| ==> r[i].text != ""
  {
    if ps == [] then []
    else
      var init := Written(ps[..|ps| - 1]);
      var p := ps[|ps| - 1];
      if IsNullOrEmpty(p.text) then init else init + [Piece(p.separator, p.text.value)]
  }

  /** The first piece bare, every later one after its own separator. */
  function Join(ws: seq<Piece>): string {
    if ws == [] then ""
    else if |ws| == 1 then ws[0].text
    else Join(ws[..|ws| - 1]) + ws[|ws| - 1].separator + ws[|ws| - 1].text
  }

  /** A join of non-empty pieces is empty exactly when there are none, and
      it starts with the first piece. */
  lemma {:induction false} JoinShape(ws: seq<Piece>)
    requires forall i :: 0 <= i < |ws| ==> ws[i].text != ""
    ensures |Join(ws)| == 0 <==> ws == []
    ensures ws != [] ==> |ws[0].text| <= |Join(ws)| && Join(ws)[..|ws[0].text|] == ws[0].text
  {
    if |ws| > 1 {
      JoinShape(ws[..|ws| - 1]);
      var init := Join(ws[..|ws| - 1]);
      var tail := ws[|ws| - 1].separator + ws[|ws| - 1].text;
      assert (init + tail)[..|ws[0].text|] == init[..|ws[0].text|];
    }
  }

  /** The builder's length test stands in for "something was written
      before": the formatter joins exactly the written parts. */
  lemma {:induction false} BuildIsJoin(ps: seq<Part>)
    ensures Build(ps) == Join(Written(ps))
  {
    if ps != [] {
      var init := ps[..|ps| - 1];
      BuildIsJoin(init);
      JoinShape(Written(init));
    }
  }

  /** model/Address.java. Lombok supplies the setters, which the mapper
      module calls as plain field assignments. */
  class Address {
    var customerId: Option<nat>
    var addressLine1: Option<string>
    var addressLine2: Option<string>
    var city: Option<string>
    var state: Option<string>
    var postalCode: Option<string>
    var country: Option<string>
    var isDefault: bool
    var labelText: Option<string>  // `label`, a reserved word here
    var instructions: Option<string>

    /** `new Address()`: every reference null; isDefault starts false. */
    constructor ()
      ensures customerId.None? && addressLine1.None? && addressLine2.None? && city.None?
      ensures state.None? && postalCode.None? && country.None?
      ensures !isDefault && labelText.None? && instructions.None?
    {
      customerId := None;
      addressLine1 := None;
      addressLine2 := None;
      city := None;
      state := None;
      postalCode := None;
      country := None;
      isDefault := false;
      labelText := None;
      instructions := None;
    }

    /** getFullAddress: six guarded appends to a StringBuilder, each
        preceded by its separator when the builder is already non-empty. */
    method GetFullAddress() returns (s: string)
      ensures s == FullAddress(addressLine1, addressLine2, city, state, postalCode, country)
    {
      ghost var ps := AddressParts(addressLine1, addressLine2, city, state, postalCode, country);
      var sb := "";
      if addressLine1.Some? && |addressLine1.value| > 0 {
        sb := sb + addressLine1.value;
      }
      assert sb == Build(ps[..1]) by { assert ps[..1][..0] == []; }
      if addressLine2.Some? && |addressLine2.value| > 0 {
        if |sb| > 0 { sb := sb + ", "; }
        sb := sb + addressLine2.value;
      }
      assert sb == Build(ps[..2]) by { assert ps[..2][..1] == ps[..1]; }
      if city.Some? && |city.value| > 0 {
        if |sb| > 0 { sb := sb + ", "; }
        sb := sb + city.value;
      }
      assert sb == Build(ps[..3]) by { assert ps[..3][..2] == ps[..2]; }
      if state.Some? && |state.value| > 0 {
        if |sb| > 0 { sb := sb + ", "; }
        sb := sb + state.value;
      }
      assert sb == Build(ps[..4]) by { assert ps[..4][..3] == ps[..3]; }
      if postalCode.Some? && |postalCode.value| > 0 {
        if |sb| > 0 { sb := sb + " "; }
        sb := sb + postalCode.value;
      }
      assert sb == Build(ps[..5]) by { assert ps[..5][..4] == ps[..4]; }
      if country.Some? && |country.value| > 0 {
        if |sb| > 0 { sb := sb + ", "; }
        sb := sb + country.value;
      }
      assert ps[..5] == ps[..|ps| - 1];
      s := sb;
    }
  }

  // ---------------------------------------------------------------------
  // Properties of the entity formatter

  lemma {:induction false} BuildNothing(ps: seq<Part>)
    requires forall i :: 0 <= i < |ps| ==> IsNullOrEmpty(ps[i].text)
    ensures Build(ps) == ""
  {
    if ps != [] {
      BuildNothing(ps[..|ps| - 1]);
    }
  }

  /** With every part null or empty the address is the empty string. */
  lemma NothingWrittenIsEmpty(line1: Option<string>, line2: Option<string>, city: Option<string>,
                              state: Option<string>, postalCode: Option<string>, country: Option<string>)
    requires IsNullOrEmpty(line1) && IsNullOrEmpty(line2) && IsNullOrEmpty(city)
    requires IsNullOrEmpty(state) && IsNullOrEmpty(postalCode) && IsNullOrEmpty(country)
    ensures FullAddress(line1, line2, city, state, postalCode, country) == ""
  {
    BuildNothing(AddressParts(line1, line2, city, state, postalCode, country));
  }

  /** Null for the empty string. */
  function NullIfEmpty(s: Option<string>): Option<string> {
    if IsNullOrEmpty(s) then None else s
  }

  /** Parts that agree up to null-versus-empty build the same string. */
  lemma {:induction false} BuildAlike(ps: seq<Part>, qs: seq<Part>)
    requires |ps| == |qs|
    requires forall i :: 0 <= i < |ps| ==> ps[i].separator == qs[i].separator
    requires forall i :: 0 <= i < |ps| ==> NullIfEmpty(ps[i].text) == NullIfEmpty(qs[i].text)
    ensures Build(ps) == Build(qs)
  {
    if ps != [] {
      BuildAlike(ps[..|ps| - 1], qs[..|qs| - 1]);
    }
  }

  /** A null part and an empty part are formatted identically. */
  lemma NullSameAsEmpty(line1: Option<string>, line2: Option<string>, city: Option<string>,
                        state: Option<string>, postalCode: Option<string>, country: Option<string>)
    ensures FullAddress(line1, line2, city, state, postalCode, country)
         == FullAddress(NullIfEmpty(line1), NullIfEmpty(line2), NullIfEmpty(city),
                        NullIfEmpty(state), NullIfEmpty(postalCode), NullIfEmpty(country))
  {
    BuildAlike(AddressParts(line1, line2, city, state, postalCode, country),
               AddressParts(NullIfEmpty(line1), NullIfEmpty(line2), NullIfEmpty(city),
                            NullIfEmpty(state), NullIfEmpty(postalCode), NullIfEmpty(country)));
  }

  lemma {:induction false} NothingWritten(ps: seq<Part>)
    requires Written(ps) == []
    ensures forall j :: 0 <= j < |ps| ==> IsNullOrEmpty(ps[j].text)
  {
    if ps != [] {
      NothingWritten(ps[..|ps| - 1]);
      assert forall j :: 0 <= j < |ps| - 1 ==> ps[j] == ps[..|ps| - 1][j];
    }
  }

  /** The first written piece comes from the first part that is neither
      null nor empty. */
  lemma {:induction false} FirstWritten(ps: seq<Part>)
    requires Written(ps) != []
    ensures exists k :: 0 <= k < |ps| && !IsNullOrEmpty(ps[k].text) &&
                        Written(ps)[0] == Piece(ps[k].separator, ps[k].text.value) &&
                        forall j :: 0 <= j < k ==> IsNullOrEmpty(ps[j].text)
  {
    var init := ps[..|ps| - 1];
    assert forall j :: 0 <= j < |init| ==> ps[j] == init[j];
    if Written(init) != [] {
      FirstWritten(init);
      var k :| 0 <= k < |init| && !IsNullOrEmpty(init[k].text) &&
               Written(init)[0] == Piece(init[k].separator, init[k].text.value) &&
               forall j :: 0 <= j < k ==> IsNullOrEmpty(init[j].text);
      assert Written(ps)[0] == Written(init)[0];
    } else {
      NothingWritten(init);
      assert Written(ps)[0] == Piece(ps[|ps| - 1].separator, ps[|ps| - 1].text.value);
    }
  }

  /** The address never starts with a separator: it is empty, or it starts
      with the text of the first part that is neither null nor empty. */
  lemma NoLeadingSeparator(line1: Option<string>, line2: Option<string>, city: Option<string>,
                           state: Option<string>, postalCode: Option<string>, country: Option<string>)
    ensures var ps := AddressParts(line1, line2, city, state, postalCode, country);
            var s := FullAddress(line1, line2, city, state, postalCode, country);
            s == "" ||
            exists k :: 0 <= k < 6 && !IsNullOrEmpty(ps[k].text) &&
                        (forall j :: 0 <= j < k ==> IsNullOrEmpty(ps[j].text)) &&
                        |ps[k].text.value| <= |s| && s[..|ps[k].text.value|] == ps[k].text.value
  {
    var ps := AddressParts(line1, line2, city, state, postalCode, country);
    BuildIsJoin(ps);
    JoinShape(Written(ps));
    if Written(ps) != [] {
      FirstWritten(ps);
    }
  }

  /** With all six parts present the address reads
      "line1, line2, city, state postalCode, country". */
  lemma AllPartsPresent(line1: string, line2: string, city: string, state: string, postalCode: string, country: string)
    requires line1 != "" && line2 != "" && city != "" && state != "" && postalCode != "" && country != ""
    ensures FullAddress(Some(line1), Some(line2), Some(city), Some(state), Some(postalCode), Some(country))
         == line1 + ", " + line2 + ", " + city + ", " + state + " " + postalCode + ", " + country
  {
    var ps := AddressParts(Some(line1), Some(line2), Some(city), Some(state), Some(postalCode), Some(country));
    assert Build(ps[..1]) == line1 by { assert ps[..1][..0] == []; }
    assert Build(ps[..2]) == line1 + ", " + line2 by { assert ps[..2][..1] == ps[..1]; }
    assert Build(ps[..3]) == line1 + ", " + line2 + ", " + city by { assert ps[..3][..2] == ps[..2]; }
    assert Build(ps[..4]) == line1 + ", " + line2 + ", " + city + ", " + state by { assert ps[..4][..3] == ps[..3]; }
    assert Build(ps[..5]) == line1 + ", " + line2 + ", " + city + ", " + state + " " + postalCode
      by { assert ps[..5][..4] == ps[..4]; }
    assert ps[..5] == ps[..|ps| - 1];
  }

  /** Without a state the postal code follows the city after a space: the
      separator belongs to the part written, not to its predecessor. */
  lemma PostalCodeAfterSpace(city: string, postalCode: string)
    requires city != "" && postalCode != ""
    ensures FullAddress(None, None, Some(city), None, Some(postalCode), None) == city + " " + postalCode
  {
    var ps := AddressParts(None, None, Some(city), None, Some(postalCode), None);
    assert Build(ps[..1]) == "" by { assert ps[..1][..0] == []; }
    assert Build(ps[..2]) == "" by { assert ps[..2][..1] == ps[..1]; }
    assert Build(ps[..3]) == city by { assert ps[..3][..2] == ps[..2]; }
    assert Build(ps[..4]) == city by { assert ps[..4][..3] == ps[..3]; }
    assert Build(ps[..5]) == city + " " + postalCode by { assert ps[..5][..4] == ps[..4]; }
    assert ps[..5] == ps[..|ps| - 1];
  }

  // ---------------------------------------------------------------------
  // The DTO formatter

  /** dto/AddressDto.java */
  datatype AddressDto = AddressDto(
    id: Option<nat>,
    addressLine1: Option<string>,
    addressLine2: Option<string>,
    city: Option<string>,
    state: Option<string>,
    postalCode: Option<string>,
    country: Option<string>,
    isDefault: bool,
    labelText: Option<string>,
    instructions: Option<string>,
    customerId: Option<nat>)

  /** Whether the DTO writes its second line: non-null and not blank once
      trimmed. */
  predicate WritesLine2(d: AddressDto) {
    d.addressLine2.Some? && Trim(d.addressLine2.value) != ""
  }

  /** The fixed tail ", city, state postalCode, country", written whatever
      the parts hold (null as "null"). */
  function DtoTail(d: AddressDto): string {
    ", " + Str(d.city) + ", " + Str(d.state) + " " + Str(d.postalCode) + ", " + Str(d.country)
  }

  /** AddressDto.getFullAddress: line one unconditionally, the optional
      second line, then the tail. */
  function DtoFullAddress(d: AddressDto): (s: string)
    ensures |Str(d.addressLine1)| <= |s| && s[..|Str(d.addressLine1)|] == Str(d.addressLine1)
    ensures |DtoTail(d)| <= |s| && s[|s| - |DtoTail(d)|..] == DtoTail(d)
  {
    var line2 := if WritesLine2(d) then ", " + d.addressLine2.value else "";
    var s := Str(d.addressLine1) + line2 + DtoTail(d);
    assert s[..|Str(d.addressLine1)|] == Str(d.addressLine1);
    assert s[|s| - |DtoTail(d)|..] == DtoTail(d);
    s
  }

  /** A null or blank second line is left out as if it were null; one with
      content is written after line one and a comma. */
  lemma DtoLine2(d: AddressDto)
    ensures !WritesLine2(d) ==> DtoFullAddress(d) == DtoFullAddress(d.(addressLine2 := None))
    ensures WritesLine2(d) ==>
              DtoFullAddress(d) == Str(d.addressLine1) + ", " + d.addressLine2.value + DtoTail(d)
    ensures DtoFullAddress(d.(addressLine2 := None)) == Str(d.addressLine1) + DtoTail(d)
  {
  }

  /** Unlike the entity, the DTO writes every separator whatever the parts
      hold: an all-null DTO formats as "null, null, null null, null". */
  lemma DtoAllNull(d: AddressDto)
    requires d.addressLine1.None? && d.addressLine2.None? && d.city.None?
    requires d.state.None? && d.postalCode.None? && d.country.None?
    ensures DtoFullAddress(d) == "null, null, null null, null"
  {
  }

  /** With every part present, non-empty and a second line that is not
      blank, the two formatters agree. */
  lemma DtoAgreesWithEntity(d: AddressDto)
    requires !IsNullOrEmpty(d.addressLine1) && WritesLine2(d) && !IsNullOrEmpty(d.city)
    requires !IsNullOrEmpty(d.state) && !IsNullOrEmpty(d.postalCode) && !IsNullOrEmpty(d.country)
    ensures DtoFullAddress(d) == FullAddress(d.addressLine1, d.addressLine2, d.city, d.state, d.postalCode, d.country)
  {
    AllPartsPresent(d.addressLine1.value, d.addressLine2.value, d.city.value,
                    d.state.value, d.postalCode.value, d.country.value);
  }

  /** String.trim() of a single space is empty. */
  lemma TrimOfSpace()
    ensures Trim(" ") == ""
  {
    assert " "[1..] == "";
    assert TrimStart(" ") == TrimStart("");
  }

  /** A second line of one space is dropped by the DTO ... */
  lemma DtoDropsBlankLine2(d: AddressDto)
    requires d.addressLine2 == Some(" ")
    ensures DtoFullAddress(d) == Str(d.addressLine1) + DtoTail(d)
  {
    TrimOfSpace();
  }

  /** ... but written by the entity, so there the two formatters disagree. */
  lemma EntityWritesBlankLine2(line1: string, city: string, state: string, postalCode: string, country: string)
    requires line1 != "" && city != "" && state != "" && postalCode != "" && country != ""
    ensures FullAddress(Some(line1), Some(" "), Some(city), Some(state), Some(postalCode), Some(country))
         == line1 + ", " + " " + DtoTail(AddressDto(None, Some(line1), Some(" "), Some(city), Some(state),
                                                    Some(postalCode), Some(country), false, None, None, None))
  {
    AllPartsPresent(line1, " ", city, state, postalCode, country);
    var tail := ", " + city + ", " + state + " " + postalCode + ", " + country;
    assert line1 + ", " + " " + ", " + city + ", " + state + " " + postalCode + ", " + country
        == line1 + ", " + " " + tail;
  }
}
