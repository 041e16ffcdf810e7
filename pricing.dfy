/** calculateBookingTotal: the service's base price, plus the price of every
    catalog add-on the request selects, multiplied by the whole number of
    hours when that number exceeds one. Money is whole cents. */
module Pricing {
  import opened Common
  import opened BookingModel

  /** `selected.stream().anyMatch(d -> d.getId().equals(addonId))`: scans the
      selection in order; a null BaseDto id reached before a match throws. */
  function AnyMatch(selected: seq<BookingAddonDto>, addonId: nat): (r: Result<bool>)
    ensures r.Err? ==> r.error == NullPointer && exists k :: 0 <= k < |selected| && selected[k].id.None?
    ensures r == Ok(true) ==> exists k :: 0 <= k < |selected| && selected[k].id == Some(addonId)
    ensures r == Ok(false) ==> forall k :: 0 <= k < |selected| ==>
                                 selected[k].id.Some? && selected[k].id != Some(addonId)
    ensures (forall k :: 0 <= k < |selected| ==> selected[k].id.Some?) ==>
              r == Ok(exists k :: 0 <= k < |selected| && selected[k].id == Some(addonId))
  {
    if selected == [] then Ok(false)
    else
      assert forall k :: 0 < k < |selected| ==> selected[k] == selected[1..][k - 1];
      if selected[0].id.None? then Err(NullPointer)
      else if selected[0].id.value == addonId then Ok(true)
      else AnyMatch(selected[1..], addonId)
  }

  /** The stream `filter` over the catalog's add-ons: those the selection
      matches, or the exception the first failing match throws. */
  function MatchedAddons(catalog: seq<CatalogAddon>, selected: seq<BookingAddonDto>): (r: Result<seq<CatalogAddon>>)
    ensures r.Err? <==> exists k :: 0 <= k < |catalog| && AnyMatch(selected, catalog[k].id).Err?
    ensures r.Err? ==> r.error == NullPointer
    ensures r.Ok? ==> |r.value| <= |catalog|
    ensures r.Ok? ==> forall a :: a in r.value <==> a in catalog && AnyMatch(selected, a.id) == Ok(true)
  {
    if catalog == [] then Ok([])
    else
      assert forall k :: 0 < k < |catalog| ==> catalog[k] == catalog[1..][k - 1];
      assert forall a :: a in catalog <==> a == catalog[0] || a in catalog[1..];
      match AnyMatch(selected, catalog[0].id)
      case Err(e) => Err(e)
      case Ok(keep) =>
        match MatchedAddons(catalog[1..], selected)
        case Err(e) => Err(e)
        case Ok(rest) => Ok((if keep then [catalog[0]] else []) + rest)
  }

  /** The sum the `for` loop accumulates, element by element. */
  function SumPrices(addons: seq<CatalogAddon>): int {
    if addons == [] then 0 else SumPrices(addons[..|addons| - 1]) + addons[|addons| - 1].price
  }

  /** Java's `/` on longs: the quotient truncated toward zero. */
  function TruncDiv(a: int, b: int): (q: int)
    requires b > 0
    ensures a >= 0 ==> q * b <= a < (q + 1) * b
    ensures a < 0 ==> q <= 0 && (q - 1) * b < a <= q * b
  {
    if a >= 0 then a / b else -((-a) / b)
  }

  /** Duration.between(start, end).toHours(): whole hours, truncated toward
      zero, negative when end precedes start. */
  function WholeHours(start: int, end: int): int {
    TruncDiv(end - start, MinutesPerHour)
  }

  /** What calculateBookingTotal returns once the service has been found. */
  function BookingTotal(service: CatalogService, selected: seq<BookingAddonDto>,
                        bookingDate: Option<int>, endDate: Option<int>): Result<int>
  {
    var subtotal :=
      if |selected| == 0 then Ok(service.basePrice)
      else match MatchedAddons(service.addons, selected)
        case Err(e) => Err(e)
        case Ok(m) => Ok(service.basePrice + SumPrices(m));
    match subtotal
    case Err(e) => Err(e)
    case Ok(total) =>
      if bookingDate.Some? && endDate.Some? && WholeHours(bookingDate.value, endDate.value) > 1
      then Ok(total * WholeHours(bookingDate.value, endDate.value))
      else Ok(total)
  }

  // ---------------------------------------------------------------------
  // Properties

  /** The multiplier: one below two whole hours (so 90 minutes is charged
      like 60), and the truncated hour count from two hours on. */
  lemma HourMultiplier(service: CatalogService, selected: seq<BookingAddonDto>, start: int, total: int)
    requires BookingTotal(service, selected, None, None) == Ok(total)
    ensures BookingTotal(service, selected, Some(start), Some(start + 90)) == Ok(total)
    ensures BookingTotal(service, selected, Some(start), Some(start + 119)) == Ok(total)
    ensures BookingTotal(service, selected, Some(start), Some(start + 120)) == Ok(2 * total)
    ensures BookingTotal(service, selected, Some(start), Some(start + 150)) == Ok(2 * total)
    ensures BookingTotal(service, selected, Some(start), Some(start + 180)) == Ok(3 * total)
    ensures BookingTotal(service, selected, Some(start), Some(start - 180)) == Ok(total)
  {
  }

  /** Without either date the multiplier is skipped; with both, the
      multiplied total is exactly a whole-hour multiple of the subtotal. */
  lemma {:induction false} MultiplierCases(service: CatalogService, selected: seq<BookingAddonDto>,
                                          start: int, end: int, total: int)
    requires BookingTotal(service, selected, None, None) == Ok(total)
    ensures BookingTotal(service, selected, None, Some(end)) == Ok(total)
    ensures BookingTotal(service, selected, Some(start), None) == Ok(total)
    ensures end - start >= 120 ==>
              exists h :: h >= 2 && h * 60 <= end - start < (h + 1) * 60 &&
                          BookingTotal(service, selected, Some(start), Some(end)) == Ok(h * total)
    ensures end - start < 120 ==> BookingTotal(service, selected, Some(start), Some(end)) == Ok(total)
  {
    var h := WholeHours(start, end);
    if end - start >= 120 {
      assert h >= 2;
      assert h * 60 <= end - start < (h + 1) * 60;
      assert BookingTotal(service, selected, Some(start), Some(end)) == Ok(total * h);
      assert total * h == h * total;
    }
  }

  /** A catalog of 50.00 with one selected 10.00 add-on, booked for 90
      minutes, costs 60.00: the add-on is added and no multiplier applies. */
  lemma NinetyMinuteExample(start: int)
    ensures BookingTotal(CatalogService(5000, Some(90), [CatalogAddon(7, 1000)]),
                         [NewBookingAddonDto().(id := Some(7))], Some(start), Some(start + 90)) == Ok(6000)
  {
    var catalog := [CatalogAddon(7, 1000)];
    var selected := [NewBookingAddonDto().(id := Some(7))];
    assert AnyMatch(selected, 7) == Ok(true);
    assert catalog[1..] == [];
    assert MatchedAddons(catalog[1..], selected) == Ok([]);
    assert [catalog[0]] + [] == catalog;
    assert MatchedAddons(catalog, selected) == Ok(catalog);
    assert SumPrices(catalog) == 1000;
  }

  /** Matching reads only the BaseDto ids of the selection. */
  lemma {:induction false} AnyMatchReadsOnlyIds(a: seq<BookingAddonDto>, b: seq<BookingAddonDto>, addonId: nat)
    requires |a| == |b| && forall k :: 0 <= k < |a| ==> a[k].id == b[k].id
    ensures AnyMatch(a, addonId) == AnyMatch(b, addonId)
  {
    if a != [] {
      AnyMatchReadsOnlyIds(a[1..], b[1..], addonId);
    }
  }

  lemma {:induction false} MatchedAddonsReadsOnlyIds(catalog: seq<CatalogAddon>, a: seq<BookingAddonDto>, b: seq<BookingAddonDto>)
    requires |a| == |b| && forall k :: 0 <= k < |a| ==> a[k].id == b[k].id
    ensures MatchedAddons(catalog, a) == MatchedAddons(catalog, b)
  {
    if catalog != [] {
      AnyMatchReadsOnlyIds(a, b, catalog[0].id);
      MatchedAddonsReadsOnlyIds(catalog[1..], a, b);
    }
  }

  /** The total depends on the selection's ids alone: quantity, addonId,
      name and price of the selected lines are never read. */
  lemma TotalIgnoresQuantityAndAddonId(service: CatalogService, a: seq<BookingAddonDto>, b: seq<BookingAddonDto>,
                                       bookingDate: Option<int>, endDate: Option<int>)
    requires |a| == |b| && forall k :: 0 <= k < |a| ==> a[k].id == b[k].id
    ensures BookingTotal(service, a, bookingDate, endDate) == BookingTotal(service, b, bookingDate, endDate)
  {
    MatchedAddonsReadsOnlyIds(service.addons, a, b);
  }

  /** A selection that names its add-ons only through addonId (leaving the
      BaseDto id null) throws as soon as the service has any add-on. */
  lemma SelectionByAddonIdFails(service: CatalogService, selected: seq<BookingAddonDto>,
                                bookingDate: Option<int>, endDate: Option<int>)
    requires |service.addons| > 0 && |selected| > 0 && selected[0].id.None?
    ensures BookingTotal(service, selected, bookingDate, endDate) == Err(NullPointer)
  {
    assert AnyMatch(selected, service.addons[0].id).Err?;
  }

  /** anyMatch over a concatenation: the first part decides unless it finds
      nothing. */
  lemma {:induction false} AnyMatchAppend(a: seq<BookingAddonDto>, b: seq<BookingAddonDto>, addonId: nat)
    decreases |a|
    ensures AnyMatch(a + b, addonId) == if AnyMatch(a, addonId) == Ok(false) then AnyMatch(b, addonId) else AnyMatch(a, addonId)
  {
    if a == [] {
      assert a + b == b;
    } else {
      assert (a + b)[0] == a[0];
      assert (a + b)[1..] == a[1..] + b;
      AnyMatchAppend(a[1..], b, addonId);
    }
  }

  /** The filter over a concatenated catalog is the concatenation of the
      filters, and fails when either part's does. With MatchedAddons' own
      contract (on a one-add-on catalog it keeps that add-on exactly when it
      is matched) this pins the result down as the catalog's matched add-ons
      in catalog order. */
  lemma {:induction false} MatchedAddonsAppend(c1: seq<CatalogAddon>, c2: seq<CatalogAddon>, selected: seq<BookingAddonDto>)
    decreases |c1|
    ensures MatchedAddons(c1 + c2, selected).Ok? <==> MatchedAddons(c1, selected).Ok? && MatchedAddons(c2, selected).Ok?
    ensures MatchedAddons(c1 + c2, selected).Ok? ==>
              MatchedAddons(c1 + c2, selected).value == MatchedAddons(c1, selected).value + MatchedAddons(c2, selected).value
  {
    if c1 == [] {
      assert c1 + c2 == c2;
    } else {
      assert (c1 + c2)[0] == c1[0];
      assert (c1 + c2)[1..] == c1[1..] + c2;
      MatchedAddonsAppend(c1[1..], c2, selected);
      var keep := AnyMatch(selected, c1[0].id);
      var sub1 := MatchedAddons(c1[1..], selected);
      var sub2 := MatchedAddons(c2, selected);
      if keep.Ok? && sub1.Ok? && sub2.Ok? {
        var head: seq<CatalogAddon> := if keep.value then [c1[0]] else [];
        assert head + (sub1.value + sub2.value) == (head + sub1.value) + sub2.value;
      }
    }
  }

  /** Selecting the same add-ons twice charges them once: a matched catalog
      add-on is added a single time whatever its multiplicity. */
  lemma {:induction false} DuplicateSelectionChargedOnce(service: CatalogService, selected: seq<BookingAddonDto>,
                                                        bookingDate: Option<int>, endDate: Option<int>)
    ensures BookingTotal(service, selected + selected, bookingDate, endDate) == BookingTotal(service, selected, bookingDate, endDate)
  {
    forall id: nat ensures AnyMatch(selected + selected, id) == AnyMatch(selected, id) {
      AnyMatchAppend(selected, selected, id);
    }
    MatchedAddonsSameMatches(service.addons, selected + selected, selected);
  }

  lemma {:induction false} MatchedAddonsSameMatches(catalog: seq<CatalogAddon>, a: seq<BookingAddonDto>, b: seq<BookingAddonDto>)
    requires forall id: nat :: AnyMatch(a, id) == AnyMatch(b, id)
    ensures MatchedAddons(catalog, a) == MatchedAddons(catalog, b)
  {
    if catalog != [] {
      MatchedAddonsSameMatches(catalog[1..], a, b);
    }
  }

  lemma {:induction false} SumPricesNonNegative(addons: seq<CatalogAddon>)
    requires forall k :: 0 <= k < |addons| ==> addons[k].price >= 0
    ensures SumPrices(addons) >= 0
  {
    if addons != [] {
      SumPricesNonNegative(addons[..|addons| - 1]);
    }
  }

  /** With non-negative catalog prices the total is never negative. */
  lemma TotalNonNegative(service: CatalogService, selected: seq<BookingAddonDto>,
                         bookingDate: Option<int>, endDate: Option<int>)
    requires service.basePrice >= 0
    requires forall k :: 0 <= k < |service.addons| ==> service.addons[k].price >= 0
    ensures BookingTotal(service, selected, bookingDate, endDate).Ok? ==>
              BookingTotal(service, selected, bookingDate, endDate).value >= 0
  {
    if |selected| > 0 {
      var m := MatchedAddons(service.addons, selected);
      if m.Ok? {
        forall k | 0 <= k < |m.value| ensures m.value[k].price >= 0 {
          assert m.value[k] in m.value;
        }
        SumPricesNonNegative(m.value);
      }
    }
  }
}
