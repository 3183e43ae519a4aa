/**
 * The five-step booking wizard: venue, date and time, event details,
 * payment, confirmation. The wizard object holds the step, the selections
 * and the contact form; advancing is gated per step, and the price is
 * derived from the selected venue and add-on services.
 */
module Booking {
  import opened Wrappers
  import opened VenueCard
  import Lists

  // ---------------------------------------------------------------- catalogue

  datatype PriceLabel = PerPerson | FlatFee

  /** An add-on service; a `PerPerson` price is charged for every assumed guest. */
  datatype Service = Service(id: string, name: string, description: string, price: nat, priceLabel: PriceLabel)

  datatype PaymentMethod = PaymentMethod(id: string, name: string, description: string)

  const Venues: seq<VenueProps> := [
    VenueProps("1", "Crystal Grand Ballroom",
      "Elegant ballroom with crystal chandeliers and marble floors, perfect for weddings and galas.",
      "Downtown, New York", 300, 1200, 49, Some(["Wedding", "Luxury"])),
    VenueProps("2", "Harbor View Terrace",
      "Stunning waterfront venue with panoramic views of the harbor, ideal for outdoor celebrations.",
      "Harbor District, San Francisco", 150, 950, 47, Some(["Outdoor", "Scenic"])),
    VenueProps("3", "Metropolitan Conference Center",
      "Modern conference center with state-of-the-art technology and flexible spaces for corporate events.",
      "Midtown, Chicago", 400, 1500, 46, Some(["Corporate", "Modern"]))
  ]

  const AdditionalServices: seq<Service> := [
    Service("catering", "Premium Catering", "Gourmet food and beverage service", 45, PerPerson),
    Service("decoration", "Decoration Package", "Custom event decor and floral arrangements", 1200, FlatFee),
    Service("av", "A/V Equipment", "Professional sound and lighting", 800, FlatFee),
    Service("photography", "Photography", "Professional event photography", 1500, FlatFee),
    Service("entertainment", "Entertainment", "Live music or DJ services", 1200, FlatFee)
  ]

  const PaymentMethods: seq<PaymentMethod> := [
    PaymentMethod("credit", "Credit/Debit Card", "Pay with Visa, Mastercard, etc."),
    PaymentMethod("paypal", "PayPal", "Fast and secure payment"),
    PaymentMethod("bank", "Bank Transfer", "Direct bank transfer")
  ]

  /** The venue is booked for this many hours. */
  const MinimumHours: nat := 4
  /** A per-person service is charged for this many guests. */
  const AssumedGuests: nat := 100

  const SelectVenueMessage := "Please select a venue to continue"
  const RequiredFieldsMessage := "Please fill out all required fields"
  const TermsMessage := "Please agree to the terms of service"
  const PaymentMessage := "Please select a payment method"
  const ConfirmedMessage := "Booking confirmed! Redirecting to confirmation page..."

  /** A toast shown to the user. */
  datatype Notice = Error(text: string) | Success(text: string)

  /** The catalogue the wizard reads: venues and add-on services. */
  datatype Catalog = Catalog(venues: seq<VenueProps>, services: seq<Service>)

  /** The catalogue the page declares. */
  const MockCatalog := Catalog(Venues, AdditionalServices)

  // ---------------------------------------------------------------- lookups

  /** `venues.find(v => v.id === id)`: the first venue with that id. */
  function FindVenue(list: seq<VenueProps>, id: Option<string>): (r: Option<VenueProps>)
    ensures r.Some? ==> r.value in list && id == Some(r.value.id)
    ensures r.None? ==> forall v :: v in list ==> id != Some(v.id)
    ensures forall k :: 0 <= k < |list| && id == Some(list[k].id) && (forall j :: 0 <= j < k ==> id != Some(list[j].id))
              ==> r == Some(list[k])
  {
    if list == [] then None
    else if id == Some(list[0].id) then Some(list[0])
    else FindVenue(list[1..], id)
  }

  /** `additionalServices.find(s => s.id === id)`: the first service with that id. */
  function FindService(list: seq<Service>, id: string): (r: Option<Service>)
    ensures r.Some? ==> r.value in list && r.value.id == id
    ensures r.None? ==> forall s :: s in list ==> s.id != id
    ensures forall k :: 0 <= k < |list| && list[k].id == id && (forall j :: 0 <= j < k ==> list[j].id != id)
              ==> r == Some(list[k])
  {
    if list == [] then None
    else if list[0].id == id then Some(list[0])
    else FindService(list[1..], id)
  }

  // ---------------------------------------------------------------- pricing

  /** What one selected service id adds to the total; an id not in the catalogue adds nothing. */
  function ServiceCharge(cat: Catalog, id: string): nat
  {
    match FindService(cat.services, id)
    case None => 0
    case Some(s) => if s.priceLabel == PerPerson then s.price * AssumedGuests else s.price
  }

  /** The sum of the charges of the selected service ids. */
  function ServicesCost(cat: Catalog, ids: seq<string>): nat
  {
    if ids == [] then 0 else ServiceCharge(cat, ids[0]) + ServicesCost(cat, ids[1..])
  }

  /** The rental: the venue's hourly price for the minimum hours, or 0 with no known venue. */
  function VenueCost(cat: Catalog, venueId: Option<string>): nat
  {
    match FindVenue(cat.venues, venueId)
    case None => 0
    case Some(v) => v.price * MinimumHours
  }

  /** `calculateTotal()`: rental plus every selected service. */
  function Total(cat: Catalog, venueId: Option<string>, ids: seq<string>): nat
  {
    VenueCost(cat, venueId) + ServicesCost(cat, ids)
  }

  /** Selecting one more service adds exactly its charge. */
  lemma {:induction false} ServicesCostAppend(cat: Catalog, ids: seq<string>, id: string)
    ensures ServicesCost(cat, ids + [id]) == ServicesCost(cat, ids) + ServiceCharge(cat, id)
  {
    if ids == [] {
      assert [] + [id] == [id];
      assert [id][1..] == [];
    } else {
      assert (ids + [id])[0] == ids[0];
      assert (ids + [id])[1..] == ids[1..] + [id];
      ServicesCostAppend(cat, ids[1..], id);
    }
  }

  /** Dropping every occurrence of a service subtracts its charge once per occurrence. */
  lemma {:induction false} ServicesCostRemoveAll(cat: Catalog, ids: seq<string>, id: string)
    ensures ServicesCost(cat, ids) == ServicesCost(cat, Lists.RemoveAll(ids, id)) + multiset(ids)[id] * ServiceCharge(cat, id)
  {
    if ids != [] {
      var t := ids[1..];
      ServicesCostRemoveAll(cat, t, id);
      assert ids == [ids[0]] + t;
      var m, c := multiset(t)[id], ServiceCharge(cat, id);
      assert multiset(ids)[id] == m + (if ids[0] == id then 1 else 0);
      MulSucc(m, c);
      if ids[0] != id {
        var r := Lists.RemoveAll(t, id);
        assert ([ids[0]] + r)[0] == ids[0] && ([ids[0]] + r)[1..] == r;
      }
    }
  }

  lemma MulSucc(m: nat, c: nat)
    ensures (m + 1) * c == m * c + c
  {
  }

  /** A duplicate-free list holds a member exactly once. */
  lemma CountOnce(ids: seq<string>, id: string)
    requires Lists.NoDup(ids) && id in ids
    ensures multiset(ids)[id] == 1
  {
    var k :| 0 <= k < |ids| && ids[k] == id;
    var a, b := ids[..k], ids[k + 1..];
    Lists.SplitAround(ids, k);
    assert id !in a by {
      forall j | 0 <= j < |a| ensures a[j] != id { assert a[j] == ids[j]; }
    }
    assert id !in b by {
      forall j | 0 <= j < |b| ensures b[j] != id { assert b[j] == ids[k + 1 + j]; }
    }
    assert multiset(ids) == multiset(a) + multiset{id} + multiset(b);
  }

  /**
   * Toggling a service changes the total by exactly its charge: up when it
   * was not selected, down when it was selected.
   */
  lemma TotalAfterToggle(cat: Catalog, venueId: Option<string>, ids: seq<string>, id: string)
    requires Lists.NoDup(ids)
    ensures id !in ids ==> Total(cat, venueId, Lists.Toggle(ids, id)) == Total(cat, venueId, ids) + ServiceCharge(cat, id)
    ensures id in ids ==> Total(cat, venueId, Lists.Toggle(ids, id)) + ServiceCharge(cat, id) == Total(cat, venueId, ids)
  {
    if id in ids {
      ServicesCostRemoveAll(cat, ids, id);
      CountOnce(ids, id);
    } else {
      ServicesCostAppend(cat, ids, id);
    }
  }

  /** `Math.round(total * 0.25)`: the nearest whole dollar to a quarter, halves rounded up. */
  function Deposit(total: nat): (d: nat)
    ensures 4 * d <= total + 2 < 4 * d + 4
  {
    (total + 2) / 4
  }

  /** Venue "1" rents at 1200 an hour, four hours. */
  lemma VenueOneCost()
    ensures VenueCost(MockCatalog, Some("1")) == 4800
  {
    assert FindVenue(Venues, Some("1")) == Some(Venues[0]);
  }

  /** Catering is 45 a head for the hundred assumed guests. */
  lemma CateringCharge()
    ensures ServiceCharge(MockCatalog, "catering") == 4500
  {
    assert FindService(AdditionalServices, "catering") == Some(AdditionalServices[0]);
  }

  /** A/V equipment is a flat 800. */
  lemma AvCharge()
    ensures ServiceCharge(MockCatalog, "av") == 800
  {
    assert |AdditionalServices[0].id| != 2 && |AdditionalServices[1].id| != 2 && AdditionalServices[2].id == "av";
  }

  /** A venue id outside the catalogue rents for nothing. */
  lemma UnknownVenueCost()
    ensures VenueCost(MockCatalog, Some("9")) == 0
  {
    assert FindVenue(Venues, Some("9")).None?;
  }

  /** A service id outside the catalogue adds nothing. */
  lemma UnknownServiceCost()
    ensures ServiceCharge(MockCatalog, "unknown") == 0
  {
    assert |"unknown"| == 7;
    assert forall k :: 0 <= k < |AdditionalServices| ==> |AdditionalServices[k].id| != 7;
  }

  /** One selected service costs exactly its charge. */
  lemma ServicesCostOne(cat: Catalog, id: string)
    ensures ServicesCost(cat, [id]) == ServiceCharge(cat, id)
  {
    ServicesCostAppend(cat, [], id);
    assert [] + [id] == [id];
  }

  /** Two selected services cost the sum of their charges. */
  lemma ServicesCostTwo(cat: Catalog, a: string, b: string)
    ensures ServicesCost(cat, [a, b]) == ServiceCharge(cat, a) + ServiceCharge(cat, b)
  {
    ServicesCostOne(cat, a);
    ServicesCostAppend(cat, [a], b);
    assert [a] + [b] == [a, b];
  }

  /** Venue "1" alone for the four hours: 4800. */
  lemma RentalOnlyTotal()
    ensures Total(MockCatalog, Some("1"), []) == 4800
  {
    VenueOneCost();
  }

  /** Venue "1" with A/V equipment: 5600. */
  lemma RentalWithAvTotal()
    ensures Total(MockCatalog, Some("1"), ["av"]) == 5600
  {
    VenueOneCost();
    AvCharge();
    ServicesCostOne(MockCatalog, "av");
  }

  /** Venue "1" with catering for the assumed hundred guests: 9300, a deposit of 2325. */
  lemma RentalWithCateringTotal()
    ensures Total(MockCatalog, Some("1"), ["catering"]) == 9300
    ensures Deposit(9300) == 2325
  {
    VenueOneCost();
    CateringCharge();
    ServicesCostOne(MockCatalog, "catering");
  }

  /** No venue chosen: only the services count, 4500 + 800. */
  lemma ServicesOnlyTotal()
    ensures Total(MockCatalog, None, ["catering", "av"]) == 5300
  {
    assert FindVenue(Venues, None) == None;
    CateringCharge();
    AvCharge();
    ServicesCostTwo(MockCatalog, "catering", "av");
  }

  /** Unknown venue and service ids: nothing to pay. */
  lemma UnknownIdsTotal()
    ensures Total(MockCatalog, Some("9"), ["unknown"]) == 0
  {
    UnknownVenueCost();
    UnknownServiceCost();
    ServicesCostOne(MockCatalog, "unknown");
  }

  // ---------------------------------------------------------------- form data

  datatype FormField = FirstName | LastName | Email | Phone | EventType | SpecialRequests | AgreeTos

  /** `handleFormChange` takes `string | boolean`, whatever the field. */
  datatype FieldValue = Text(s: string) | Flag(b: bool)

  type FormData = map<FormField, FieldValue>

  const InitialFormData: FormData := map[
    FirstName := Text(""), LastName := Text(""), Email := Text(""), Phone := Text(""),
    EventType := Text(""), SpecialRequests := Text(""), AgreeTos := Flag(false)]

  /** JavaScript truthiness of a field: a non-empty string or `true`. */
  predicate Filled(form: FormData, f: FormField)
  {
    f in form && match form[f] { case Text(s) => s != "" case Flag(b) => b }
  }

  /** JavaScript truthiness of an optional id: present and not the empty string. */
  predicate Present(id: Option<string>)
  {
    id.Some? && id.value != ""
  }

  /** The five fields that must be filled before leaving the details step. */
  predicate RequiredFilled(form: FormData)
  {
    Filled(form, FirstName) && Filled(form, LastName) && Filled(form, Email) &&
    Filled(form, Phone) && Filled(form, EventType)
  }

  // ---------------------------------------------------------------- step gates

  /**
   * The error `handleNextStep` reports for the current step, or `None`
   * when the step may be left.
   */
  function NextStepGate(step: int, venueId: Option<string>, form: FormData, payment: Option<string>): (r: Option<string>)
    ensures step != 1 && step != 3 && step != 4 ==> r.None?
    ensures step == 1 ==> (r.None? <==> Present(venueId)) && (r.Some? ==> r.value == SelectVenueMessage)
    ensures step == 3 ==> (r == Some(RequiredFieldsMessage) <==> !RequiredFilled(form))
    ensures step == 3 ==> (r == Some(TermsMessage) <==> RequiredFilled(form) && !Filled(form, AgreeTos))
    ensures step == 3 ==> (r.None? <==> RequiredFilled(form) && Filled(form, AgreeTos))
    ensures step == 4 ==> (r.None? <==> Present(payment)) && (r.Some? ==> r.value == PaymentMessage)
  {
    if step == 1 && !Present(venueId) then Some(SelectVenueMessage)
    else if step == 3 && !RequiredFilled(form) then Some(RequiredFieldsMessage)
    else if step == 3 && !Filled(form, AgreeTos) then Some(TermsMessage)
    else if step == 4 && !Present(payment) then Some(PaymentMessage)
    else None
  }

  // ---------------------------------------------------------------- the service cards

  /**
   * A click on a service card's own checkbox as the page is written: the
   * checkbox's `onCheckedChange` toggles the id, and the click then bubbles
   * to the card's `onClick`, which toggles it again, both through
   * functional updates that React applies in turn.
   */
  function CheckboxClickAsWritten(selected: seq<string>, id: string): (r: seq<string>)
    ensures forall y :: y in r <==> y in selected
  {
    Lists.ToggleTwiceMembers(selected, id);
    Lists.Toggle(Lists.Toggle(selected, id), id)
  }

  /** Ticking the catering box on an empty selection leaves it empty. */
  lemma CheckboxClickSelectsNothing()
    ensures "catering" !in CheckboxClickAsWritten([], "catering")
    ensures CheckboxClickAsWritten([], "catering") == []
  {
    Lists.ToggleTwiceAbsent([], "catering");
  }

  /** A click on a card, or on its checkbox with the event handled once: one toggle. */
  function CardClick(selected: seq<string>, id: string): (r: seq<string>)
    ensures id in r <==> id !in selected
    ensures forall y :: y != id ==> (y in r <==> y in selected)
    ensures Lists.NoDup(selected) ==> Lists.NoDup(r)
  {
    assert Lists.NoDup(selected) ==> Lists.NoDup(Lists.Toggle(selected, id)) by {
      if Lists.NoDup(selected) {
        Lists.ToggleNoDup(selected, id);
      }
    }
    Lists.Toggle(selected, id)
  }

  // ---------------------------------------------------------------- the wizard

  class Wizard {
    const catalog: Catalog
    var activeStep: int
    var selectedVenueId: Option<string>
    var selectedServices: seq<string>
    var paymentMethod: Option<string>
    var formData: FormData

    /** The step stays in 1..5 and no service is selected twice. */
    ghost predicate Valid()
      reads this
    {
      1 <= activeStep <= 5 && Lists.NoDup(selectedServices)
    }

    /** The wizard as mounted: step 1, nothing selected, an empty form. */
    constructor ()
      ensures Valid() && catalog == MockCatalog
      ensures activeStep == 1 && selectedVenueId == None && selectedServices == []
      ensures paymentMethod == None && formData == InitialFormData
    {
      catalog := MockCatalog;
      activeStep := 1;
      selectedVenueId := None;
      selectedServices := [];
      paymentMethod := None;
      formData := InitialFormData;
    }

    /** `handleVenueSelect`: records the venue and changes nothing else. */
    method HandleVenueSelect(venueId: string)
      requires Valid()
      modifies this
      ensures Valid()
      ensures selectedVenueId == Some(venueId)
      ensures activeStep == old(activeStep) && selectedServices == old(selectedServices)
      ensures paymentMethod == old(paymentMethod) && formData == old(formData)
    {
      selectedVenueId := Some(venueId);
    }

    /** `handleServiceToggle`: flips one service's membership, keeping the list duplicate-free. */
    method HandleServiceToggle(serviceId: string)
      requires Valid()
      modifies this
      ensures Valid()
      ensures selectedServices == Lists.Toggle(old(selectedServices), serviceId)
      ensures selectedServices == CardClick(old(selectedServices), serviceId)
      ensures activeStep == old(activeStep) && selectedVenueId == old(selectedVenueId)
      ensures paymentMethod == old(paymentMethod) && formData == old(formData)
    {
      Lists.ToggleNoDup(selectedServices, serviceId);
      selectedServices := Lists.Toggle(selectedServices, serviceId);
    }

    /** `handlePaymentMethodSelect`: replaces the single selected method. */
    method HandlePaymentMethodSelect(methodId: string)
      requires Valid()
      modifies this
      ensures Valid()
      ensures paymentMethod == Some(methodId)
      ensures activeStep == old(activeStep) && selectedVenueId == old(selectedVenueId)
      ensures selectedServices == old(selectedServices) && formData == old(formData)
    {
      paymentMethod := Some(methodId);
    }

    /** `handleFormChange`: sets one field of the form. */
    method HandleFormChange(field: FormField, value: FieldValue)
      requires Valid()
      modifies this
      ensures Valid()
      ensures formData == old(formData)[field := value]
      ensures forall f :: f != field && f in old(formData) ==> f in formData && formData[f] == old(formData)[f]
      ensures activeStep == old(activeStep) && selectedVenueId == old(selectedVenueId)
      ensures selectedServices == old(selectedServices) && paymentMethod == old(paymentMethod)
    {
      formData := formData[field := value];
    }

    /**
     * `handleNextStep`: on a failed gate the step stays and the error is
     * shown; otherwise the step goes up by one, except at the last step.
     * `scrolled` is the `window.scrollTo(0, 0)` that follows a move.
     */
    method HandleNextStep() returns (notice: Option<Notice>, scrolled: bool)
      requires Valid()
      modifies this
      ensures Valid()
      ensures var gate := NextStepGate(old(activeStep), old(selectedVenueId), old(formData), old(paymentMethod));
        && (gate.Some? ==> notice == Some(Error(gate.value)) && activeStep == old(activeStep))
        && (gate.None? ==> notice == None && activeStep == if old(activeStep) < 5 then old(activeStep) + 1 else 5)
      ensures activeStep == old(activeStep) || activeStep == old(activeStep) + 1
      ensures scrolled <==> activeStep != old(activeStep)
      ensures selectedVenueId == old(selectedVenueId) && selectedServices == old(selectedServices)
      ensures paymentMethod == old(paymentMethod) && formData == old(formData)
    {
      scrolled := false;
      notice := None;
      var gate := NextStepGate(activeStep, selectedVenueId, formData, paymentMethod);
      if gate.Some? {
        notice := Some(Error(gate.value));
        return;
      }
      if activeStep < 5 {
        activeStep := activeStep + 1;
        scrolled := true;
      }
    }

    /** `handlePreviousStep`: one step back, except at the first step. */
    method HandlePreviousStep() returns (scrolled: bool)
      requires Valid()
      modifies this
      ensures Valid()
      ensures activeStep == if old(activeStep) > 1 then old(activeStep) - 1 else 1
      ensures scrolled <==> activeStep != old(activeStep)
      ensures selectedVenueId == old(selectedVenueId) && selectedServices == old(selectedServices)
      ensures paymentMethod == old(paymentMethod) && formData == old(formData)
    {
      scrolled := false;
      if activeStep > 1 {
        activeStep := activeStep - 1;
        scrolled := true;
      }
    }

    /**
     * `handleBookingSubmit`, with its delayed redirect taken as part of the
     * same step: without a payment method it only reports the error;
     * with one it confirms and moves to the confirmation step.
     * `scrolled` is the `window.scrollTo(0, 0)` the delayed redirect makes.
     */
    method HandleBookingSubmit() returns (notice: Notice, scrolled: bool)
      requires Valid()
      modifies this
      ensures Valid()
      ensures !Present(old(paymentMethod)) ==> notice == Error(PaymentMessage) && activeStep == old(activeStep)
      ensures Present(old(paymentMethod)) ==> notice == Success(ConfirmedMessage) && activeStep == 5
      ensures scrolled <==> Present(old(paymentMethod))
      ensures selectedVenueId == old(selectedVenueId) && selectedServices == old(selectedServices)
      ensures paymentMethod == old(paymentMethod) && formData == old(formData)
    {
      scrolled := false;
      if !Present(paymentMethod) {
        notice := Error(PaymentMessage);
        return;
      }
      notice := Success(ConfirmedMessage);
      activeStep := 5;
      scrolled := true;
    }

    /** `calculateTotal`: the rental, then each selected service in turn. */
    method CalculateTotal() returns (total: nat)
      ensures total == Total(catalog, selectedVenueId, selectedServices)
    {
      var venue := FindVenue(catalog.venues, selectedVenueId);
      total := if venue.Some? then venue.value.price * MinimumHours else 0;
      var i := 0;
      while i < |selectedServices|
        invariant 0 <= i <= |selectedServices|
        invariant total == VenueCost(catalog, selectedVenueId) + ServicesCost(catalog, selectedServices[..i])
      {
        var service := FindService(catalog.services, selectedServices[i]);
        if service.Some? {
          if service.value.priceLabel == PerPerson {
            total := total + service.value.price * AssumedGuests;
          } else {
            total := total + service.value.price;
          }
        }
        ServicesCostAppend(catalog, selectedServices[..i], selectedServices[i]);
        assert selectedServices[..i + 1] == selectedServices[..i] + [selectedServices[i]];
        i := i + 1;
      }
      assert selectedServices[..i] == selectedServices;
    }
  }

  /** The venue gate, then the ungated date step. */
  method VenueGateWalkthrough()
  {
    var w := new Wizard();
    var n, s := w.HandleNextStep();
    assert n == Some(Error(SelectVenueMessage)) && w.activeStep == 1 && !s;
    w.HandleVenueSelect("1");
    n, s := w.HandleNextStep();
    assert w.activeStep == 2 && s;
    n, s := w.HandleNextStep();
    assert n == None && w.activeStep == 3;
  }

  /** The details form with every required field filled and the terms still unchecked. */
  const ContactOnly: FormData := InitialFormData[FirstName := Text("Ada")][LastName := Text("Lovelace")]
    [Email := Text("ada@example.com")][Phone := Text("5550100100")][EventType := Text("wedding")]

  /** The details gate reports missing fields before the unchecked terms, then lets the step go. */
  lemma DetailsGateExamples()
    ensures NextStepGate(3, Some("1"), InitialFormData, None) == Some(RequiredFieldsMessage)
    ensures NextStepGate(3, Some("1"), InitialFormData[AgreeTos := Flag(true)], None) == Some(RequiredFieldsMessage)
    ensures NextStepGate(3, Some("1"), ContactOnly, None) == Some(TermsMessage)
    ensures NextStepGate(3, Some("1"), ContactOnly[AgreeTos := Flag(true)], None) == None
  {
    assert !Filled(InitialFormData, FirstName);
    assert !Filled(InitialFormData[AgreeTos := Flag(true)], FirstName);
    assert RequiredFilled(ContactOnly) && !Filled(ContactOnly, AgreeTos);
    assert RequiredFilled(ContactOnly[AgreeTos := Flag(true)]) && Filled(ContactOnly[AgreeTos := Flag(true)], AgreeTos);
  }

  /** Submitting without a payment method is refused; with one it confirms. */
  method PaymentGateWalkthrough(w: Wizard)
    requires w.Valid() && w.activeStep == 4 && w.paymentMethod == None
    modifies w
  {
    var c, s := w.HandleBookingSubmit();
    assert c == Error(PaymentMessage) && w.activeStep == 4 && !s;
    w.HandlePaymentMethodSelect("credit");
    c, s := w.HandleBookingSubmit();
    assert c == Success(ConfirmedMessage) && w.activeStep == 5 && s;
  }

  /** Catering on venue "1" comes to 9300, with a deposit of 2325. */
  method CateringTotalWalkthrough(w: Wizard)
    requires w.Valid() && w.catalog == MockCatalog && w.selectedVenueId == Some("1") && w.selectedServices == []
    modifies w
  {
    w.HandleServiceToggle("catering");
    assert w.selectedServices == ["catering"];
    RentalWithCateringTotal();
    var total := w.CalculateTotal();
    assert total == 9300 && Deposit(total) == 2325;
  }
}
