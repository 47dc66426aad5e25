/** The quotation request form on the public site: a set of chosen services
    toggled on and off, the contact fields, the Kenya / international
    pricing switch, and the simulated submission. */
module Quotations {
  import opened Util

  datatype QuoteFields = QuoteFields(
    name: string,
    email: string,
    organization: string,
    phone: string,
    projectDescription: string,
    timeline: string)

  const BlankFields: QuoteFields := QuoteFields("", "", "", "", "", "")

  /** What a submission hands on: the fields, the services and the region. */
  datatype QuotationData = QuotationData(fields: QuoteFields, services: seq<string>, isKenya: bool)

  /** `handleServiceToggle(id)`'s new selection: every copy of a chosen
      service is dropped, an unchosen one is appended. */
  function ToggleService(selected: seq<string>, serviceId: string): (r: seq<string>)
    ensures serviceId in selected ==> serviceId !in r && |r| < |selected|
    ensures serviceId in selected ==> IsSubsequence(r, selected)
    ensures serviceId !in selected ==> r == selected + [serviceId]
    ensures forall i :: 0 <= i < |selected| && selected[i] != serviceId ==> selected[i] in r
    ensures forall i :: 0 <= i < |r| ==> r[i] in selected || r[i] == serviceId
    ensures forall i :: 0 <= i < |selected| && selected[i] != serviceId ==>
      multiset(r)[selected[i]] == multiset(selected)[selected[i]]
  {
    if serviceId in selected then
      FilterShorter(selected, Differs(serviceId));
      RemoveValue(selected, serviceId)
    else selected + [serviceId]
  }

  /** Choosing a service and then un-choosing it gives the selection back. */
  lemma ToggleAbsentTwice(selected: seq<string>, serviceId: string)
    requires serviceId !in selected
    ensures ToggleService(ToggleService(selected, serviceId), serviceId) == selected
  {
    FilterAppend(selected, [serviceId], Differs(serviceId));
    FilterAll(selected, Differs(serviceId));
    assert Filter([serviceId], Differs(serviceId)) == [];
  }

  lemma ToggleKeepsNoDuplicates(selected: seq<string>, serviceId: string)
    requires NoDuplicates(selected)
    ensures NoDuplicates(ToggleService(selected, serviceId))
  {
    if serviceId in selected {
      FilterNoDuplicates(selected, Differs(serviceId));
    } else {
      SnocNoDuplicates(selected, serviceId);
    }
  }

  /** The selection after a series of clicks. */
  function ToggleAll(selected: seq<string>, clicks: seq<string>): seq<string>
    decreases |clicks|
  {
    if clicks == [] then selected else ToggleAll(ToggleService(selected, clicks[0]), clicks[1..])
  }

  /** Starting from the empty selection, no series of clicks ever chooses a
      service twice. */
  lemma {:induction false} ClicksKeepNoDuplicates(selected: seq<string>, clicks: seq<string>)
    requires NoDuplicates(selected)
    ensures NoDuplicates(ToggleAll(selected, clicks))
    decreases |clicks|
  {
    if clicks != [] {
      ToggleKeepsNoDuplicates(selected, clicks[0]);
      ClicksKeepNoDuplicates(ToggleService(selected, clicks[0]), clicks[1..]);
    }
  }

  /** `disabled={isSubmitting || selectedServices.length === 0}`. */
  predicate SubmitDisabled(isSubmitting: bool, selected: seq<string>) {
    isSubmitting || |selected| == 0
  }

  /** Choosing a service that was not chosen enables the button unless a
      submission is under way; un-choosing the only one disables it. */
  lemma ToggleAndSubmitGate(selected: seq<string>, serviceId: string)
    ensures serviceId !in selected ==> !SubmitDisabled(false, ToggleService(selected, serviceId))
    ensures selected == [serviceId] ==> SubmitDisabled(false, ToggleService(selected, serviceId))
  {
  }

  /** The fields after `handleChange({ name, value })` for a field name. */
  function Changed(f: QuoteFields, name: string, value: string): (r: QuoteFields)
    ensures name == "name" ==> r == f.(name := value)
    ensures name == "email" ==> r == f.(email := value)
    ensures name == "organization" ==> r == f.(organization := value)
    ensures name == "phone" ==> r == f.(phone := value)
    ensures name == "projectDescription" ==> r == f.(projectDescription := value)
    ensures name == "timeline" ==> r == f.(timeline := value)
    ensures name !in {"name", "email", "organization", "phone", "projectDescription", "timeline"} ==> r == f
  {
    if name == "name" then f.(name := value)
    else if name == "email" then f.(email := value)
    else if name == "organization" then f.(organization := value)
    else if name == "phone" then f.(phone := value)
    else if name == "projectDescription" then f.(projectDescription := value)
    else if name == "timeline" then f.(timeline := value)
    else f
  }

  class QuotationForm {
    var isSubmitting: bool
    var selectedServices: seq<string>
    var isKenya: bool
    var locationDetected: bool
    var manualLocationOverride: bool
    var formData: QuoteFields

    /** The selection never holds a service twice. */
    ghost predicate Valid()
      reads this
    {
      NoDuplicates(selectedServices)
    }

    function SubmitButtonDisabled(): bool
      reads this
    {
      SubmitDisabled(isSubmitting, selectedServices)
    }

    constructor()
      ensures Valid()
      ensures !isSubmitting && selectedServices == [] && !isKenya && !locationDetected
      ensures !manualLocationOverride && formData == BlankFields
    {
      isSubmitting := false;
      selectedServices := [];
      isKenya := false;
      locationDetected := false;
      manualLocationOverride := false;
      formData := BlankFields;
    }

    method HandleServiceToggle(serviceId: string)
      requires Valid()
      modifies this
      ensures Valid()
      ensures selectedServices == ToggleService(old(selectedServices), serviceId)
      ensures isSubmitting == old(isSubmitting) && isKenya == old(isKenya) && formData == old(formData)
      ensures locationDetected == old(locationDetected) && manualLocationOverride == old(manualLocationOverride)
    {
      ToggleKeepsNoDuplicates(selectedServices, serviceId);
      if serviceId in selectedServices {
        selectedServices := RemoveValue(selectedServices, serviceId);
      } else {
        selectedServices := selectedServices + [serviceId];
      }
    }

    method HandleChange(name: string, value: string)
      modifies this
      ensures formData == Changed(old(formData), name, value)
      ensures isSubmitting == old(isSubmitting) && selectedServices == old(selectedServices)
      ensures isKenya == old(isKenya) && locationDetected == old(locationDetected)
      ensures manualLocationOverride == old(manualLocationOverride)
    {
      formData := Changed(formData, name, value);
    }

    /** The region switch: flips the pricing and records a manual choice. */
    method ToggleLocation()
      modifies this
      ensures isKenya == !old(isKenya) && manualLocationOverride
      ensures isSubmitting == old(isSubmitting) && selectedServices == old(selectedServices)
      ensures formData == old(formData) && locationDetected == old(locationDetected)
    {
      isKenya := !isKenya;
      manualLocationOverride := true;
    }

    /** The geolocation lookup finishing: `countryCode` is what it reported,
        `None` when it failed. A manual choice made earlier is overwritten. */
    method LocationDetected(countryCode: Option<string>)
      modifies this
      ensures isKenya == (countryCode == Some("KE")) && locationDetected
      ensures isSubmitting == old(isSubmitting) && selectedServices == old(selectedServices)
      ensures formData == old(formData) && manualLocationOverride == old(manualLocationOverride)
    {
      isKenya := countryCode == Some("KE");
      locationDetected := true;
    }

    /** `handleSubmit`: the request data is assembled and the form waits. */
    method HandleSubmit() returns (data: QuotationData)
      modifies this
      ensures data == QuotationData(old(formData), old(selectedServices), old(isKenya))
      ensures isSubmitting && SubmitButtonDisabled()
      ensures selectedServices == old(selectedServices) && formData == old(formData)
      ensures isKenya == old(isKenya) && locationDetected == old(locationDetected)
      ensures manualLocationOverride == old(manualLocationOverride)
    {
      isSubmitting := true;
      data := QuotationData(formData, selectedServices, isKenya);
    }

    /** The simulated request completing: every field and the selection are
        cleared, so the button is disabled until a service is chosen again. */
    method CompleteSubmission()
      modifies this
      ensures Valid()
      ensures formData == BlankFields && selectedServices == [] && !isSubmitting
      ensures SubmitButtonDisabled()
      ensures isKenya == old(isKenya) && locationDetected == old(locationDetected)
      ensures manualLocationOverride == old(manualLocationOverride)
    {
      formData := BlankFields;
      selectedServices := [];
      isSubmitting := false;
    }
  }
}
