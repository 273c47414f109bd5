/**
 * The rules of the Manage Land page: the registration form check, the
 * translation of a failed transaction into a message, the reading of a
 * `verifyLand` answer, and the scan that collects the lands for sale.
 */
module ManageLandPage {
  import opened Wrappers
  import opened JsStrings
  import opened Registry
  import opened LandViews

  // ---------------------------------------------------------------------
  // Registration form
  // ---------------------------------------------------------------------

  datatype FormField = PlotNumberInput | AreaInput | DistrictInput | CityInput | StateInput | AreaSqYdInput

  /**
   * The form's state.  The size comes from a number input, which yields
   * either the empty string (`None`) or a numeric string (its value).
   */
  datatype RegistrationForm = RegistrationForm(
    plotNumber: string, area: string, district: string, city: string, state: string,
    areaSqYd: Option<real>)

  /** The messages shown under an offending field. */
  const RequiredMessage := "Required"
  const NotPositiveMessage := "Must be > 0"

  /** Every text is non-blank once trimmed and the size is present and positive. */
  predicate FormIsComplete(form: RegistrationForm) {
    && !IsBlank(form.plotNumber) && !IsBlank(form.area) && !IsBlank(form.district)
    && !IsBlank(form.city) && !IsBlank(form.state)
    && form.areaSqYd.Some? && form.areaSqYd.value > 0.0
  }

  /**
   * `validateForm`: collects one error per offending field, under that
   * field's own key, and accepts the form when none was collected.
   */
  method ValidateForm(form: RegistrationForm) returns (errors: map<FormField, string>, ok: bool)
    ensures ok <==> FormIsComplete(form)
    ensures PlotNumberInput in errors <==> IsBlank(form.plotNumber)
    ensures AreaInput in errors <==> IsBlank(form.area)
    ensures DistrictInput in errors <==> IsBlank(form.district)
    ensures CityInput in errors <==> IsBlank(form.city)
    ensures StateInput in errors <==> IsBlank(form.state)
    ensures AreaSqYdInput in errors <==> form.areaSqYd.None? || form.areaSqYd.value <= 0.0
    ensures PlotNumberInput in errors ==> errors[PlotNumberInput] == RequiredMessage
    ensures AreaInput in errors ==> errors[AreaInput] == RequiredMessage
    ensures DistrictInput in errors ==> errors[DistrictInput] == RequiredMessage
    ensures CityInput in errors ==> errors[CityInput] == RequiredMessage
    ensures StateInput in errors ==> errors[StateInput] == RequiredMessage
    ensures AreaSqYdInput in errors ==> errors[AreaSqYdInput] == NotPositiveMessage
  {
    var plotBlank, areaBlank, districtBlank := IsBlank(form.plotNumber), IsBlank(form.area), IsBlank(form.district);
    var cityBlank, stateBlank := IsBlank(form.city), IsBlank(form.state);
    var sizeBad := form.areaSqYd.None? || form.areaSqYd.value <= 0.0;
    errors := map[];
    errors := if plotBlank then errors[PlotNumberInput := RequiredMessage] else errors;
    errors := if areaBlank then errors[AreaInput := RequiredMessage] else errors;
    errors := if districtBlank then errors[DistrictInput := RequiredMessage] else errors;
    errors := if cityBlank then errors[CityInput := RequiredMessage] else errors;
    errors := if stateBlank then errors[StateInput := RequiredMessage] else errors;
    errors := if sizeBad then errors[AreaSqYdInput := NotPositiveMessage] else errors;
    ok := errors == map[];
    assert FormIsComplete(form) <==> !(plotBlank || areaBlank || districtBlank || cityBlank || stateBlank || sizeBad);
    if plotBlank { assert PlotNumberInput in errors; }
    if areaBlank { assert AreaInput in errors; }
    if districtBlank { assert DistrictInput in errors; }
    if cityBlank { assert CityInput in errors; }
    if stateBlank { assert StateInput in errors; }
    if sizeBad { assert AreaSqYdInput in errors; }
  }

  /**
   * A form the page accepts, submitted with the size it carries, passes
   * every input check of `registerLand`.
   */
  lemma CompleteFormPassesTextChecks(form: RegistrationForm, areaSqYd: nat)
    requires FormIsComplete(form) && form.areaSqYd == Some(areaSqYd as real)
    ensures RegistrationError(form.plotNumber, form.area, form.district, form.city, form.state, areaSqYd) == None
  {
  }

  // ---------------------------------------------------------------------
  // Transaction errors
  // ---------------------------------------------------------------------

  /** The fields of a failed transaction's error object that the page reads. */
  datatype TxError = TxError(message: Option<string>, reason: Option<string>)

  /** JavaScript truthiness of an optional string. */
  predicate Truthy(o: Option<string>) {
    o.Some? && o.value != ""
  }

  /** `error.message && error.message.includes(sub)` */
  predicate MessageMentions(e: TxError, sub: string) {
    Truthy(e.message) && Includes(e.message.value, sub)
  }

  /**
   * `extractErrorMessage`: a wallet rejection wins over everything, then a
   * duplicate registration; anything else is reported with the first
   * non-empty of the reason and the message.
   */
  function ExtractErrorMessage(e: TxError): (m: string)
    ensures MessageMentions(e, "User denied") ==> m == "Transaction rejected by user."
    ensures !MessageMentions(e, "User denied") && MessageMentions(e, "already registered")
      ==> m == "This land is already registered."
    ensures !MessageMentions(e, "User denied") && !MessageMentions(e, "already registered") ==>
      m == "Transaction failed: " +
        (if Truthy(e.reason) then e.reason.value
         else if Truthy(e.message) then e.message.value
         else "Unknown error")
  {
    if MessageMentions(e, "User denied") then "Transaction rejected by user."
    else if MessageMentions(e, "already registered") then "This land is already registered."
    else
      var detail :=
        if Truthy(e.reason) then e.reason.value
        else if Truthy(e.message) then e.message.value
        else "Unknown error";
      "Transaction failed: " + detail
  }

  /**
   * A message that carries the contract's duplicate-registration revert
   * reason is shown as "already registered", unless the wallet rejected.
   */
  lemma DuplicateRevertIsRecognised(e: TxError)
    requires e.message.Some?
    requires Includes(e.message.value, RevertReason(AlreadyRegistered))
    requires !Includes(e.message.value, "User denied")
    ensures ExtractErrorMessage(e) == "This land is already registered."
  {
    var reason := RevertReason(AlreadyRegistered);
    assert OccursAt(reason, "already registered", 5);
    IncludesIffOccurs(reason, "already registered");
    IncludesTransitive(e.message.value, reason, "already registered");
    IncludesIffOccurs(e.message.value, "already registered");
  }

  // ---------------------------------------------------------------------
  // Verify panel
  // ---------------------------------------------------------------------

  /** The zero-owner check on a `verifyLand` answer: not found, or all seven values shown. */
  function VerificationOutcome(v: Verification): (r: Result<Verification, string>)
    ensures r.Err? <==> v.owner == ZeroAddress
    ensures r.Err? ==> r.error == "No land found with this ID."
    ensures r.Ok? ==> r.value == v
  {
    if v.owner == ZeroAddress then Err("No land found with this ID.") else Ok(v)
  }

  /**
   * `verifyLand` on the page: an empty id field (or no contract) is
   * refused, an id the chain cannot read fails, otherwise the answer is
   * read through the zero-owner check.
   */
  function VerifyPanel(contractLoaded: bool, idInput: string, s: State): (r: Result<Verification, string>)
    ensures !contractLoaded || idInput == "" ==> r == Err("Please enter a valid Land ID")
    ensures contractLoaded && idInput != "" && ParseUint(idInput).None?
      ==> r == Err("Failed to verify. Please check the Land ID.")
    ensures Valid(s) && contractLoaded && idInput != "" ==>
      (r.Ok? <==> ParseUint(idInput).Some? && ParseUint(idInput).value in s.lands)
    ensures Valid(s) && contractLoaded && ParseUint(idInput).Some? && ParseUint(idInput).value !in s.lands
      ==> r == Err("No land found with this ID.")
    ensures Valid(s) && contractLoaded && ParseUint(idInput).Some? && ParseUint(idInput).value in s.lands
      ==> var l := s.lands[ParseUint(idInput).value];
        r == Ok(Verification(l.plotNumber, l.area, l.district, l.city, l.state, l.areaSqYd, l.owner))
  {
    if !contractLoaded || idInput == "" then Err("Please enter a valid Land ID")
    else match ParseUint(idInput)
      case None => Err("Failed to verify. Please check the Land ID.")
      case Some(id) => VerificationOutcome(VerifyLand(s, id))
  }

  /** Typing the id of a registered land shows exactly that record's values and owner. */
  lemma VerifyPanelShowsRegisteredLand(s: State, id: nat)
    requires Valid(s) && id in s.lands
    ensures
      var l := s.lands[id];
      VerifyPanel(true, NatToDecimal(id), s)
        == Ok(Verification(l.plotNumber, l.area, l.district, l.city, l.state, l.areaSqYd, l.owner))
  {
    ParseNatToDecimal(id);
  }

  /** Typing an id no land was registered under shows the not-found message. */
  lemma VerifyPanelShowsUnknownId(s: State, id: nat)
    requires Valid(s) && id !in s.lands
    ensures VerifyPanel(true, NatToDecimal(id), s) == Err("No land found with this ID.")
  {
    ParseNatToDecimal(id);
  }

  // ---------------------------------------------------------------------
  // Lands for sale
  // ---------------------------------------------------------------------

  /**
   * `fetchLandsForSale`: reads every id from 1 to `landCount` and keeps
   * those for sale.  The result lists exactly the for-sale ids of that
   * range, in ascending order, each with its record's data.
   */
  method FetchLandsForSale(s: State) returns (listed: seq<LandView>)
    ensures forall k :: 0 <= k < |listed| ==>
      1 <= listed[k].id <= s.landCount
      && LandAt(s, listed[k].id).isForSale
      && listed[k] == ViewOf(listed[k].id, LandAt(s, listed[k].id))
    ensures forall k, m :: 0 <= k < m < |listed| ==> listed[k].id < listed[m].id
    ensures forall id :: 1 <= id <= s.landCount && LandAt(s, id).isForSale ==>
      exists k :: 0 <= k < |listed| && listed[k].id == id
  {
    listed := [];
    var i := 1;
    while i <= s.landCount
      invariant 1 <= i <= s.landCount + 1
      invariant forall k :: 0 <= k < |listed| ==>
        1 <= listed[k].id < i
        && LandAt(s, listed[k].id).isForSale
        && listed[k] == ViewOf(listed[k].id, LandAt(s, listed[k].id))
      invariant forall k, m :: 0 <= k < m < |listed| ==> listed[k].id < listed[m].id
      invariant forall id :: 1 <= id < i && LandAt(s, id).isForSale ==>
        exists k :: 0 <= k < |listed| && listed[k].id == id
    {
      var land := LandAt(s, i);
      if land.isForSale {
        ghost var before := listed;
        listed := listed + [ViewOf(i, land)];
        assert forall k :: 0 <= k < |before| ==> listed[k] == before[k];
        assert listed[|listed| - 1].id == i;
      }
      i := i + 1;
    }
  }

  /** On a valid registry every land with a pending request is among those for sale. */
  lemma PendingRequestMeansForSale(s: State, id: nat)
    requires Valid(s) && id in s.lands && s.lands[id].transferRequest != ZeroAddress
    ensures 1 <= id <= s.landCount && LandAt(s, id).isForSale
  {
  }
}
