/**
 * The behaviours the contract tests exercise, stated for all inputs rather
 * than for the tests' particular parcel, and two of them replayed against
 * the contract class the way the tests drive it.
 */
module RegistryScenarios {
  import opened Wrappers
  import opened Registry
  import RegistryInvariants
  import LandRegistryContract

  /** Registering on a fresh registry creates record 1 holding exactly the submitted data. */
  lemma RegisterOnFreshRegistry(
    admin: Identity, plotNumber: string, area: string, district: string, city: string, state: string,
    areaSqYd: nat, owner: Identity, now: Time)
    requires plotNumber != "" && area != "" && district != "" && city != "" && state != ""
    requires areaSqYd > 0 && owner != ZeroAddress
    ensures var r := RegisterLand(Init(admin), plotNumber, area, district, city, state, areaSqYd, owner, now);
      && r.result == Ok(1)
      && r.next.landCount == 1
      && Valid(r.next)
      && LandAt(r.next, 1) == Land(1, plotNumber, area, district, city, state, areaSqYd,
                                   owner, false, ZeroAddress, [OwnershipRecord(owner, now)])
      && VerifyLand(r.next, 1) == Verification(plotNumber, area, district, city, state, areaSqYd, owner)
      && GetLandsByOwner(r.next, owner) == [1]
      && GetPropertyHistory(r.next, 1) == Ok([OwnershipRecord(owner, now)])
  {
    RegistryInvariants.InitIsValid(admin);
    RegistryInvariants.RegisterLandKeepsValid(
      Init(admin), plotNumber, area, district, city, state, areaSqYd, owner, now);
  }

  /**
   * Once a parcel is registered, registering the same five texts again fails
   * with AlreadyRegistered whatever the size and the caller, and adds nothing.
   */
  lemma DuplicateParcelRejected(
    s: State, plotNumber: string, area: string, district: string, city: string, state: string,
    areaSqYd: nat, caller: Identity, now: Time,
    areaSqYd2: nat, caller2: Identity, now2: Time)
    requires RegisterLand(s, plotNumber, area, district, city, state, areaSqYd, caller, now).result.Ok?
    ensures
      var s1 := RegisterLand(s, plotNumber, area, district, city, state, areaSqYd, caller, now).next;
      var r2 := RegisterLand(s1, plotNumber, area, district, city, state, areaSqYd2, caller2, now2);
      (areaSqYd2 > 0 ==> r2.result == Err(AlreadyRegistered))
      && r2.result.Err?
      && r2.next == s1
  {
  }

  /**
   * An empty plot number is refused, with the empty-plot revert reason,
   * whatever the other inputs, and nothing is stored.
   */
  lemma EmptyPlotRejected(
    s: State, area: string, district: string, city: string, state: string,
    areaSqYd: nat, caller: Identity, now: Time)
    ensures var r := RegisterLand(s, "", area, district, city, state, areaSqYd, caller, now);
      && r.result == Err(EmptyField(PlotNumberField))
      && RevertReason(r.result.error) == "Plot number cannot be empty"
      && r.next == s
  {
  }

  /**
   * The full sale: the owner lists, another account requests, the owner
   * approves.  The requester becomes the owner, the land leaves the market,
   * the request is consumed, the history gains the buyer, and the owner
   * lists move the id from seller to buyer.
   */
  lemma ListRequestApprove(s: State, id: nat, seller: Identity, buyer: Identity, now: Time)
    requires Valid(s) && id in s.lands && s.lands[id].owner == seller && !s.lands[id].isForSale
    requires buyer != seller && buyer != ZeroAddress
    ensures
      var r1 := PutLandForSale(s, id, seller);
      var r2 := RequestTransfer(r1.next, id, buyer);
      var r3 := ApproveTransfer(r2.next, id, seller, now);
      && r1.result.Ok? && LandAt(r1.next, id).isForSale
      && r2.result.Ok? && LandAt(r2.next, id).transferRequest == buyer
      && r3.result.Ok?
      && LandAt(r3.next, id).owner == buyer
      && !LandAt(r3.next, id).isForSale
      && LandAt(r3.next, id).transferRequest == ZeroAddress
      && LandAt(r3.next, id).history == s.lands[id].history + [OwnershipRecord(buyer, now)]
      && id in GetLandsByOwner(r3.next, buyer)
      && id !in GetLandsByOwner(r3.next, seller)
  {
    var r1 := PutLandForSale(s, id, seller);
    RegistryInvariants.PutLandForSaleKeepsValid(s, id, seller);
    var r2 := RequestTransfer(r1.next, id, buyer);
    RegistryInvariants.RequestTransferKeepsValid(r1.next, id, buyer);
    RegistryInvariants.ApproveTransferKeepsValid(r2.next, id, seller, now);
  }

  /**
   * Denial: the request is cleared, owner and history stay, the land stays
   * listed, a later approval finds no request, and a new request is accepted.
   */
  lemma ListRequestDeny(s: State, id: nat, seller: Identity, buyer: Identity, now: Time)
    requires Valid(s) && id in s.lands && s.lands[id].owner == seller && !s.lands[id].isForSale
    requires buyer != seller && buyer != ZeroAddress
    ensures
      var r1 := PutLandForSale(s, id, seller);
      var r2 := RequestTransfer(r1.next, id, buyer);
      var r3 := DenyTransfer(r2.next, id, seller);
      && r3.result.Ok?
      && LandAt(r3.next, id).transferRequest == ZeroAddress
      && LandAt(r3.next, id).owner == seller
      && LandAt(r3.next, id).history == s.lands[id].history
      && LandAt(r3.next, id).isForSale
      && ApproveTransfer(r3.next, id, seller, now).result == Err(NoRequest)
      && RequestTransfer(r3.next, id, buyer).result.Ok?
  {
  }

  /** Test "should approve transfer", replayed against the contract class. */
  method ApproveFlow(owner: Identity, buyer: Identity, now: Time)
    returns (finalOwner: Identity, forSale: bool, historyLength: nat)
    requires owner != ZeroAddress && buyer != ZeroAddress && owner != buyer
    ensures finalOwner == buyer && !forSale && historyLength == 2
  {
    var registry := new LandRegistryContract.LandRegistry(owner);
    var id := registry.RegisterLand("PLT-001", "Andheri", "Mumbai", "Mumbai", "Maharashtra", 500, owner, now);
    assert id == Ok(1);
    var listed := registry.PutLandForSale(1, owner);
    var requested := registry.RequestTransfer(1, buyer);
    var approved := registry.ApproveTransfer(1, owner, now);
    assert approved.Ok?;
    var land := registry.lands[1];
    finalOwner, forSale, historyLength := land.owner, land.isForSale, |land.history|;
  }

  /** Test "should deny transfer", replayed against the contract class. */
  method DenyFlow(owner: Identity, buyer: Identity, now: Time)
    returns (finalOwner: Identity, request: Identity)
    requires owner != ZeroAddress && buyer != ZeroAddress && owner != buyer
    ensures finalOwner == owner && request == ZeroAddress
  {
    var registry := new LandRegistryContract.LandRegistry(owner);
    var id := registry.RegisterLand("PLT-001", "Andheri", "Mumbai", "Mumbai", "Maharashtra", 500, owner, now);
    var listed := registry.PutLandForSale(1, owner);
    var requested := registry.RequestTransfer(1, buyer);
    var denied := registry.DenyTransfer(1, owner);
    assert denied.Ok?;
    var land := registry.lands[1];
    finalOwner, request := land.owner, land.transferRequest;
  }
}
