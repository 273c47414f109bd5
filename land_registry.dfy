/**
 * The deployed LandRegistry contract: its storage lives in fields that the
 * transaction methods update in place.  Each method is proved to perform
 * exactly the step the `Registry` module specifies and to keep the
 * registry invariant.
 */
module LandRegistryContract {
  import opened Wrappers
  import opened Registry
  import RegistryInvariants

  class LandRegistry {
    /** The deployer, the only caller allowed to list every record. */
    const admin: Identity
    /** `lands`: id to record. */
    var lands: map<nat, Land>
    var landCount: nat
    /** The parcel keys already registered. */
    var registeredKeys: set<ParcelKey>
    /** Per identity, the ids it owns in acquisition order. */
    var ownedLands: map<Identity, seq<nat>>

    /** The storage as a value. */
    function Storage(): State
      reads this
    {
      State(admin, lands, landCount, registeredKeys, ownedLands)
    }

    ghost predicate Valid()
      reads this
    {
      Registry.Valid(Storage())
    }

    constructor (admin: Identity)
      ensures Storage() == Init(admin)
      ensures Valid()
    {
      this.admin := admin;
      lands := map[];
      landCount := 0;
      registeredKeys := {};
      ownedLands := map[];
      new;
      RegistryInvariants.InitIsValid(admin);
    }

    method RegisterLand(
      plotNumber: string, area: string, district: string, city: string, state: string,
      areaSqYd: nat, caller: Identity, now: Time
    ) returns (r: Result<nat, RegistryError>)
      requires Valid() && caller != ZeroAddress
      modifies this
      ensures Valid()
      ensures Step(r, Storage()) ==
        Registry.RegisterLand(old(Storage()), plotNumber, area, district, city, state, areaSqYd, caller, now)
    {
      ghost var before := Storage();
      var invalid := RegistrationError(plotNumber, area, district, city, state, areaSqYd);
      if invalid.Some? {
        return Err(invalid.value);
      }
      var key := ParcelKey(plotNumber, area, district, city, state);
      if key in registeredKeys {
        return Err(AlreadyRegistered);
      }
      landCount := landCount + 1;
      var id := landCount;
      lands := lands[id := Land(id, plotNumber, area, district, city, state, areaSqYd,
                                caller, false, ZeroAddress, [OwnershipRecord(caller, now)])];
      registeredKeys := registeredKeys + {key};
      var mine := if caller in ownedLands then ownedLands[caller] else [];
      ownedLands := ownedLands[caller := mine + [id]];
      r := Ok(id);
      RegistryInvariants.RegisterLandKeepsValid(
        before, plotNumber, area, district, city, state, areaSqYd, caller, now);
    }

    method PutLandForSale(id: nat, caller: Identity) returns (r: Result<(), RegistryError>)
      requires Valid()
      modifies this
      ensures Valid()
      ensures Step(r, Storage()) == Registry.PutLandForSale(old(Storage()), id, caller)
    {
      RegistryInvariants.PutLandForSaleKeepsValid(Storage(), id, caller);
      if id !in lands {
        return Err(NotFound);
      }
      var land := lands[id];
      if caller != land.owner {
        return Err(NotOwner);
      }
      if land.isForSale {
        return Err(AlreadyListed);
      }
      lands := lands[id := land.(isForSale := true)];
      r := Ok(());
    }

    method RequestTransfer(id: nat, caller: Identity) returns (r: Result<(), RegistryError>)
      requires Valid()
      modifies this
      ensures Valid()
      ensures Step(r, Storage()) == Registry.RequestTransfer(old(Storage()), id, caller)
    {
      RegistryInvariants.RequestTransferKeepsValid(Storage(), id, caller);
      if id !in lands {
        return Err(NotFound);
      }
      var land := lands[id];
      if !land.isForSale {
        return Err(NotForSale);
      }
      if caller == land.owner {
        return Err(SelfTransfer);
      }
      lands := lands[id := land.(transferRequest := caller)];
      r := Ok(());
    }

    method ApproveTransfer(id: nat, caller: Identity, now: Time) returns (r: Result<(), RegistryError>)
      requires Valid()
      modifies this
      ensures Valid()
      ensures Step(r, Storage()) == Registry.ApproveTransfer(old(Storage()), id, caller, now)
    {
      RegistryInvariants.ApproveTransferKeepsValid(Storage(), id, caller, now);
      if id !in lands {
        return Err(NotFound);
      }
      var land := lands[id];
      if caller != land.owner {
        return Err(NotOwner);
      }
      var buyer := land.transferRequest;
      if buyer == ZeroAddress {
        return Err(NoRequest);
      }
      lands := lands[id := land.(owner := buyer, isForSale := false, transferRequest := ZeroAddress,
                                 history := land.history + [OwnershipRecord(buyer, now)])];
      var sellers := if land.owner in ownedLands then ownedLands[land.owner] else [];
      ownedLands := ownedLands[land.owner := Remove(sellers, id)];
      var buyers := if buyer in ownedLands then ownedLands[buyer] else [];
      ownedLands := ownedLands[buyer := buyers + [id]];
      r := Ok(());
    }

    method DenyTransfer(id: nat, caller: Identity) returns (r: Result<(), RegistryError>)
      requires Valid()
      modifies this
      ensures Valid()
      ensures Step(r, Storage()) == Registry.DenyTransfer(old(Storage()), id, caller)
    {
      RegistryInvariants.DenyTransferKeepsValid(Storage(), id, caller);
      if id !in lands {
        return Err(NotFound);
      }
      var land := lands[id];
      if caller != land.owner {
        return Err(NotOwner);
      }
      if land.transferRequest == ZeroAddress {
        return Err(NoRequest);
      }
      lands := lands[id := land.(transferRequest := ZeroAddress)];
      r := Ok(());
    }
  }
}
