/**
 * The LandRegistry contract as a deterministic state machine over a value.
 *
 * A registry holds land records under dense ids 1..landCount, the set of
 * parcel keys already registered, and for every identity the ordered list
 * of ids it owns.  Each mutating operation returns a `Step`: its result and
 * the next state; a failing operation leaves the state unchanged.  The
 * transaction sender (`caller`) and the block time (`now`) are explicit
 * parameters.
 */
module Registry {
  import opened Wrappers

  /** An account address, rendered as the hex string the client sees. */
  type Identity = string

  /** The zero address: "no owner" and "no pending request". */
  const ZeroAddress: Identity := "0x0000000000000000000000000000000000000000"

  /** A block timestamp, taken as an opaque input. */
  type Time = nat

  /** What identifies a physical parcel; the contract indexes a hash of these five texts. */
  datatype ParcelKey = ParcelKey(plotNumber: string, area: string, district: string, city: string, state: string)

  /** One entry of a land's ownership history. */
  datatype OwnershipRecord = OwnershipRecord(owner: Identity, timestamp: Time)

  /** A land record. `transferRequest == ZeroAddress` means no request is pending. */
  datatype Land = Land(
    id: nat,
    plotNumber: string, area: string, district: string, city: string, state: string,
    areaSqYd: nat,
    owner: Identity,
    isForSale: bool,
    transferRequest: Identity,
    history: seq<OwnershipRecord>)

  function KeyOf(l: Land): ParcelKey {
    ParcelKey(l.plotNumber, l.area, l.district, l.city, l.state)
  }

  /** The value the public `lands` getter yields for an id that was never registered. */
  const EmptyLand: Land := Land(0, "", "", "", "", "", 0, ZeroAddress, false, ZeroAddress, [])

  datatype TextField = PlotNumberField | AreaField | DistrictField | CityField | StateField

  datatype RegistryError =
    | EmptyField(field: TextField)
    | ZeroAreaSqYd
    | AlreadyRegistered
    | NotFound
    | NotOwner
    | AlreadyListed
    | NotForSale
    | SelfTransfer
    | NoRequest
    | NotAdmin

  /** The revert reason string carried by each error. */
  function RevertReason(e: RegistryError): (r: string)
    ensures e == EmptyField(PlotNumberField) ==> r == "Plot number cannot be empty"
    ensures e == AlreadyRegistered ==> |r| >= 5 && r[5..] == "already registered"
    ensures r != ""
  {
    match e
    case EmptyField(PlotNumberField) => "Plot number cannot be empty"
    case EmptyField(AreaField) => "Area cannot be empty"
    case EmptyField(DistrictField) => "District cannot be empty"
    case EmptyField(CityField) => "City cannot be empty"
    case EmptyField(StateField) => "State cannot be empty"
    case ZeroAreaSqYd => "Area in square yards must be greater than zero"
    case AlreadyRegistered => "Land already registered"
    case NotFound => "Land does not exist"
    case NotOwner => "Only the owner can perform this action"
    case AlreadyListed => "Land is already for sale"
    case NotForSale => "Land is not for sale"
    case SelfTransfer => "Owner cannot request own land"
    case NoRequest => "No pending transfer request"
    case NotAdmin => "Only admin can view all lands"
  }

  /** The whole contract storage. `admin` is fixed at deployment. */
  datatype State = State(
    admin: Identity,
    lands: map<nat, Land>,
    landCount: nat,
    registeredKeys: set<ParcelKey>,
    ownedLands: map<Identity, seq<nat>>)

  /** The result of a mutating call together with the storage after it. */
  datatype Step<T> = Step(result: Result<T, RegistryError>, next: State)

  /** The storage right after deployment by `admin`. */
  function Init(admin: Identity): State {
    State(admin, map[], 0, {}, map[])
  }

  // ---------------------------------------------------------------------
  // Invariant
  // ---------------------------------------------------------------------

  predicate NoDuplicates(xs: seq<nat>) {
    forall i, j :: 0 <= i < j < |xs| ==> xs[i] != xs[j]
  }

  /** What every stored record satisfies. */
  ghost predicate WellFormed(l: Land) {
    && l.plotNumber != "" && l.area != "" && l.district != ""
    && l.city != "" && l.state != ""
    && l.areaSqYd > 0
    && l.owner != ZeroAddress
    && |l.history| >= 1
    && l.history[|l.history| - 1].owner == l.owner
    && (l.transferRequest != ZeroAddress ==> l.isForSale && l.transferRequest != l.owner)
  }

  ghost function KeysOf(lands: map<nat, Land>): set<ParcelKey> {
    set id | id in lands :: KeyOf(lands[id])
  }

  /** The ids `who` owns, in the order it acquired them. */
  function OwnedBy(s: State, who: Identity): seq<nat> {
    if who in s.ownedLands then s.ownedLands[who] else []
  }

  /**
   * The registry invariant: ids are dense 1..landCount, each record is well
   * formed and knows its id, one record per parcel key and the key index is
   * exactly the keys of the records, and the per-owner lists list exactly
   * the records each identity owns, once each.
   */
  ghost predicate Valid(s: State) {
    && (forall id :: id in s.lands <==> 1 <= id <= s.landCount)
    && (forall id :: id in s.lands ==> s.lands[id].id == id && WellFormed(s.lands[id]))
    && (forall i, j :: i in s.lands && j in s.lands && KeyOf(s.lands[i]) == KeyOf(s.lands[j]) ==> i == j)
    && s.registeredKeys == KeysOf(s.lands)
    && (forall who, id :: id in OwnedBy(s, who) <==> id in s.lands && s.lands[id].owner == who)
    && (forall who :: NoDuplicates(OwnedBy(s, who)))
  }

  /** Every registered record of a valid registry is well formed: texts, size, owner, history and request. */
  lemma RegisteredLandIsWellFormed(s: State, id: nat)
    requires Valid(s) && id in s.lands
    ensures var l := LandAt(s, id);
      && l == s.lands[id] && l.id == id
      && l.plotNumber != "" && l.area != "" && l.district != "" && l.city != "" && l.state != ""
      && l.areaSqYd > 0 && l.owner != ZeroAddress
      && |l.history| >= 1 && l.history[|l.history| - 1].owner == l.owner
      && (l.transferRequest != ZeroAddress ==> l.isForSale && l.transferRequest != l.owner)
  {
  }

  /** `xs` without `x`, in the same order. */
  function Remove(xs: seq<nat>, x: nat): (r: seq<nat>)
    ensures forall y :: y in r <==> y in xs && y != x
    ensures NoDuplicates(xs) ==> NoDuplicates(r)
    ensures x !in xs ==> r == xs
  {
    if xs == [] then []
    else if xs[0] == x then Remove(xs[1..], x)
    else
      assert NoDuplicates(xs) ==> xs[0] !in xs[1..];
      [xs[0]] + Remove(xs[1..], x)
  }

  /** In a list without duplicates, removing the entry at `i` keeps the others in their order. */
  lemma {:induction false} RemoveKeepsOrder(xs: seq<nat>, x: nat, i: nat)
    requires NoDuplicates(xs) && i < |xs| && xs[i] == x
    ensures Remove(xs, x) == xs[..i] + xs[i + 1..]
  {
    if i == 0 {
      assert x !in xs[1..];
      assert xs[i + 1..] == xs[1..];
    } else {
      assert NoDuplicates(xs[1..]);
      RemoveKeepsOrder(xs[1..], x, i - 1);
      assert xs[..i] == [xs[0]] + xs[1..][..i - 1];
      assert xs[i + 1..] == xs[1..][i..];
    }
  }

  // ---------------------------------------------------------------------
  // Mutating operations
  // ---------------------------------------------------------------------

  /** The first input check of `registerLand` that fails, if any. */
  function RegistrationError(
    plotNumber: string, area: string, district: string, city: string, state: string, areaSqYd: nat
  ): (e: Option<RegistryError>)
    ensures e == None <==>
      plotNumber != "" && area != "" && district != "" && city != "" && state != "" && areaSqYd > 0
    ensures plotNumber == "" ==> e == Some(EmptyField(PlotNumberField))
    ensures plotNumber != "" && area == "" ==> e == Some(EmptyField(AreaField))
    ensures plotNumber != "" && area != "" && district == "" ==> e == Some(EmptyField(DistrictField))
    ensures plotNumber != "" && area != "" && district != "" && city == "" ==> e == Some(EmptyField(CityField))
    ensures plotNumber != "" && area != "" && district != "" && city != "" && state == ""
      ==> e == Some(EmptyField(StateField))
    ensures plotNumber != "" && area != "" && district != "" && city != "" && state != "" && areaSqYd == 0
      ==> e == Some(ZeroAreaSqYd)
  {
    if plotNumber == "" then Some(EmptyField(PlotNumberField))
    else if area == "" then Some(EmptyField(AreaField))
    else if district == "" then Some(EmptyField(DistrictField))
    else if city == "" then Some(EmptyField(CityField))
    else if state == "" then Some(EmptyField(StateField))
    else if areaSqYd == 0 then Some(ZeroAreaSqYd)
    else None
  }

  /**
   * `registerLand`: validates the input, rejects an already registered
   * parcel, then stores a new record under the next id, owned by the caller,
   * not for sale, with a one-entry history.
   */
  function RegisterLand(
    s: State,
    plotNumber: string, area: string, district: string, city: string, state: string,
    areaSqYd: nat, caller: Identity, now: Time
  ): (r: Step<nat>)
    ensures r.result.Err? ==> r.next == s
    ensures r.result.Ok? <==>
      RegistrationError(plotNumber, area, district, city, state, areaSqYd) == None
      && ParcelKey(plotNumber, area, district, city, state) !in s.registeredKeys
    ensures RegistrationError(plotNumber, area, district, city, state, areaSqYd).Some?
      ==> r.result == Err(RegistrationError(plotNumber, area, district, city, state, areaSqYd).value)
    ensures RegistrationError(plotNumber, area, district, city, state, areaSqYd) == None
      && ParcelKey(plotNumber, area, district, city, state) in s.registeredKeys
      ==> r.result == Err(AlreadyRegistered)
    ensures r.result.Ok? ==>
      && r.result.value == s.landCount + 1
      && r.next.landCount == s.landCount + 1
      && r.next.admin == s.admin
      && r.next.lands == s.lands[r.result.value :=
           Land(r.result.value, plotNumber, area, district, city, state, areaSqYd,
                caller, false, ZeroAddress, [OwnershipRecord(caller, now)])]
      && r.next.registeredKeys == s.registeredKeys + {ParcelKey(plotNumber, area, district, city, state)}
      && r.next.ownedLands == s.ownedLands[caller := OwnedBy(s, caller) + [r.result.value]]
  {
    var key := ParcelKey(plotNumber, area, district, city, state);
    match RegistrationError(plotNumber, area, district, city, state, areaSqYd)
    case Some(e) => Step(Err(e), s)
    case None =>
      if key in s.registeredKeys then Step(Err(AlreadyRegistered), s)
      else
        var id := s.landCount + 1;
        var land := Land(id, plotNumber, area, district, city, state, areaSqYd,
                         caller, false, ZeroAddress, [OwnershipRecord(caller, now)]);
        Step(Ok(id), s.(lands := s.lands[id := land],
                        landCount := id,
                        registeredKeys := s.registeredKeys + {key},
                        ownedLands := s.ownedLands[caller := OwnedBy(s, caller) + [id]]))
  }

  /** `putLandForSale`: the owner of an unlisted land lists it. */
  function PutLandForSale(s: State, id: nat, caller: Identity): (r: Step<()>)
    ensures r.result.Err? ==> r.next == s
    ensures r.result.Ok? <==>
      id in s.lands && caller == s.lands[id].owner && !s.lands[id].isForSale
    ensures id !in s.lands ==> r.result == Err(NotFound)
    ensures id in s.lands && caller != s.lands[id].owner ==> r.result == Err(NotOwner)
    ensures id in s.lands && caller == s.lands[id].owner && s.lands[id].isForSale ==> r.result == Err(AlreadyListed)
    ensures r.result.Ok? ==> r.next == s.(lands := s.lands[id := s.lands[id].(isForSale := true)])
  {
    if id !in s.lands then Step(Err(NotFound), s)
    else
      var land := s.lands[id];
      if caller != land.owner then Step(Err(NotOwner), s)
      else if land.isForSale then Step(Err(AlreadyListed), s)
      else Step(Ok(()), s.(lands := s.lands[id := land.(isForSale := true)]))
  }

  /**
   * `requestTransfer`: anyone but the owner may claim a land that is for
   * sale; a later request replaces an earlier one.
   */
  function RequestTransfer(s: State, id: nat, caller: Identity): (r: Step<()>)
    ensures r.result.Err? ==> r.next == s
    ensures r.result.Ok? <==>
      id in s.lands && s.lands[id].isForSale && caller != s.lands[id].owner
    ensures id !in s.lands ==> r.result == Err(NotFound)
    ensures id in s.lands && !s.lands[id].isForSale ==> r.result == Err(NotForSale)
    ensures id in s.lands && s.lands[id].isForSale && caller == s.lands[id].owner
      ==> r.result == Err(SelfTransfer)
    ensures r.result.Ok? ==> r.next == s.(lands := s.lands[id := s.lands[id].(transferRequest := caller)])
  {
    if id !in s.lands then Step(Err(NotFound), s)
    else
      var land := s.lands[id];
      if !land.isForSale then Step(Err(NotForSale), s)
      else if caller == land.owner then Step(Err(SelfTransfer), s)
      else Step(Ok(()), s.(lands := s.lands[id := land.(transferRequest := caller)]))
  }

  /**
   * `approveTransfer`: the owner hands the land to the pending requester;
   * the requester is appended to the history, the request is consumed and
   * the land leaves the market.
   */
  function ApproveTransfer(s: State, id: nat, caller: Identity, now: Time): (r: Step<()>)
    ensures r.result.Err? ==> r.next == s
    ensures r.result.Ok? <==>
      id in s.lands && caller == s.lands[id].owner && s.lands[id].transferRequest != ZeroAddress
    ensures id !in s.lands ==> r.result == Err(NotFound)
    ensures id in s.lands && caller != s.lands[id].owner ==> r.result == Err(NotOwner)
    ensures id in s.lands && caller == s.lands[id].owner && s.lands[id].transferRequest == ZeroAddress
      ==> r.result == Err(NoRequest)
    ensures r.result.Ok? ==>
      var land := s.lands[id];
      var buyer := land.transferRequest;
      && r.next.lands == s.lands[id := land.(owner := buyer, isForSale := false, transferRequest := ZeroAddress,
                                             history := land.history + [OwnershipRecord(buyer, now)])]
      && r.next.ownedLands == s.ownedLands[land.owner := Remove(OwnedBy(s, land.owner), id)]
                                          [buyer := OwnedBy(s, buyer) + [id]]
      && r.next.landCount == s.landCount && r.next.registeredKeys == s.registeredKeys
      && r.next.admin == s.admin
  {
    if id !in s.lands then Step(Err(NotFound), s)
    else
      var land := s.lands[id];
      if caller != land.owner then Step(Err(NotOwner), s)
      else if land.transferRequest == ZeroAddress then Step(Err(NoRequest), s)
      else
        var buyer := land.transferRequest;
        var land' := land.(owner := buyer, isForSale := false, transferRequest := ZeroAddress,
                           history := land.history + [OwnershipRecord(buyer, now)]);
        Step(Ok(()), s.(lands := s.lands[id := land'],
                        ownedLands := s.ownedLands[land.owner := Remove(OwnedBy(s, land.owner), id)]
                                                  [buyer := OwnedBy(s, buyer) + [id]]))
  }

  /**
   * `denyTransfer`: the owner discards the pending request.  The land stays
   * listed (only the request is cleared) and the owner and history do not change.
   */
  function DenyTransfer(s: State, id: nat, caller: Identity): (r: Step<()>)
    ensures r.result.Err? ==> r.next == s
    ensures r.result.Ok? <==>
      id in s.lands && caller == s.lands[id].owner && s.lands[id].transferRequest != ZeroAddress
    ensures id !in s.lands ==> r.result == Err(NotFound)
    ensures id in s.lands && caller != s.lands[id].owner ==> r.result == Err(NotOwner)
    ensures id in s.lands && caller == s.lands[id].owner && s.lands[id].transferRequest == ZeroAddress
      ==> r.result == Err(NoRequest)
    ensures r.result.Ok? ==> r.next == s.(lands := s.lands[id := s.lands[id].(transferRequest := ZeroAddress)])
  {
    if id !in s.lands then Step(Err(NotFound), s)
    else
      var land := s.lands[id];
      if caller != land.owner then Step(Err(NotOwner), s)
      else if land.transferRequest == ZeroAddress then Step(Err(NoRequest), s)
      else Step(Ok(()), s.(lands := s.lands[id := land.(transferRequest := ZeroAddress)]))
  }

  // ---------------------------------------------------------------------
  // Queries
  // ---------------------------------------------------------------------

  /** The public `lands(id)` getter: the record, or the all-zero record for an unknown id. */
  function LandAt(s: State, id: nat): (l: Land)
    ensures id in s.lands ==> l == s.lands[id]
    ensures id !in s.lands ==> l.owner == ZeroAddress && !l.isForSale && l.transferRequest == ZeroAddress
  {
    if id in s.lands then s.lands[id] else EmptyLand
  }

  /** The seven values `verifyLand` returns. */
  datatype Verification = Verification(
    plotNumber: string, area: string, district: string, city: string, state: string,
    areaSqYd: nat, owner: Identity)

  /** `verifyLand(id)`: never fails; an unknown id is reported through the zero owner. */
  function VerifyLand(s: State, id: nat): (v: Verification)
    ensures Valid(s) ==> (v.owner == ZeroAddress <==> id !in s.lands)
    ensures id in s.lands ==>
      var l := s.lands[id];
      v == Verification(l.plotNumber, l.area, l.district, l.city, l.state, l.areaSqYd, l.owner)
  {
    var l := LandAt(s, id);
    Verification(l.plotNumber, l.area, l.district, l.city, l.state, l.areaSqYd, l.owner)
  }

  /** `getLandsByOwner(who)` */
  function GetLandsByOwner(s: State, who: Identity): (ids: seq<nat>)
    ensures Valid(s) ==> NoDuplicates(ids)
    ensures Valid(s) ==> forall id :: id in ids <==> id in s.lands && s.lands[id].owner == who
  {
    OwnedBy(s, who)
  }

  /** The ids of `ids` whose record has a pending transfer request, in the same order. */
  function WithPendingRequest(s: State, ids: seq<nat>): (r: seq<nat>)
    ensures forall id :: id in r <==> id in ids && LandAt(s, id).transferRequest != ZeroAddress
    ensures NoDuplicates(ids) ==> NoDuplicates(r)
  {
    if ids == [] then []
    else if LandAt(s, ids[0]).transferRequest != ZeroAddress then [ids[0]] + WithPendingRequest(s, ids[1..])
    else WithPendingRequest(s, ids[1..])
  }

  /** `getPendingTransferRequests(who)`: the lands `who` owns that someone has asked for. */
  function GetPendingTransferRequests(s: State, who: Identity): (ids: seq<nat>)
    ensures Valid(s) ==> NoDuplicates(ids)
    ensures Valid(s) ==> forall id :: id in ids <==>
      id in s.lands && s.lands[id].owner == who && s.lands[id].transferRequest != ZeroAddress
  {
    WithPendingRequest(s, OwnedBy(s, who))
  }

  /** `getPropertyHistory(id)`: unlike `verifyLand`, an unknown id is an error. */
  function GetPropertyHistory(s: State, id: nat): (r: Result<seq<OwnershipRecord>, RegistryError>)
    ensures r.Err? <==> id !in s.lands
    ensures r.Err? ==> r.error == NotFound
    ensures id in s.lands ==> r == Ok(s.lands[id].history)
    ensures Valid(s) && r.Ok? ==> |r.value| >= 1 && r.value[|r.value| - 1].owner == s.lands[id].owner
  {
    if id in s.lands then Ok(s.lands[id].history) else Err(NotFound)
  }

  /** `getAllLands()`: every record in id order, for the admin only. */
  function GetAllLands(s: State, caller: Identity): (r: Result<seq<Land>, RegistryError>)
    ensures r.Err? <==> caller != s.admin
    ensures r.Err? ==> r.error == NotAdmin
    ensures Valid(s) && r.Ok? ==>
      |r.value| == s.landCount
      && forall k :: 0 <= k < |r.value| ==> k + 1 in s.lands && r.value[k] == s.lands[k + 1]
  {
    if caller != s.admin then Err(NotAdmin)
    else Ok(seq(s.landCount, k requires 0 <= k => LandAt(s, k + 1)))
  }
}
