/**
 * Every mutating operation of the registry keeps its invariant, and any
 * sequence of calls only ever adds records and appends to histories.
 */
module RegistryInvariants {
  import opened Registry

  lemma InitIsValid(admin: Identity)
    ensures Valid(Init(admin))
  {
  }

  lemma AppendKeepsNoDuplicates(xs: seq<nat>, x: nat)
    requires NoDuplicates(xs) && x !in xs
    ensures NoDuplicates(xs + [x])
  {
  }

  lemma KeysOfInsert(lands: map<nat, Land>, id: nat, l: Land)
    requires id !in lands
    ensures KeysOf(lands[id := l]) == KeysOf(lands) + {KeyOf(l)}
  {
    var m := lands[id := l];
    forall k | k in KeysOf(m) ensures k in KeysOf(lands) + {KeyOf(l)} {
      var j :| j in m && KeyOf(m[j]) == k;
      if j != id {
        assert KeyOf(lands[j]) in KeysOf(lands);
      }
    }
    forall k | k in KeysOf(lands) + {KeyOf(l)} ensures k in KeysOf(m) {
      if k == KeyOf(l) {
        assert KeyOf(m[id]) in KeysOf(m);
      } else {
        var j :| j in lands && KeyOf(lands[j]) == k;
        assert KeyOf(m[j]) in KeysOf(m);
      }
    }
  }

  lemma KeysOfReplace(lands: map<nat, Land>, id: nat, l: Land)
    requires id in lands && KeyOf(l) == KeyOf(lands[id])
    ensures KeysOf(lands[id := l]) == KeysOf(lands)
  {
    var m := lands[id := l];
    forall k | k in KeysOf(m) ensures k in KeysOf(lands) {
      var j :| j in m && KeyOf(m[j]) == k;
      assert KeyOf(lands[j]) in KeysOf(lands);
    }
    forall k | k in KeysOf(lands) ensures k in KeysOf(m) {
      var j :| j in lands && KeyOf(lands[j]) == k;
      assert KeyOf(m[j]) in KeysOf(m);
    }
  }

  lemma RegisterLandKeepsValid(
    s: State, plotNumber: string, area: string, district: string, city: string, state: string,
    areaSqYd: nat, caller: Identity, now: Time)
    requires Valid(s) && caller != ZeroAddress
    ensures Valid(RegisterLand(s, plotNumber, area, district, city, state, areaSqYd, caller, now).next)
  {
    var r := RegisterLand(s, plotNumber, area, district, city, state, areaSqYd, caller, now);
    if r.result.Ok? {
      var id := s.landCount + 1;
      var t := r.next;
      assert id !in s.lands;
      KeysOfInsert(s.lands, id, t.lands[id]);
      forall i, j | i in t.lands && j in t.lands && KeyOf(t.lands[i]) == KeyOf(t.lands[j])
        ensures i == j
      {
        if i != id {
          assert KeyOf(s.lands[i]) in KeysOf(s.lands);
        }
        if j != id {
          assert KeyOf(s.lands[j]) in KeysOf(s.lands);
        }
      }
      forall who, x
        ensures x in OwnedBy(t, who) <==> x in t.lands && t.lands[x].owner == who
      {
        if who == caller {
          assert OwnedBy(t, who) == OwnedBy(s, who) + [id];
        } else {
          assert OwnedBy(t, who) == OwnedBy(s, who);
        }
      }
      forall who ensures NoDuplicates(OwnedBy(t, who)) {
        if who == caller {
          AppendKeepsNoDuplicates(OwnedBy(s, who), id);
        } else {
          assert OwnedBy(t, who) == OwnedBy(s, who);
        }
      }
    }
  }

  /** Replacing a record by one with the same id, parcel and owner keeps the invariant. */
  lemma SameOwnerUpdateKeepsValid(s: State, id: nat, l: Land)
    requires Valid(s) && id in s.lands
    requires l.id == id && KeyOf(l) == KeyOf(s.lands[id]) && l.owner == s.lands[id].owner
    requires WellFormed(l)
    ensures Valid(s.(lands := s.lands[id := l]))
  {
    var t := s.(lands := s.lands[id := l]);
    KeysOfReplace(s.lands, id, l);
    forall who, x
      ensures x in OwnedBy(t, who) <==> x in t.lands && t.lands[x].owner == who
    {
      assert OwnedBy(t, who) == OwnedBy(s, who);
    }
    forall who ensures NoDuplicates(OwnedBy(t, who)) {
      assert OwnedBy(t, who) == OwnedBy(s, who);
    }
  }

  lemma PutLandForSaleKeepsValid(s: State, id: nat, caller: Identity)
    requires Valid(s)
    ensures Valid(PutLandForSale(s, id, caller).next)
  {
    if PutLandForSale(s, id, caller).result.Ok? {
      SameOwnerUpdateKeepsValid(s, id, s.lands[id].(isForSale := true));
    }
  }

  lemma RequestTransferKeepsValid(s: State, id: nat, caller: Identity)
    requires Valid(s)
    ensures Valid(RequestTransfer(s, id, caller).next)
  {
    if RequestTransfer(s, id, caller).result.Ok? {
      SameOwnerUpdateKeepsValid(s, id, s.lands[id].(transferRequest := caller));
    }
  }

  lemma DenyTransferKeepsValid(s: State, id: nat, caller: Identity)
    requires Valid(s)
    ensures Valid(DenyTransfer(s, id, caller).next)
  {
    if DenyTransfer(s, id, caller).result.Ok? {
      SameOwnerUpdateKeepsValid(s, id, s.lands[id].(transferRequest := ZeroAddress));
    }
  }

  lemma ApproveTransferKeepsValid(s: State, id: nat, caller: Identity, now: Time)
    requires Valid(s)
    ensures Valid(ApproveTransfer(s, id, caller, now).next)
  {
    var r := ApproveTransfer(s, id, caller, now);
    if r.result.Ok? {
      var t := r.next;
      var seller := s.lands[id].owner;
      var buyer := s.lands[id].transferRequest;
      assert buyer != seller;
      KeysOfReplace(s.lands, id, t.lands[id]);
      forall who, x
        ensures x in OwnedBy(t, who) <==> x in t.lands && t.lands[x].owner == who
      {
        if who == buyer {
          assert OwnedBy(t, who) == OwnedBy(s, who) + [id];
        } else if who == seller {
          assert OwnedBy(t, who) == Remove(OwnedBy(s, who), id);
        } else {
          assert OwnedBy(t, who) == OwnedBy(s, who);
        }
      }
      forall who ensures NoDuplicates(OwnedBy(t, who)) {
        if who == buyer {
          AppendKeepsNoDuplicates(OwnedBy(s, who), id);
        } else if who == seller {
          assert OwnedBy(t, who) == Remove(OwnedBy(s, who), id);
        } else {
          assert OwnedBy(t, who) == OwnedBy(s, who);
        }
      }
    }
  }

  // ---------------------------------------------------------------------
  // Landcount is the number of records
  // ---------------------------------------------------------------------

  ghost function IdRange(n: nat): set<nat> {
    if n == 0 then {} else IdRange(n - 1) + {n}
  }

  lemma {:induction false} IdRangeSize(n: nat)
    ensures |IdRange(n)| == n
    ensures forall id :: id in IdRange(n) <==> 1 <= id <= n
  {
    if n > 0 {
      IdRangeSize(n - 1);
    }
  }

  /** `landCount` is the number of records ever created. */
  lemma LandCountIsNumberOfRecords(s: State)
    requires Valid(s)
    ensures |s.lands| == s.landCount
  {
    IdRangeSize(s.landCount);
    assert s.lands.Keys == IdRange(s.landCount);
  }

  // ---------------------------------------------------------------------
  // Runs of calls
  // ---------------------------------------------------------------------

  /** A transaction sent to the registry. */
  datatype Call =
    | Register(plotNumber: string, area: string, district: string, city: string, state: string,
               areaSqYd: nat, caller: Identity, now: Time)
    | PutForSale(id: nat, caller: Identity)
    | Request(id: nat, caller: Identity)
    | Approve(id: nat, caller: Identity, now: Time)
    | Deny(id: nat, caller: Identity)

  function Apply(s: State, c: Call): State {
    match c
    case Register(p, a, d, ci, st, sq, caller, now) => RegisterLand(s, p, a, d, ci, st, sq, caller, now).next
    case PutForSale(id, caller) => PutLandForSale(s, id, caller).next
    case Request(id, caller) => RequestTransfer(s, id, caller).next
    case Approve(id, caller, now) => ApproveTransfer(s, id, caller, now).next
    case Deny(id, caller) => DenyTransfer(s, id, caller).next
  }

  function Run(s: State, calls: seq<Call>): State
    decreases |calls|
  {
    if calls == [] then s else Run(Apply(s, calls[0]), calls[1..])
  }

  /** Every call comes from a real account (a transaction sender is never the zero address). */
  predicate FromAccounts(calls: seq<Call>) {
    forall k :: 0 <= k < |calls| ==> calls[k].caller != ZeroAddress
  }

  lemma ApplyKeepsValid(s: State, c: Call)
    requires Valid(s) && c.caller != ZeroAddress
    ensures Valid(Apply(s, c))
  {
    match c
    case Register(p, a, d, ci, st, sq, caller, now) => RegisterLandKeepsValid(s, p, a, d, ci, st, sq, caller, now);
    case PutForSale(id, caller) => PutLandForSaleKeepsValid(s, id, caller);
    case Request(id, caller) => RequestTransferKeepsValid(s, id, caller);
    case Approve(id, caller, now) => ApproveTransferKeepsValid(s, id, caller, now);
    case Deny(id, caller) => DenyTransferKeepsValid(s, id, caller);
  }

  /** The invariant holds after any sequence of calls from a freshly deployed registry on. */
  lemma {:induction false} RunKeepsValid(s: State, calls: seq<Call>)
    requires Valid(s) && FromAccounts(calls)
    ensures Valid(Run(s, calls))
    decreases |calls|
  {
    if calls != [] {
      ApplyKeepsValid(s, calls[0]);
      assert FromAccounts(calls[1..]) by {
        forall k | 0 <= k < |calls[1..]| ensures calls[1..][k].caller != ZeroAddress {
          assert calls[1..][k] == calls[k + 1];
        }
      }
      RunKeepsValid(Apply(s, calls[0]), calls[1..]);
    }
  }

  /**
   * `t` is a later state of `s`: the admin is the same, no record was
   * deleted or re-described, histories were only appended to, and the count
   * and key index only grew.
   */
  ghost predicate Extends(s: State, t: State) {
    && t.admin == s.admin
    && s.landCount <= t.landCount
    && s.registeredKeys <= t.registeredKeys
    && forall id :: id in s.lands ==>
         && id in t.lands
         && KeyOf(t.lands[id]) == KeyOf(s.lands[id])
         && t.lands[id].areaSqYd == s.lands[id].areaSqYd
         && s.lands[id].history <= t.lands[id].history
  }

  lemma ExtendsReflexive(s: State)
    ensures Extends(s, s)
  {
  }

  /** Rewriting one record in place, keeping its parcel and size and extending its history. */
  lemma RewriteExtends(s: State, t: State, id: nat)
    requires id in s.lands && id in t.lands
    requires t.admin == s.admin && t.landCount == s.landCount && t.registeredKeys == s.registeredKeys
    requires t.lands == s.lands[id := t.lands[id]]
    requires KeyOf(t.lands[id]) == KeyOf(s.lands[id]) && t.lands[id].areaSqYd == s.lands[id].areaSqYd
    requires s.lands[id].history <= t.lands[id].history
    ensures Extends(s, t)
  {
  }

  lemma ApplyExtends(s: State, c: Call)
    requires Valid(s)
    ensures Extends(s, Apply(s, c))
  {
    var t := Apply(s, c);
    if t == s {
      ExtendsReflexive(s);
    } else {
      match c
      case Register(p, a, d, ci, st, sq, caller, now) =>
        assert s.landCount + 1 !in s.lands;
      case PutForSale(id, caller) =>
        RewriteExtends(s, t, id);
      case Request(id, caller) =>
        RewriteExtends(s, t, id);
      case Approve(id, caller, now) =>
        RewriteExtends(s, t, id);
      case Deny(id, caller) =>
        RewriteExtends(s, t, id);
    }
  }

  /** Records are never deleted and histories only grow, over any run. */
  lemma {:induction false} RunExtends(s: State, calls: seq<Call>)
    requires Valid(s) && FromAccounts(calls)
    ensures Extends(s, Run(s, calls))
    decreases |calls|
  {
    if calls != [] {
      var s1 := Apply(s, calls[0]);
      ApplyExtends(s, calls[0]);
      ApplyKeepsValid(s, calls[0]);
      assert FromAccounts(calls[1..]) by {
        forall k | 0 <= k < |calls[1..]| ensures calls[1..][k].caller != ZeroAddress {
          assert calls[1..][k] == calls[k + 1];
        }
      }
      RunExtends(s1, calls[1..]);
      var t := Run(s1, calls[1..]);
      forall id | id in s.lands ensures s.lands[id].history <= t.lands[id].history {
        assert s.lands[id].history <= s1.lands[id].history;
        assert s1.lands[id].history <= t.lands[id].history;
      }
    }
  }
}
