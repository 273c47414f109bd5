/**
 * The Property Search page: its input checks, the two lookups (by land id
 * and by owner address) with the shaping of what they return, and the
 * labels of the ownership timeline.
 */
module PropertySearch {
  import opened Wrappers
  import opened JsStrings
  import opened Registry
  import opened LandViews

  datatype SearchType = ById | ByOwner

  // ---------------------------------------------------------------------
  // Address format
  // ---------------------------------------------------------------------

  /** `[a-fA-F0-9]*` matched against the whole string. */
  predicate HexRun(s: string) {
    s == [] || (IsHexDigit(s[0]) && HexRun(s[1..]))
  }

  /** `/^0x[a-fA-F0-9]{40}$/.test(s)` */
  predicate IsAddressPattern(s: string)
    ensures IsAddressPattern(s) ==> |s| == 42 && s[0] == '0' && s[1] == 'x'
  {
    |s| == 42 && s[..2] == "0x" && HexRun(s[2..])
  }

  lemma {:induction false} HexRunIffAllHex(s: string)
    ensures HexRun(s) <==> forall i :: 0 <= i < |s| ==> IsHexDigit(s[i])
  {
    if s != [] {
      HexRunIffAllHex(s[1..]);
      assert forall i :: 1 <= i < |s| ==> s[i] == s[1..][i - 1];
    }
  }

  /** The address check accepts exactly "0x" followed by forty hex digits of either case. */
  lemma AddressPatternIff(s: string)
    ensures IsAddressPattern(s) <==>
      |s| == 42 && s[0] == '0' && s[1] == 'x' && forall i :: 2 <= i < 42 ==> IsHexDigit(s[i])
  {
    if |s| == 42 {
      HexRunIffAllHex(s[2..]);
      assert forall i :: 2 <= i < 42 ==> s[i] == s[2..][i - 2];
    }
  }

  // ---------------------------------------------------------------------
  // Lookups
  // ---------------------------------------------------------------------

  /**
   * `searchById`: the zero owner in a `verifyLand` answer means no such
   * land and gives no result; otherwise one result with the id and the
   * answer's values.
   */
  function SearchById(s: State, id: nat): (r: seq<LandView>)
    ensures var v := VerifyLand(s, id);
      && (r == [] <==> v.owner == ZeroAddress)
      && (r != [] ==> r == [LandView(id, v.plotNumber, v.area, v.district, v.city, v.state, v.areaSqYd, v.owner)])
  {
    var v := VerifyLand(s, id);
    if v.owner == ZeroAddress then []
    else [LandView(id, v.plotNumber, v.area, v.district, v.city, v.state, v.areaSqYd, v.owner)]
  }

  /** On a valid registry the id search finds a land exactly when it is registered, and shows its record. */
  lemma SearchByIdFindsRegistered(s: State, id: nat)
    requires Valid(s)
    ensures SearchById(s, id) != [] <==> id in s.lands
    ensures id in s.lands ==> SearchById(s, id) == [ViewOf(id, s.lands[id])]
  {
  }

  /** `ids.map(id => lands(id))` shaped into land objects, in the order of `ids`. */
  function ViewsOf(s: State, ids: seq<nat>): (r: seq<LandView>)
    ensures |r| == |ids|
    ensures forall k :: 0 <= k < |ids| ==> r[k].id == ids[k] && r[k].owner == LandAt(s, ids[k]).owner
    ensures forall k :: 0 <= k < |ids| ==> r[k] == ViewOf(ids[k], LandAt(s, ids[k]))
  {
    if ids == [] then [] else [ViewOf(ids[0], LandAt(s, ids[0]))] + ViewsOf(s, ids[1..])
  }

  /** `searchByOwner`: one result per id the chain lists for the address, in that order. */
  function SearchByOwner(s: State, who: Identity): (r: seq<LandView>)
    ensures |r| == |GetLandsByOwner(s, who)|
    ensures forall k :: 0 <= k < |r| ==> r[k].id == GetLandsByOwner(s, who)[k]
  {
    var ids := GetLandsByOwner(s, who);
    if |ids| == 0 then [] else ViewsOf(s, ids)
  }

  /**
   * On a valid registry the owner search lists every land the address
   * owns, each once, with that land's data, and nothing else.
   */
  lemma SearchByOwnerIsExact(s: State, who: Identity)
    requires Valid(s)
    ensures var r := SearchByOwner(s, who);
      && (forall k :: 0 <= k < |r| ==> r[k].id in s.lands && r[k] == ViewOf(r[k].id, s.lands[r[k].id]))
      && (forall k :: 0 <= k < |r| ==> r[k].owner == who)
      && (forall k, m :: 0 <= k < m < |r| ==> r[k].id != r[m].id)
      && (forall id :: id in s.lands && s.lands[id].owner == who <==> exists k :: 0 <= k < |r| && r[k].id == id)
  {
    var ids := GetLandsByOwner(s, who);
    var r := SearchByOwner(s, who);
    if |ids| != 0 {
      assert r == ViewsOf(s, ids);
    }
    forall id | id in s.lands && s.lands[id].owner == who
      ensures exists k :: 0 <= k < |r| && r[k].id == id
    {
      var k :| 0 <= k < |ids| && ids[k] == id;
      assert r[k].id == id;
    }
  }

  // ---------------------------------------------------------------------
  // The search handler
  // ---------------------------------------------------------------------

  /** What the page shows: the message line, the result cards, the opened record and its history. */
  datatype SearchView = SearchView(
    error: string,
    results: seq<LandView>,
    selected: Option<LandView>,
    history: seq<OwnershipRecord>)

  const NotLoadedMessage := "Contract not loaded. Connect wallet first."
  const BlankMessage := "Please enter a search value."
  const BadAddressMessage := "Invalid Ethereum address format."
  const FailedMessage := "Search failed. Please check your input."

  /** The message of a lookup that found nothing, naming what was searched for. */
  function NotFoundMessage(t: SearchType): (r: string)
    ensures t == ById ==> r == "No properties found for this Land ID."
    ensures t == ByOwner ==> r == "No properties found for this address."
  {
    "No properties found for this " + (if t == ById then "Land ID" else "address") + "."
  }

  /** The page after a lookup that answered `found`: results shown, the message only when there are none. */
  function Answered(t: SearchType, found: seq<LandView>): SearchView {
    SearchView(if found == [] then NotFoundMessage(t) else "", found, None, [])
  }

  /**
   * `handleSearch`: the two early refusals keep what is on screen; past
   * them the screen is cleared, an owner value must be a well-formed
   * address, an id the chain cannot read fails the search, and otherwise
   * the lookup's results are shown.  `value` is an id field's text (its
   * digits) or the typed address.
   */
  function HandleSearch(view: SearchView, contractLoaded: bool, t: SearchType, value: string, s: State)
    : (r: SearchView)
    ensures !contractLoaded ==> r == view.(error := NotLoadedMessage)
    ensures contractLoaded && IsBlank(value) ==> r == view.(error := BlankMessage)
    ensures contractLoaded && !IsBlank(value) ==> r.selected == None && r.history == []
    ensures contractLoaded && !IsBlank(value) && t == ByOwner && !IsAddressPattern(value)
      ==> r.error == BadAddressMessage && r.results == []
    ensures contractLoaded && !IsBlank(value) && t == ById && ParseUint(value).None?
      ==> r.error == FailedMessage && r.results == []
    ensures contractLoaded && !IsBlank(value) && t == ById && ParseUint(value).Some?
      ==> r == Answered(ById, SearchById(s, ParseUint(value).value))
    ensures contractLoaded && !IsBlank(value) && t == ByOwner && IsAddressPattern(value)
      ==> r == Answered(ByOwner, SearchByOwner(s, value))
  {
    if !contractLoaded then view.(error := NotLoadedMessage)
    else if IsBlank(value) then view.(error := BlankMessage)
    else match t
      case ById =>
        (match ParseUint(value)
         case None => SearchView(FailedMessage, [], None, [])
         case Some(id) => Answered(ById, SearchById(s, id)))
      case ByOwner =>
        if !IsAddressPattern(value) then SearchView(BadAddressMessage, [], None, [])
        else Answered(ByOwner, SearchByOwner(s, value))
  }

  /** An answered search reports "not found" exactly when it shows no result. */
  lemma AnsweredReportsEmpty(t: SearchType, found: seq<LandView>)
    ensures Answered(t, found).error != "" <==> Answered(t, found).results == []
    ensures Answered(t, found).results == found
  {
    assert NotFoundMessage(t)[0] == 'N';
  }

  /** Searching for a registered land's id shows that land alone, with no message. */
  lemma SearchForRegisteredId(view: SearchView, s: State, id: nat)
    requires Valid(s) && id in s.lands
    ensures HandleSearch(view, true, ById, NatToDecimal(id), s) == SearchView("", [ViewOf(id, s.lands[id])], None, [])
  {
    DecimalIsNotBlank(id);
    ParseNatToDecimal(id);
  }

  /** Searching for an unregistered id shows nothing and says so. */
  lemma SearchForUnknownId(view: SearchView, s: State, id: nat)
    requires Valid(s) && id !in s.lands
    ensures HandleSearch(view, true, ById, NatToDecimal(id), s) == SearchView(NotFoundMessage(ById), [], None, [])
  {
    DecimalIsNotBlank(id);
    ParseNatToDecimal(id);
  }

  // ---------------------------------------------------------------------
  // Ownership timeline
  // ---------------------------------------------------------------------

  /** The label of history entry `i`. */
  function TimelineLabel(i: nat): (r: string)
    ensures r == "Original Registration" <==> i == 0
    ensures i > 0 ==> r == "Transfer #" + NatToDecimal(i)
  {
    if i == 0 then "Original Registration"
    else
      var r := "Transfer #" + NatToDecimal(i);
      assert r[0] == 'T';
      r
  }

  /** Different entries carry different labels. */
  lemma TimelineLabelsDistinct(i: nat, j: nat)
    requires i != j
    ensures TimelineLabel(i) != TimelineLabel(j)
  {
    if i > 0 && j > 0 && TimelineLabel(i) == TimelineLabel(j) {
      var p := "Transfer #";
      assert TimelineLabel(i)[|p|..] == NatToDecimal(i);
      assert TimelineLabel(j)[|p|..] == NatToDecimal(j);
      NatToDecimalInjective(i, j);
    }
  }

  datatype TimelineEntry = TimelineEntry(heading: string, owner: Identity, timestamp: Time)

  /** `history.map((h, i) => …)`: one labelled entry per record, in order. */
  function Timeline(history: seq<OwnershipRecord>): (r: seq<TimelineEntry>)
    ensures |r| == |history|
    ensures forall i :: 0 <= i < |r| ==>
      r[i] == TimelineEntry(TimelineLabel(i), history[i].owner, history[i].timestamp)
  {
    seq(|history|, i requires 0 <= i < |history| =>
      TimelineEntry(TimelineLabel(i), history[i].owner, history[i].timestamp))
  }

  /**
   * For a registered land of a valid registry the timeline opens with the
   * registration and closes with the current owner.
   */
  lemma TimelineOfRegisteredLand(s: State, id: nat)
    requires Valid(s) && id in s.lands
    ensures GetPropertyHistory(s, id).Ok?
    ensures var t := Timeline(GetPropertyHistory(s, id).value);
      && |t| >= 1
      && t[0].heading == "Original Registration"
      && t[|t| - 1].owner == s.lands[id].owner
      && (|t| > 1 ==> t[|t| - 1].heading == "Transfer #" + NatToDecimal(|t| - 1))
  {
  }
}
