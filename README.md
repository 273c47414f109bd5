# Land registry: a verified model

This project models the LandRegistry system. It is a registry of land parcels with these features:

- sequential ids;
- duplicate-parcel prevention;
- a per-record "for sale" flag;
- a single pending transfer request per land, which the owner approves or denies;
- an append-only ownership history.

It also models the client-side rules of the web front end that reads and drives that registry.

The contract's own source is not part of this model. Its behaviour is taken from two places: the contract tests in `landregistration/test/landRegistry.test.js`, and the call sites in the front end.

- `Registry` (registry.dfy) is the specification. It describes the contract storage as a value (`State`) and every transaction as a function returning a `Step`, which holds the result and the next state. A failing transaction leaves the state unchanged. The transaction sender (`caller`) and the block time (`now`) are explicit parameters. `Valid` is the registry invariant:
  - ids are dense `1..landCount`;
  - every record has non-empty texts, a positive size and a non-zero owner;
  - every history is non-empty and ends with the current owner;
  - a pending request implies the land is for sale and the requester is not the owner;
  - there is one record per parcel key, and the key index holds exactly the keys of the records;
  - the per-owner id lists are exact and contain no duplicates.
- `RegistryInvariants` (registry_invariants.dfy) proves that every transaction and every sequence of transactions keeps `Valid`. It also proves that a run only ever extends the registry: records are never lost, keys and sizes never change, and histories only grow.
- `LandRegistryContract.LandRegistry` (land_registry.dfy) is the contract as a class. Its fields are updated in place. Each method is proved to perform exactly the `Registry` step and to keep the invariant.
- `RegistryScenarios` (registry_scenarios.dfy) states the behaviours the contract tests exercise, for all inputs. It also replays two of the tests against the class.
- `Config` (config.dfy) models `shortenAddress`.
- `ManageLandPage` (manage_land_page.dfy) models the registration form check, the transaction-error classifier, the verify panel and the for-sale scan.
- `PropertySearch` (property_search.dfy) models the search handler, the id and owner lookups, the address format check and the ownership-timeline labels.
- `JsStrings` (js_strings.dfy) models the JavaScript string built-ins these rules use: `trim`, `includes`, `substring` and decimal rendering. Each built-in also gets an independent characterisation.
- `LandViews` (land_views.dfy) defines the land object the client pages build from a record.
- `Wrappers` (wrappers.dfy) defines `Option` and `Result`.

Rules the contract tests do not exercise are given here as explicit error results, each one separable:

- Only the owner may list, approve or deny a land.
- An owner may not request their own land.
- Approving or denying with no pending request is an error.
- Re-listing a land that is already for sale is an error (`AlreadyListed`). The page offers "List for Sale" only for unlisted lands (`ManageLandPage.js:393`).
- `denyTransfer` clears only the request, so the land stays listed. This is the model's own policy: no test or page shows the sale flag after a denial.

## Model

| member | source | states |
|---|---|---|
| Registry.RevertReason | landregistration/test/landRegistry.test.js:32-49 | the empty-plot error carries "Plot number cannot be empty"; the duplicate error's reason contains "already registered"; every reason is non-empty |
| Registry.Valid | landregistration/test/landRegistry.test.js:14-87 | the registry invariant: ids are dense 1..landCount; every record is well formed and knows its id; one record per parcel key, and the key index is exactly the records' keys; the per-owner lists are exact and free of duplicates |
| Registry.RegisteredLandIsWellFormed | landregistration/test/landRegistry.test.js:14-30 | on a valid registry every registered record is stored under its own id, has non-empty texts, a positive size and a non-zero owner, a history ending with that owner, and a pending request only on a listed land and from someone other than the owner |
| Registry.RegistrationError | landregistration/test/landRegistry.test.js:42-49 | registration input is accepted exactly when all five texts are non-empty and the size is positive; the first empty text, in the order plot number, area, district, city, state, is reported as that field's error; with all texts present a zero size is ZeroAreaSqYd |
| Registry.RegisterLand | landregistration/test/landRegistry.test.js:14-40 | succeeds exactly when the input is valid and the parcel key is new; invalid input fails with the input check's error; a known key gives AlreadyRegistered; on success the new id is landCount + 1, the count grows by one, the record holds exactly the submitted data, is owned by the caller, is not for sale and has a one-entry history, the key is indexed and the id is appended to the caller's list; a failure changes nothing |
| Registry.PutLandForSale | landregistration/test/landRegistry.test.js:57-61 | succeeds exactly when the land exists, the caller owns it and it is not yet listed; an unknown id gets NotFound, a non-owner NotOwner, a listed land AlreadyListed; success sets isForSale and changes nothing else |
| Registry.RequestTransfer | landregistration/test/landRegistry.test.js:63-68 | succeeds exactly when the land exists, is for sale and the caller is not its owner; an unknown id gets NotFound, an unlisted land NotForSale, the owner SelfTransfer; success records the caller as the request and changes nothing else |
| Registry.ApproveTransfer | landregistration/test/landRegistry.test.js:70-77 | succeeds exactly when the caller owns the land and a request is pending; an unknown id gets NotFound, a non-owner NotOwner, no pending request NoRequest; success makes the requester the owner, takes the land off the market, clears the request, appends the requester to the history and moves the id from the seller's list to the end of the buyer's |
| Registry.DenyTransfer | landregistration/test/landRegistry.test.js:79-86 | succeeds exactly when the caller owns the land and a request is pending; an unknown id gets NotFound, a non-owner NotOwner, no pending request NoRequest; success clears only the request |
| Registry.LandAt | landregistration/test/landRegistry.test.js:16 | the public getter yields the stored record for a registered id, and the zero owner, not for sale and no request for an id never registered |
| Registry.VerifyLand | landregistration/test/landRegistry.test.js:94-98 | returns the record's seven values; on a valid registry the owner is zero exactly when the id is unknown |
| Registry.GetLandsByOwner | landregistration/test/landRegistry.test.js:100-104 | on a valid registry lists exactly the ids the identity owns, each once |
| Registry.GetPendingTransferRequests | landregistration/front-end/src/components/ManageLandPage.js:72-76 | on a valid registry lists exactly the owner's ids with a pending request, each once |
| Registry.WithPendingRequest | landregistration/front-end/src/components/ManageLandPage.js:72 | keeps exactly the ids with a pending request and no duplicates |
| Registry.GetPropertyHistory | landregistration/test/landRegistry.test.js:106-110 | fails with NotFound exactly for an unknown id; for a registered id returns that record's stored history; on a valid registry the history is non-empty and ends with the current owner |
| Registry.GetAllLands | landregistration/front-end/src/components/AdminPanel.js:34 | refused exactly for a caller other than the deployer; otherwise, on a valid registry, every record in id order |
| Registry.Remove | landregistration/test/landRegistry.test.js:70-77 | removes exactly the given id from an owner's list and keeps it free of duplicates; a list without the id is returned unchanged |
| Registry.RemoveKeepsOrder | landregistration/test/landRegistry.test.js:70-77 | in a list without duplicates, removing the id at position i leaves the entries before and after it, in their order |
| RegistryInvariants.InitIsValid | landregistration/test/landRegistry.test.js:9-11 | a freshly deployed registry satisfies the invariant |
| RegistryInvariants.RegisterLandKeepsValid | landregistration/test/landRegistry.test.js:14-40 | registration keeps the invariant |
| RegistryInvariants.PutLandForSaleKeepsValid | landregistration/test/landRegistry.test.js:57-61 | listing keeps the invariant |
| RegistryInvariants.RequestTransferKeepsValid | landregistration/test/landRegistry.test.js:63-68 | a request keeps the invariant |
| RegistryInvariants.ApproveTransferKeepsValid | landregistration/test/landRegistry.test.js:70-77 | approval keeps the invariant, including the exact per-owner lists and the history ending with the new owner |
| RegistryInvariants.DenyTransferKeepsValid | landregistration/test/landRegistry.test.js:79-86 | denial keeps the invariant |
| RegistryInvariants.LandCountIsNumberOfRecords | landregistration/test/landRegistry.test.js:26-30 | on a valid registry landCount is the number of stored records |
| RegistryInvariants.IdRangeSize | landregistration/front-end/src/components/ManageLandPage.js:54 | the ids 1..n are exactly n ids |
| RegistryInvariants.RunKeepsValid | landregistration/test/landRegistry.test.js:52-87 | any sequence of transactions from real accounts keeps the invariant |
| RegistryInvariants.ApplyExtends | landregistration/test/landRegistry.test.js:52-87 | one transaction never removes a record, never changes a record's key or size, and only appends to histories |
| RegistryInvariants.RunExtends | landregistration/test/landRegistry.test.js:52-87 | the same holds for any sequence of transactions |
| LandRegistryContract.LandRegistry.constructor | landregistration/test/landRegistry.test.js:9-11 | deployment gives empty storage with the deployer as admin, and the invariant holds |
| LandRegistryContract.LandRegistry.RegisterLand | landregistration/test/landRegistry.test.js:14-40 | the in-place update performs exactly Registry.RegisterLand and keeps the invariant |
| LandRegistryContract.LandRegistry.PutLandForSale | landregistration/test/landRegistry.test.js:57-61 | performs exactly Registry.PutLandForSale and keeps the invariant |
| LandRegistryContract.LandRegistry.RequestTransfer | landregistration/test/landRegistry.test.js:63-68 | performs exactly Registry.RequestTransfer and keeps the invariant |
| LandRegistryContract.LandRegistry.ApproveTransfer | landregistration/test/landRegistry.test.js:70-77 | performs exactly Registry.ApproveTransfer and keeps the invariant |
| LandRegistryContract.LandRegistry.DenyTransfer | landregistration/test/landRegistry.test.js:79-86 | performs exactly Registry.DenyTransfer and keeps the invariant |
| RegistryScenarios.RegisterOnFreshRegistry | landregistration/test/landRegistry.test.js:14-30 | on a fresh registry, registration gives id 1 and count 1; `lands(1)` and `verifyLand(1)` return exactly the submitted data and owner; the owner's list is [1]; the history has one entry naming the registrant |
| RegistryScenarios.DuplicateParcelRejected | landregistration/test/landRegistry.test.js:32-40 | registering a registered parcel again fails with any size or caller, with AlreadyRegistered for a valid size, and adds nothing |
| RegistryScenarios.EmptyPlotRejected | landregistration/test/landRegistry.test.js:42-49 | registering with an empty plot number fails with the empty-plot error, whose reason is "Plot number cannot be empty", and changes nothing |
| RegistryScenarios.ListRequestApprove | landregistration/test/landRegistry.test.js:57-77 | list, then request, then approve: the land is listed, then requested by the buyer, then owned by the buyer; it is off the market with no request; its history gains the buyer; its id moves between the owners' lists |
| RegistryScenarios.ListRequestDeny | landregistration/test/landRegistry.test.js:79-86 | list, then request, then deny: the request is zero, the owner and history are unchanged and the land stays listed; a later approval finds no request and a new request is accepted |
| RegistryScenarios.ApproveFlow | landregistration/test/landRegistry.test.js:70-77 | the approve test replayed on the class: the buyer owns the land, it is not for sale, and the history has two entries |
| RegistryScenarios.DenyFlow | landregistration/test/landRegistry.test.js:79-86 | the deny test replayed on the class: the owner is unchanged and the request is the zero address |
| Config.ShortenAddress | landregistration/front-end/src/config.js:7-10 | an absent or empty address gives ""; otherwise the first six characters, "...", then the last four, clamped as `substring` clamps |
| Config.ShortenLongAddress | landregistration/front-end/src/config.js:9 | for an address of ten or more characters the result has length 13: the 6-character prefix, "...", then the 4-character suffix |
| Config.ShortenShortAddress | landregistration/front-end/src/config.js:9 | below six characters the prefix is the whole address; below four the suffix is too |
| JsStrings.TrimStart | landregistration/front-end/src/components/ManageLandPage.js:97 | `trim`'s leading part: the result is a suffix that starts with a non-whitespace character, and only whitespace was removed |
| JsStrings.TrimEnd | landregistration/front-end/src/components/ManageLandPage.js:97 | `trim`'s trailing part: the result is a prefix that ends with a non-whitespace character, and only whitespace was removed |
| JsStrings.TrimStripsBothEnds | landregistration/front-end/src/components/ManageLandPage.js:97 | `trim`: the trimmed string is no longer than the input and, when not empty, starts and ends with a non-whitespace character |
| JsStrings.IsBlank | landregistration/front-end/src/components/ManageLandPage.js:97-101 | a string that is not blank is not empty |
| JsStrings.BlankIffAllWhitespace | landregistration/front-end/src/components/ManageLandPage.js:97-101 | a string is blank after `trim` exactly when every character is whitespace |
| JsStrings.Includes | landregistration/front-end/src/components/ManageLandPage.js:225-226 | a prefix is included, and an included string is no longer than the string |
| JsStrings.IncludesIffOccurs | landregistration/front-end/src/components/ManageLandPage.js:225-226 | `includes` holds exactly when the substring occurs at some position |
| JsStrings.IncludesTransitive | landregistration/front-end/src/components/ManageLandPage.js:226 | a substring of a substring is a substring |
| JsStrings.Substring | landregistration/front-end/src/config.js:9 | for any positions, the slice from the lower to the higher position, each clamped into 0..length; so positions in range give the slice between them in either order, both at or below 0 or both at or past the end give "", and the result is no longer than the string |
| JsStrings.SubstringFrom | landregistration/front-end/src/config.js:9 | a start in range gives the suffix from it; a negative start gives the whole string; a start past the end gives "" |
| JsStrings.DecimalIsNotBlank | landregistration/front-end/src/components/PropertySearch.js:43 | the decimal rendering of a number is never blank |
| JsStrings.ParseUint | landregistration/front-end/src/components/PropertySearch.js:48 | an id field's text is read as a number exactly when it is a non-empty run of decimal digits |
| JsStrings.NatToDecimal | landregistration/front-end/src/components/PropertySearch.js:233 | `String(n)` is a non-empty run of digits with no leading zero |
| JsStrings.DecimalRoundTrip | landregistration/front-end/src/components/PropertySearch.js:233 | reading back the decimal rendering of a number gives that number |
| JsStrings.NatToDecimalInjective | landregistration/front-end/src/components/PropertySearch.js:233 | distinct numbers render differently |
| ManageLandPage.ValidateForm | landregistration/front-end/src/components/ManageLandPage.js:95-105 | the form is accepted exactly when the five texts are non-blank after trimming and the size is present and positive; each blank text gets 'Required' under its own key only; a missing or non-positive size gets 'Must be > 0' |
| ManageLandPage.CompleteFormPassesTextChecks | landregistration/front-end/src/components/ManageLandPage.js:107-108 | a form the page accepts, submitted with the size it carries, passes every input check of `registerLand` |
| ManageLandPage.ExtractErrorMessage | landregistration/front-end/src/components/ManageLandPage.js:224-228 | 'User denied' in the message gives "Transaction rejected by user." and takes precedence; otherwise 'already registered' gives "This land is already registered."; otherwise "Transaction failed: " followed by the first non-empty of reason and message, or "Unknown error" |
| ManageLandPage.DuplicateRevertIsRecognised | landregistration/front-end/src/components/ManageLandPage.js:226 | a message carrying the contract's duplicate-registration revert reason, without a wallet rejection, is shown as "This land is already registered." |
| ManageLandPage.VerificationOutcome | landregistration/front-end/src/components/ManageLandPage.js:210-215 | a zero owner is "No land found with this ID."; otherwise all seven values are shown unchanged |
| ManageLandPage.VerifyPanel | landregistration/front-end/src/components/ManageLandPage.js:200-222 | an empty id field or no contract gives "Please enter a valid Land ID"; an unreadable id gives "Failed to verify. Please check the Land ID."; on a valid registry a registered id shows that record's five texts, size and owner, and an unregistered id gives "No land found with this ID." |
| ManageLandPage.VerifyPanelShowsRegisteredLand | landregistration/front-end/src/components/ManageLandPage.js:209-215 | typing a registered land's id shows exactly that record's values and owner |
| ManageLandPage.VerifyPanelShowsUnknownId | landregistration/front-end/src/components/ManageLandPage.js:209-211 | typing an id no land was registered under shows "No land found with this ID." |
| ManageLandPage.FetchLandsForSale | landregistration/front-end/src/components/ManageLandPage.js:52-59 | the loop yields exactly the ids in 1..landCount whose land is for sale, in strictly ascending order, each with its record's data |
| ManageLandPage.PendingRequestMeansForSale | landregistration/front-end/src/components/ManageLandPage.js:72-76 | on a valid registry a land with a pending request lies in 1..landCount and is for sale, so the for-sale scan lists it |
| PropertySearch.IsAddressPattern | landregistration/front-end/src/components/PropertySearch.js:50 | an accepted address has 42 characters and starts with "0x" |
| PropertySearch.HexRunIffAllHex | landregistration/front-end/src/components/PropertySearch.js:50 | `[a-fA-F0-9]*` matches exactly the strings made only of hex digits |
| PropertySearch.AddressPatternIff | landregistration/front-end/src/components/PropertySearch.js:50 | the address check accepts exactly "0x" followed by forty hex digits of either case |
| LandViews.ViewOf | landregistration/front-end/src/components/PropertySearch.js:31-38 | the land object carries the given id, the record's parcel key texts, its size and its owner |
| PropertySearch.SearchById | landregistration/front-end/src/components/PropertySearch.js:18-26 | no result exactly when the answer's owner is zero; otherwise one result carrying the id, the five texts, the size and the owner |
| PropertySearch.SearchByIdFindsRegistered | landregistration/front-end/src/components/PropertySearch.js:18-26 | on a valid registry the id search finds a land exactly when it is registered, and shows that record |
| PropertySearch.ViewsOf | landregistration/front-end/src/components/PropertySearch.js:31-38 | one land object per id, in the same order, each built from that id's record |
| PropertySearch.SearchByOwner | landregistration/front-end/src/components/PropertySearch.js:28-39 | one result per id the chain lists for the address, in the same order; none when the list is empty |
| PropertySearch.SearchByOwnerIsExact | landregistration/front-end/src/components/PropertySearch.js:28-39 | on a valid registry the owner search lists every land the address owns, each once, with its data, and nothing else |
| PropertySearch.HandleSearch | landregistration/front-end/src/components/PropertySearch.js:41-61 | no contract, or a value that is blank after trimming, only sets the message and keeps the results; past those checks the selection and history are cleared; a malformed owner address gives "Invalid Ethereum address format." and no results; an unreadable id gives "Search failed. Please check your input."; otherwise the lookup's results are shown |
| PropertySearch.NotFoundMessage | landregistration/front-end/src/components/PropertySearch.js:53 | an id search that found nothing says "No properties found for this Land ID."; an owner search says "No properties found for this address." |
| PropertySearch.AnsweredReportsEmpty | landregistration/front-end/src/components/PropertySearch.js:53-54 | after a lookup the "No properties found" message is shown exactly when there are no results |
| PropertySearch.SearchForRegisteredId | landregistration/front-end/src/components/PropertySearch.js:41-61 | searching a registered land's id shows that land alone with no message |
| PropertySearch.SearchForUnknownId | landregistration/front-end/src/components/PropertySearch.js:41-61 | searching an unregistered id shows nothing and "No properties found for this Land ID." |
| PropertySearch.TimelineLabel | landregistration/front-end/src/components/PropertySearch.js:233 | entry 0 and only entry 0 is "Original Registration"; entry i > 0 is "Transfer #i" |
| PropertySearch.TimelineLabelsDistinct | landregistration/front-end/src/components/PropertySearch.js:233 | different entries carry different labels |
| PropertySearch.Timeline | landregistration/front-end/src/components/PropertySearch.js:231-237 | one labelled entry per history record, in order, with its owner and timestamp |
| PropertySearch.TimelineOfRegisteredLand | landregistration/front-end/src/components/PropertySearch.js:231-237 | for a registered land the timeline opens with "Original Registration" and ends with the current owner |

## Left out

- The contract's own source is not part of this model. Revert strings other than "Plot number cannot be empty" and the "already registered" reason are this model's own wording.
- The order of `registerLand`'s checks is this model's own choice: the five texts in field order, then the size, then the duplicate key. The tests only fix which error each of their inputs gets.
- The parcel key is the five texts themselves rather than the contract's hash of them. The model's key is therefore injective by construction.
- The pages turn chain integers into JavaScript numbers with `Number(...)`: the scan bound (`ManageLandPage.js:54`), ids and sizes (`ManageLandPage.js:57`, `ManageLandPage.js:214`, `PropertySearch.js:22`, `PropertySearch.js:24`, `PropertySearch.js:34`, `PropertySearch.js:36`). Above 2^53 these become rounded doubles. The model keeps them as exact integers (`LandView.id`, `LandView.areaSqYd`, `Verification.areaSqYd`, the bound of `FetchLandsForSale`).
- The model does not check for `uint256` overflow of `landCount`, of sizes or of typed ids. Integers are unbounded. An id of 2^256 or more typed into the verify or search field is read as a number and reported as not found. The ABI encoder would reject it instead, and the page would show its failure message (`ManageLandPage.js:216-218`, `PropertySearch.js:55-57`).
- Gas, fees, consensus, transaction ordering and reverts caused by the EVM itself are not modelled.
- Lengths are in Dafny `char`s rather than JavaScript UTF-16 code units. The two agree on the hex addresses and digit strings used here.
- Identities are compared as exact strings. The chain compares addresses as numbers, and `ManageLandPage.js:435` and `AdminPanel.js:21` compare them case-insensitively. The zero identity is the lower-case zero address that the client compares against.
- RegistryInvariants.RunKeepsValid: it assumes every caller is a non-zero account, since a transaction sender is never the zero address.
- LandRegistryContract.LandRegistry.RegisterLand: it requires a non-zero caller, for the same reason.
- The web3 layer (`call`/`send`, MetaMask, gas limits, transaction hashes), `async`/`Promise.all`, loading flags and React rendering are not modelled. A page's chain reads become pure queries on one registry state.
- The `viewDetails` history fetch, with its fallback to `getPastOwnershipDetails`, is left out (`PropertySearch.js:63-82`). Only the timeline built from a history is modelled.
- `generateQRData` depends on `encodeURIComponent` and an external QR service. `printCertificate` depends on `window.print` and a timer. Both are left out.
- Date formatting (`toLocaleString`) is left out. Timestamps are opaque numbers.
- ManageLandPage.ValidateForm: the size field's text is taken as either absent or its numeric value (`Option<real>`). JavaScript's string-to-number coercion of other texts is not modelled.
- JsStrings.ParseUint: an id field's text is accepted only as a run of decimal digits, and anything else counts as a lookup the chain rejects. The ABI encoder's handling of other numeric spellings (signs, exponents, fractions) is not modelled. It also accepts digit runs whose value is 2^256 or more, which the encoder would reject.
- The `AdminPanel.js` page is not modelled beyond the deployer-only `getAllLands`. Its case-insensitive admin check and its zero-owner history check are UI gating.
- `fetchUserLands` and the landing page only display query results. Those queries (`GetLandsByOwner`, `landCount`) are modelled; the display is not.
